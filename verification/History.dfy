/**
 What the main loop does to the history of events, as functions and relations: how
 far the processors run and what they ask for, the dispatch of what has come due,
 the sleep while no processor runs, the nodes all this needs, and how late an event
 can be.

 The physical clock, the time slept and the jitter are arguments; so is what
 the processors and the event handlers ask for.
 */
module History {
  import opened ActionPool
  import opened EventQueue

  const NSECS_PER_CLOCK: nat := 40
  const MAXRUN: nat := 125000
  const ROTOR: nat := 50000
  const MIN_SLEEP: nat := 10_000_000

  /* One cycle of the processors: the events the devices they touch ask for,
     and whether every processor is idle when it is over. */
  datatype Cycle = Cycle(asked: seq<Request>, idle: bool)

  function EventsOf(now: nat, serial: nat, work: seq<Cycle>): seq<Event> {
    if work == [] then []
    else
      var n := |work| - 1;
      var before := EventsOf(now, serial, work[..n]);
      before + IssuedBy(now + NSECS_PER_CLOCK * n, serial + |before|, work[n].asked)
  }

  ghost predicate Reasonable(handler: Event -> seq<Request>) {
    forall e :: Positive(handler(e))
  }

  lemma {:induction false} AskedPositive(due: seq<Event>, handler: Event -> seq<Request>)
    requires Reasonable(handler)
    ensures Positive(Asked(due, handler))
  {
    if due != [] {
      AskedPositive(due[1..], handler);
      assert Positive(handler(due[0]));
    }
  }

  /* k of the due events have fired, their handlers have run, and q is left. */
  ghost predicate Dispatched(q0: seq<Event>, now: nat, serial: nat, handler: Event -> seq<Request>,
                             k: nat, q: seq<Event>) {
    var due := Due(q0, now);
    && k <= |due|
    && Due(q, now) == due[k..]
    && Later(q, now) == Schedule(Later(q0, now), now, serial, Asked(due[..k], handler))
  }

  lemma {:induction false} AskedMore(a: seq<Event>, x: Event, handler: Event -> seq<Request>)
    ensures Asked(a + [x], handler) == Asked(a, handler) + handler(x)
  {
    if a == [] {
      assert Asked([x], handler) == handler(x) + Asked([], handler);
    } else {
      AskedMore(a[1..], x, handler);
      assert (a + [x])[1..] == a[1..] + [x];
    }
  }

  lemma DispatchStart(q0: seq<Event>, now: nat, serial: nat, handler: Event -> seq<Request>, due: seq<Event>)
    requires due == Due(q0, now)[..0]
    ensures Dispatched(q0, now, serial, handler, 0, q0)
    ensures IssuedBy(now, serial, Asked(due, handler)) == []
  {
  }

  lemma DispatchDone(q0: seq<Event>, now: nat, serial: nat, handler: Event -> seq<Request>, k: nat, q: seq<Event>)
    requires Dispatched(q0, now, serial, handler, k, q) && (q == [] || q[0].vtime > now)
    ensures k == |Due(q0, now)| && Due(q0, now)[..k] == Due(q0, now)
    ensures q == Schedule(Later(q0, now), now, serial, Asked(Due(q0, now), handler))
  {
    assert Due(q, now) == [] && Later(q, now) == q;
  }

  lemma DispatchNext(q0: seq<Event>, now: nat, serial: nat, handler: Event -> seq<Request>, k: nat, q: seq<Event>)
    requires Dispatched(q0, now, serial, handler, k, q) && q != [] && q[0].vtime <= now
    ensures k < |Due(q0, now)| && Due(q0, now)[k..] == [q[0]] + Due(q0, now)[k + 1..]
  {
    assert Due(q, now) == [q[0]] + Due(q[1..], now);
    assert Due(q0, now)[k..][0] == q[0];
  }

  lemma AffordsNext(free: nat, due: seq<Event>, handler: Event -> seq<Request>)
    ensures due == [] ==> Affords(free, due, handler)
    ensures due != [] ==>
              (Affords(free, due, handler) <==>
                 |handler(due[0])| <= free && Affords(free - |handler(due[0])| + 1, due[1..], handler))
  {
  }

  lemma DispatchStep(q0: seq<Event>, now: nat, serial: nat, handler: Event -> seq<Request>, k: nat, q: seq<Event>)
    requires Dispatched(q0, now, serial, handler, k, q) && q != [] && q[0].vtime <= now && Reasonable(handler)
    ensures k < |Due(q0, now)| && q[0] == Due(q0, now)[k]
    ensures Due(q0, now)[..k + 1] == Due(q0, now)[..k] + [q[0]]
    ensures Asked(Due(q0, now)[..k + 1], handler) == Asked(Due(q0, now)[..k], handler) + handler(q[0])
    ensures Dispatched(q0, now, serial, handler, k + 1,
                       Schedule(q[1..], now, serial + |Asked(Due(q0, now)[..k], handler)|, handler(q[0])))
  {
    hide Schedule, Asked;
    var due := Due(q0, now);
    var before := Asked(due[..k], handler);
    assert Due(q, now) == [q[0]] + Due(q[1..], now);
    assert due[k..][0] == q[0] && due[k..][1..] == due[k + 1..];
    assert due[..k + 1] == due[..k] + [q[0]];
    AskedMore(due[..k], q[0], handler);
    assert Later(q, now) == Later(q[1..], now);
    ScheduleLater(q[1..], now, serial + |before|, handler(q[0]));
    ScheduleMore(Later(q0, now), now, serial, before, handler(q[0]));
  }

  /* How far `vnsecs` is ahead of physical time, at most as far as it is ahead
     of virtual time. */
  function VAhead(vnow: nat, vnsecs: nat, physical: nat): (r: nat)
    requires vnow <= vnsecs
    ensures r <= vnsecs - vnow && r <= if vnsecs <= physical then 0 else vnsecs
    ensures vnsecs > physical ==> r + (if vnow > physical then vnow else physical) == vnsecs
  {
    if vnsecs <= physical then 0
    else if vnow <= physical then vnsecs - physical
    else vnsecs - vnow
  }

  /* For how long the idle loop sleeps before the queue q, when the physical time
     and the time a select takes are those of the round: to the next event, if that
     is no more than 10 ms ahead of real time, and never past it. */
  function SleepTime(q: seq<Event>, now: nat, r: Round): nat {
    if q == [] || q[0].vtime < now then r.selected
    else
      var ahead := VAhead(now, q[0].vtime, r.physical);
      if ahead <= MIN_SLEEP then q[0].vtime - now else if r.selected > ahead then ahead else r.selected
  }

  /* The idle loop waits in the select, and does not only look: nothing is pending,
     or what is pending is more than 10 ms ahead of real time. */
  predicate Timed(q: seq<Event>, now: nat, r: Round) {
    q == [] || (now <= q[0].vtime && VAhead(now, q[0].vtime, r.physical) > MIN_SLEEP)
  }

  /* How much later than the start of the round host input is scheduled: by the
     time the select took, which is only measured if it waits. */
  function SelectTime(q: seq<Event>, now: nat, r: Round): nat {
    if Timed(q, now, r) then r.selected else 0
  }

  /* No event of q is before h, unless it is after now. */
  ghost predicate NotBefore(q: seq<Event>, h: nat, now: nat) {
    forall i :: 0 <= i < |q| ==> q[i].vtime >= h || q[i].vtime > now
  }

  lemma {:induction false} ScheduleNotBefore(q: seq<Event>, now: nat, serial: nat, rs: seq<Request>, h: nat)
    requires NotBefore(q, h, now) && Positive(rs)
    ensures NotBefore(Schedule(q, now, serial, rs), h, now)
    decreases |rs|
  {
    if rs != [] {
      var e := Event(now + rs[0].nsecs + rs[0].jitter, serial, rs[0].call);
      var r := Insert(q, e);
      forall i | 0 <= i < |r|
        ensures r[i].vtime >= h || r[i].vtime > now
      {
        assert r[i] == e || r[i] in q;
      }
      ScheduleNotBefore(r, now, serial + 1, rs[1..], h);
    }
  }

  lemma EventsOfMore(now: nat, serial: nat, work: seq<Cycle>, n: nat)
    requires n < |work|
    ensures EventsOf(now, serial, work[..n + 1])
         == EventsOf(now, serial, work[..n])
          + IssuedBy(now + NSECS_PER_CLOCK * n, serial + |EventsOf(now, serial, work[..n])|, work[n].asked)
  {
    assert work[..n + 1][..n] == work[..n];
  }

  lemma {:induction false} EventsOfPrefix(now: nat, serial: nat, work: seq<Cycle>, n: nat)
    requires n <= |work|
    ensures |EventsOf(now, serial, work[..n])| <= |EventsOf(now, serial, work)|
    decreases |work| - n
  {
    if n < |work| {
      EventsOfMore(now, serial, work, n);
      EventsOfPrefix(now, serial, work, n + 1);
    } else {
      assert work[..n] == work;
    }
  }

  lemma NoneYet(q: seq<Event>, now: nat, serial: nat, rs: seq<Request>)
    requires rs == []
    ensures Schedule(q, now, serial, rs) == q && IssuedBy(now, serial, rs) == []
  {
  }

  lemma EmptyHistory()
    ensures Timely([], [], 0, []) && Due([], 0) == []
  {
  }

  lemma InsertHead(q: seq<Event>, e: Event)
    ensures var r := Insert(q, e);
            r != [] && r[0] == if q == [] || e.vtime < q[0].vtime then e else q[0]
  {
  }

  lemma OneMore(q: seq<Event>, now: nat, serial: nat, rs: seq<Request>, i: nat)
    requires i < |rs|
    ensures Schedule(q, now, serial, rs[..i + 1])
         == Insert(Schedule(q, now, serial, rs[..i]), Event(now + rs[i].nsecs + rs[i].jitter, serial + i, rs[i].call))
    ensures IssuedBy(now, serial, rs[..i + 1])
         == IssuedBy(now, serial, rs[..i]) + [Event(now + rs[i].nsecs + rs[i].jitter, serial + i, rs[i].call)]
  {
    assert rs[..i + 1] == rs[..i] + [rs[i]];
    IssuedByMore(now, serial, rs[..i], [rs[i]]);
    ScheduleMore(q, now, serial, rs[..i], [rs[i]]);
  }

  /* Everything at or after h; so it stays however far time goes. */
  lemma FromHead(q: seq<Event>, now: nat)
    requires Ordered(q) && q != []
    ensures NotBefore(q, q[0].vtime, now)
  {
    forall i | 0 <= i < |q|
      ensures q[i].vtime >= q[0].vtime
    {
      assert i > 0 ==> Before(q[0], q[i]);
    }
  }

  lemma LaterStill(fired: seq<Event>, pending: seq<Event>, now: nat, log: seq<Event>, later: nat)
    requires Timely(fired, pending, now, log) && now <= later
    ensures Timely(fired, pending, later, log)
  {
    forall i | 0 <= i < |fired|
      ensures fired[i].vtime <= later
    {
    }
  }

  ghost predicate KeepsBounds(q: seq<Event>, after: seq<Event>, now: nat) {
    forall h: nat :: NotBefore(q, h, now) ==> NotBefore(after, h, now)
  }

  lemma SomeRequests(fired: seq<Event>, pending: seq<Event>, now: nat, log: seq<Event>, rs: seq<Request>)
    requires Timely(fired, pending, now, log) && Positive(rs)
    ensures Timely(fired, Schedule(pending, now, |log|, rs), now + NSECS_PER_CLOCK, log + IssuedBy(now, |log|, rs))
    ensures KeepsBounds(pending, Schedule(pending, now, |log|, rs), now)
  {
    RequestsKeepHistory(fired, pending, now, log, rs);
    LaterStill(fired, Schedule(pending, now, |log|, rs), now, log + IssuedBy(now, |log|, rs), now + NSECS_PER_CLOCK);
    forall h | NotBefore(pending, h, now)
      ensures NotBefore(Schedule(pending, now, |log|, rs), h, now)
    {
      ScheduleNotBefore(pending, now, |log|, rs, h);
    }
  }

  /* An event is late by less than `slack` at time t, if at all. */
  ghost predicate LateBelow(q: seq<Event>, t: nat, slack: nat) {
    forall i :: 0 <= i < |q| ==> t < q[i].vtime + slack
  }

  lemma BoundByHead(q: seq<Event>, h: nat, last: nat, t: nat)
    requires NotBefore(q, h, last) && t < h + NSECS_PER_CLOCK && t == last + NSECS_PER_CLOCK
    ensures LateBelow(q, t, NSECS_PER_CLOCK)
  {
  }

  lemma BoundByTime(q: seq<Event>, start: nat, went: nat)
    requires NotBefore(q, start + 1, start) && went <= ROTOR
    ensures LateBelow(q, start + NSECS_PER_CLOCK * went, NSECS_PER_CLOCK * ROTOR)
  {
  }

  lemma NoneDueYet(fired: seq<Event>, q: seq<Event>, now: nat, log: seq<Event>)
    requires Timely(fired, q, now, log) && Due(q, now) == []
    ensures NotBefore(q, now + 1, now) && (q != [] ==> q[0].vtime > now)
  {
    TimelyIssued(fired, q, now, log);
    if q != [] {
      FromHead(q, now);
    }
  }

  /* Host input, scheduled at the time `at` of the select's return while virtual
     time still stands at `now`. */
  lemma PollingKeepsOrder(fired: seq<Event>, q: seq<Event>, now: nat, log: seq<Event>, at: nat, rs: seq<Request>)
    requires Timely(fired, q, now, log) && Due(q, now) == [] && Positive(rs) && now <= at
    ensures var after := Schedule(q, at, |log|, rs);
            && Timely(fired, after, now, log + IssuedBy(at, |log|, rs))
            && Due(after, now) == [] && NotBefore(after, now + 1, now) && KeepsBounds(q, after, at)
  {
    hide Schedule, IssuedBy;
    NoneDueYet(fired, q, now, log);
    LaterStill(fired, q, now, log, at);
    RequestsKeepHistory(fired, q, at, log, rs);
    EarlierStill(fired, q, now, log, Schedule(q, at, |log|, rs), at, log + IssuedBy(at, |log|, rs));
    forall h | NotBefore(q, h, at)
      ensures NotBefore(Schedule(q, at, |log|, rs), h, at)
    {
      ScheduleNotBefore(q, at, |log|, rs, h);
    }
    assert NotBefore(q, now + 1, at);
  }

  /* When something has fired does not change with what is scheduled later. */
  lemma EarlierStill(fired: seq<Event>, q: seq<Event>, now: nat, log: seq<Event>,
                     after: seq<Event>, at: nat, newLog: seq<Event>)
    requires Timely(fired, q, now, log) && Timely(fired, after, at, newLog)
    ensures Timely(fired, after, now, newLog)
  {
  }

  /* The events added to `fired` since it was `before`: none early, none later
     than its time by `slack` or more. */
  ghost predicate FiredInTime(before: seq<Event>, fired: seq<Event>, now: nat, slack: nat) {
    && |before| <= |fired| && fired[..|before|] == before
    && forall i :: |before| <= i < |fired| ==> fired[i].vtime <= now < fired[i].vtime + slack
  }

  lemma DueInTime(fired: seq<Event>, q: seq<Event>, now: nat, slack: nat)
    requires LateBelow(q, now, slack)
    ensures FiredInTime(fired, fired + Due(q, now), now, slack)
  {
    forall i | 0 <= i < |Due(q, now)|
      ensures Due(q, now)[i].vtime <= now < Due(q, now)[i].vtime + slack
    {
      DueByNow(q, now, i);
      assert Due(q, now)[i] == q[i];
    }
  }

  /* How late an event fired by a pass that starts with the queue q can be. */
  function Slack(q: seq<Event>, now: nat): nat {
    if InReach(q, now) then NSECS_PER_CLOCK else NSECS_PER_CLOCK * ROTOR
  }

  /* There is an event near enough for the processors to be run to it. */
  predicate InReach(q: seq<Event>, now: nat) {
    q != [] && q[0].vtime < now + NSECS_PER_CLOCK * MAXRUN
  }

  /* When an event was fired: the pass or idle round began at `start` with
     `issued` events scheduled so far, perhaps with one in reach, or waiting in the
     select, and ended at `end`, when the event fired. */
  datatype Stamp = Stamp(start: nat, end: nat, issued: nat, inReach: bool, idle: bool, timed: bool)

  /* Not early; within the pass; and by less than a clock period late if the
     event was already pending when the pass or round began, or if the processors
     were run to an event, or if the round waited. */
  ghost predicate Punctual(e: Event, s: Stamp) {
    && s.start < e.vtime <= s.end
    && (e.serial < s.issued || s.inReach || s.timed ==> s.end < e.vtime + NSECS_PER_CLOCK)
    && (!s.idle ==> s.end <= s.start + NSECS_PER_CLOCK * ROTOR)
  }

  /* Fired with this stamp, all that is due at its end is punctual. */
  ghost predicate DuePunctual(q: seq<Event>, s: Stamp) {
    forall i :: 0 <= i < |Due(q, s.end)| ==> Punctual(Due(q, s.end)[i], s)
  }

  /* A pending event with an early number and a time still to come was pending
     all along. */
  lemma WasPending(fired: seq<Event>, q0: seq<Event>, start: nat, log0: seq<Event>,
                   q: seq<Event>, end: nat, log: seq<Event>, i: nat)
    requires Timely(fired, q0, start, log0) && Timely(fired, q, end, log) && log0 <= log
    requires i < |q| && q[i].serial < |log0| && q[i].vtime > start
    ensures q[i] in q0 && q0 != [] && q0[0].vtime <= q[i].vtime
  {
    var e := q[i];
    assert (fired + q)[|fired| + i] == e;
    assert e in multiset(fired + q) && e in multiset(log);
    assert e == log[e.serial] == log0[e.serial];
    assert e in multiset(log0) && e in multiset(fired + q0);
    assert e in q0;
    TimelyIssued(fired, q0, start, log0);
    FromHead(q0, start);
  }

  /** Everything a pass fires is punctual. */
  lemma PassPunctual(fired: seq<Event>, q0: seq<Event>, start: nat, log0: seq<Event>,
                     q: seq<Event>, end: nat, log: seq<Event>)
    requires Timely(fired, q0, start, log0) && Timely(fired, q, end, log) && log0 <= log
    requires NotBefore(q, start + 1, start) && LateBelow(q, end, Slack(q0, start))
    requires end <= start + NSECS_PER_CLOCK * ROTOR
    ensures DuePunctual(q, Stamp(start, end, |log0|, InReach(q0, start), false, false))
  {
    hide Timely;
    forall i | 0 <= i < |Due(q, end)|
      ensures Punctual(Due(q, end)[i], Stamp(start, end, |log0|, InReach(q0, start), false, false))
    {
      DueByNow(q, end, i);
      assert Due(q, end)[i] == q[i];
      if q[i].serial < |log0| {
        WasPending(fired, q0, start, log0, q, end, log, i);
      }
    }
  }

  /** And so is everything that fires while no processor runs: after a select that
      waited, host input too. */
  lemma WaitPunctual(fired: seq<Event>, q0: seq<Event>, start: nat, log0: seq<Event>,
                     q: seq<Event>, end: nat, log: seq<Event>, at: nat, timed: bool)
    requires Timely(fired, q0, start, log0) && Timely(fired, q, end, log) && log0 <= log
    requires NotBefore(q, start + 1, start) && KeepsBounds(q0, q, at)
    requires q0 != [] ==> end < q0[0].vtime + NSECS_PER_CLOCK
    requires timed ==> end < at + NSECS_PER_CLOCK
    ensures DuePunctual(q, Stamp(start, end, |log0|, false, true, timed))
  {
    hide Timely;
    var h := if q0 == [] then end + 1 else q0[0].vtime;
    TimelyIssued(fired, q0, start, log0);
    if q0 != [] {
      FromHead(q0, at);
    }
    assert NotBefore(q, h, at);
    forall i | 0 <= i < |Due(q, end)|
      ensures Punctual(Due(q, end)[i], Stamp(start, end, |log0|, false, true, timed))
    {
      DueByNow(q, end, i);
      assert Due(q, end)[i] == q[i];
      if q[i].serial < |log0| {
        WasPending(fired, q0, start, log0, q, end, log, i);
      }
    }
  }

  /* Where the processors stand while they run to an event at h: still running
     to it, or stopped in the last cycle by something that asked for earlier. */
  ghost predicate OnCourse(q: seq<Event>, h: nat, now: nat, cycling: bool, running: bool) {
    if cycling then running && q != [] && q[0].vtime == h
    else now >= NSECS_PER_CLOCK && NotBefore(q, h, now - NSECS_PER_CLOCK)
  }

  lemma StaysOnCourse(q: seq<Event>, after: seq<Event>, h: nat, now: nat, cycling: bool, running: bool)
    requires OnCourse(q, h, now, true, true) && Ordered(q)
    requires KeepsBounds(q, after, now)
    requires cycling ==> running && after != [] && after[0] == q[0]
    ensures OnCourse(after, h, now + NSECS_PER_CLOCK, cycling, running)
  {
    FromHead(q, now);
  }

  lemma CourseKept(q: seq<Event>, h: nat, now: nat, cycling: bool, running: bool, end: nat)
    requires OnCourse(q, h, now, cycling, running) && Ordered(q) && end < h + NSECS_PER_CLOCK
    requires if cycling then true else end == now
    ensures LateBelow(q, end, NSECS_PER_CLOCK)
  {
    if cycling {
      FromHead(q, end);
    } else {
      BoundByHead(q, h, now - NSECS_PER_CLOCK, end);
    }
  }

  /* The state of a run of the processors that started at `start` with the log
     at log0 and has executed `ran` cycles; `toward` says that it was to run to
     an event at h. */
  ghost predicate Partway(fired: seq<Event>, q: seq<Event>, log: seq<Event>, log0: seq<Event>, work: seq<Cycle>,
                          h: nat, start: nat, ran: nat, toward: bool, cycling: bool, running: bool) {
    var now := start + NSECS_PER_CLOCK * ran;
    && ran <= |work|
    && log == log0 + EventsOf(start, |log0|, work[..ran])
    && Timely(fired, q, now, log)
    && NotBefore(q, start + 1, start)
    && (toward ==> OnCourse(q, h, now, cycling, running))
  }

  lemma StartRun(fired: seq<Event>, q: seq<Event>, log: seq<Event>, work: seq<Cycle>,
                 h: nat, start: nat, running: bool)
    requires Timely(fired, q, start, log) && NotBefore(q, start + 1, start)
    requires running ==> q != [] && q[0].vtime == h
    ensures Partway(fired, q, log, log, work, h, start, 0, running, true, running)
  {
    assert work[..0] == [] && log + [] == log;
  }

  lemma AfterCycle(fired: seq<Event>, q: seq<Event>, log: seq<Event>, log0: seq<Event>, work: seq<Cycle>, h: nat,
                   start: nat, ran: nat, toward: bool, wasRunning: bool,
                   after: seq<Event>, newLog: seq<Event>, cycling: bool, running: bool)
    requires Partway(fired, q, log, log0, work, h, start, ran, toward, true, wasRunning) && ran < |work|
    requires newLog == log + IssuedBy(start + NSECS_PER_CLOCK * ran, |log|, work[ran].asked)
    requires Timely(fired, after, start + NSECS_PER_CLOCK * (ran + 1), newLog)
    requires KeepsBounds(q, after, start + NSECS_PER_CLOCK * ran)
    requires wasRunning && cycling ==> running && q != [] && after != [] && after[0] == q[0]
    ensures Partway(fired, after, newLog, log0, work, h, start, ran + 1, toward, cycling, running)
  {
    hide IssuedBy, EventsOf, Timely;
    var now := start + NSECS_PER_CLOCK * ran;
    assert NotBefore(q, start + 1, now);
    EventsOfMore(start, |log0|, work, ran);
    if toward {
      TimelyIssued(fired, q, now, log);
      StaysOnCourse(q, after, h, now, cycling, running);
    }
  }

  lemma EndRun(fired: seq<Event>, q: seq<Event>, log: seq<Event>, log0: seq<Event>, work: seq<Cycle>, h: nat,
               start: nat, ran: nat, went: nat, max: nat, toward: bool, cycling: bool, running: bool)
    requires ran <= went <= max && (ran < went ==> cycling)
    requires Partway(fired, q, log, log0, work, h, start, ran, toward, cycling, running)
    ensures log == log0 + EventsOf(start, |log0|, work[..ran]) && NotBefore(q, start + 1, start)
    ensures Timely(fired, q, start + NSECS_PER_CLOCK * went, log)
    ensures toward && start + NSECS_PER_CLOCK * max < h + NSECS_PER_CLOCK ==>
              LateBelow(q, start + NSECS_PER_CLOCK * went, NSECS_PER_CLOCK)
  {
    var now, end := start + NSECS_PER_CLOCK * ran, start + NSECS_PER_CLOCK * went;
    LaterStill(fired, q, now, log, end);
    TimelyIssued(fired, q, now, log);
    if toward && start + NSECS_PER_CLOCK * max < h + NSECS_PER_CLOCK {
      CourseKept(q, h, now, cycling, running, end);
    }
  }

  ghost predicate PositiveWork(work: seq<Cycle>) {
    forall i :: 0 <= i < |work| ==> Positive(work[i].asked)
  }

  /* One trip round the idle loop: the physical time, how long the select took if
     it waited, and the events that host input schedules when it returns. */
  datatype Round = Round(physical: nat, selected: nat, host: seq<Request>)

  /* One trip round the main loop: the cycles the processors would run, the
     events from polling the host, and the idle rounds after it. */
  datatype Pass = Pass(work: seq<Cycle>, host: seq<Request>, rounds: seq<Round>)

  ghost predicate PositiveRounds(rounds: seq<Round>) {
    forall i :: 0 <= i < |rounds| ==> Positive(rounds[i].host)
  }

  // ------------------------------------------------------------------
  // What a pass and a round come to, and how many nodes they need

  /* clock_getrunticks. */
  function TicksTo(q: seq<Event>, now: nat): (r: nat)
    ensures r <= MAXRUN
  {
    if q == [] then MAXRUN
    else if q[0].vtime <= now then 0
    else if InReach(q, now) then (q[0].vtime - now + NSECS_PER_CLOCK - 1) / NSECS_PER_CLOCK
    else MAXRUN
  }

  /* How many cycles were executed and how many are reported, and the queue they left. */
  datatype Progress = Progress(ran: nat, went: nat, pending: seq<Event>)

  /* Cycles i up to max of a run that started at `now`, perhaps running to the head
     of the queue: until something is put ahead of it, or every processor is idle. */
  function Cycles(q: seq<Event>, running: bool, now: nat, serial: nat, work: seq<Cycle>, i: nat, max: nat): (r: Progress)
    requires i <= max <= |work|
    ensures i <= r.ran <= r.went <= max && (i < max ==> i < r.ran)
    decreases max - i
  {
    if i == max then Progress(i, i, q)
    else
      var after := Schedule(q, now + NSECS_PER_CLOCK * i, serial, work[i].asked);
      if running && q != [] && after != [] && after[0].vtime < q[0].vtime then Progress(i + 1, i + 1, after)
      else if work[i].idle then Progress(i + 1, max, after)
      else Cycles(after, running, now, serial + |work[i].asked|, work, i + 1, max)
  }

  /* A run of the cycles that is to come to c: stopped after `ran` of them, or done
     because every processor is idle, or still going on. */
  ghost predicate Tracks(c: Progress, q: seq<Event>, toward: bool, now: nat, serial: nat, work: seq<Cycle>,
                         ran: nat, went: nat, max: nat, cycling: bool) {
    && ran <= went <= max <= |work|
    && c == if !cycling then Progress(ran, ran, q)
            else if ran < went then Progress(ran, max, q)
            else Cycles(q, toward, now, serial, work, ran, max)
  }

  lemma TracksOn(c: Progress, q: seq<Event>, toward: bool, now: nat, serial: nat, work: seq<Cycle>, ran: nat, max: nat,
                 after: seq<Event>, cycling: bool)
    requires Tracks(c, q, toward, now, serial, work, ran, ran, max, true) && ran < max
    requires after == Schedule(q, now + NSECS_PER_CLOCK * ran, serial, work[ran].asked)
    requires toward ==> q != [] && after != []
    requires cycling == !(toward && after[0].vtime < q[0].vtime)
    ensures Tracks(c, after, toward, now, serial + |work[ran].asked|, work, ran + 1,
                   if work[ran].idle && cycling then max else ran + 1, max, cycling)
    ensures ran < c.ran <= max
  {
    hide Schedule;
  }

  lemma TracksStart(c: Progress, q: seq<Event>, toward: bool, now: nat, serial: nat, work: seq<Cycle>, max: nat)
    requires max <= |work| && c == Cycles(q, toward, now, serial, work, 0, max)
    ensures Tracks(c, q, toward, now, serial, work, 0, 0, max, true)
  {
    hide Cycles;
  }

  /* It comes to at least one cycle more. */
  lemma TracksSome(c: Progress, q: seq<Event>, toward: bool, now: nat, serial: nat, work: seq<Cycle>, ran: nat, max: nat)
    requires Tracks(c, q, toward, now, serial, work, ran, ran, max, true) && ran < max
    ensures ran < c.ran <= max
  {
    hide Cycles;
  }

  lemma TracksEnd(c: Progress, q: seq<Event>, toward: bool, now: nat, serial: nat, work: seq<Cycle>,
                  ran: nat, went: nat, max: nat, cycling: bool)
    requires Tracks(c, q, toward, now, serial, work, ran, went, max, cycling) && (went == max || !cycling)
    requires !cycling ==> went == ran
    ensures c == Progress(ran, went, q)
  {
  }

  /* Everything that is due fires, and the handlers ask for what they like. */
  function FiredAt(fired: seq<Event>, q: seq<Event>, log: seq<Event>, now: nat, slop: nat,
                   handler: Event -> seq<Request>): (r: Mark)
    ensures r.now == now && r.slop == slop && r.fired == fired + Due(q, now)
  {
    var calls := Asked(Due(q, now), handler);
    Mark(now, slop, fired + Due(q, now), Schedule(Later(q, now), now, |log|, calls), Issuing(log, now, calls))
  }

  function Polled(m: Mark, at: nat, host: seq<Request>): Mark {
    m.(pending := Schedule(m.pending, at, |m.log|, host), log := Issuing(m.log, at, host))
  }

  function PassCycles(a: Mark, rotor: nat, work: seq<Cycle>): Progress
    requires |work| >= MAXRUN
  {
    var ticks := TicksTo(a.pending, a.now);
    Cycles(a.pending, InReach(a.pending, a.now), a.now, |a.log|, work, 0, if ticks > rotor then rotor else ticks)
  }

  function PassFiring(a: Mark, rotor: nat, pass: Pass, handler: Event -> seq<Request>): Mark
    requires |pass.work| >= MAXRUN
  {
    var c := PassCycles(a, rotor, pass.work);
    FiredAt(a.fired, c.pending, a.log + EventsOf(a.now, |a.log|, pass.work[..c.ran]),
            a.now + NSECS_PER_CLOCK * c.went, a.slop, handler)
  }

  function PassEnd(a: Mark, rotor: nat, pass: Pass, handler: Event -> seq<Request>): Mark
    requires |pass.work| >= MAXRUN
  {
    var mid := PassFiring(a, rotor, pass, handler);
    if PassCycles(a, rotor, pass.work).went < rotor then mid else Polled(mid, mid.now, pass.host)
  }

  function RoundEnd(a: Mark, r: Round, handler: Event -> seq<Request>): Mark {
    var p := Polled(a, a.now + SelectTime(a.pending, a.now, r), r.host);
    var time := SleepTime(a.pending, a.now, r) + a.slop;
    FiredAt(a.fired, p.pending, p.log, a.now + time, time % NSECS_PER_CLOCK, handler)
  }

  /* With so many nodes free these events can fire one after the other: what each
     handler asks for needs nodes before its own event gives one back. */
  predicate Affords(free: nat, due: seq<Event>, handler: Event -> seq<Request>)
    decreases |due|
  {
    due == [] || (|handler(due[0])| <= free && Affords(free - |handler(due[0])| + 1, due[1..], handler))
  }

  function Free(q: seq<Event>): nat {
    if |q| <= MAXACTIONS then MAXACTIONS - |q| else 0
  }

  /* The pass, and the round, never have more events outstanding than there are nodes. */
  predicate FiringFits(a: Mark, rotor: nat, pass: Pass, handler: Event -> seq<Request>)
    requires |pass.work| >= MAXRUN
  {
    var c := PassCycles(a, rotor, pass.work);
    && |EventsOf(a.now, |a.log|, pass.work[..c.ran])| <= Free(a.pending)
    && Affords(Free(c.pending), Due(c.pending, a.now + NSECS_PER_CLOCK * c.went), handler)
  }

  predicate PassFits(a: Mark, rotor: nat, pass: Pass, handler: Event -> seq<Request>)
    requires |pass.work| >= MAXRUN
  {
    && FiringFits(a, rotor, pass, handler)
    && (PassCycles(a, rotor, pass.work).went < rotor || |pass.host| <= Free(PassFiring(a, rotor, pass, handler).pending))
  }

  predicate RoundFits(a: Mark, r: Round, handler: Event -> seq<Request>) {
    var p := Polled(a, a.now + SelectTime(a.pending, a.now, r), r.host);
    && |r.host| <= Free(a.pending)
    && Affords(Free(p.pending), Due(p.pending, a.now + SleepTime(a.pending, a.now, r) + a.slop), handler)
  }

  function RoundsEnd(a: Mark, rounds: seq<Round>, handler: Event -> seq<Request>): Mark {
    if rounds == [] then a
    else RoundEnd(RoundsEnd(a, rounds[..|rounds| - 1], handler), rounds[|rounds| - 1], handler)
  }

  predicate RoundsFit(a: Mark, rounds: seq<Round>, handler: Event -> seq<Request>) {
    rounds == []
    || (&& RoundsFit(a, rounds[..|rounds| - 1], handler)
        && RoundFits(RoundsEnd(a, rounds[..|rounds| - 1], handler), rounds[|rounds| - 1], handler))
  }

  lemma RoundsMore(a: Mark, rounds: seq<Round>, i: nat, handler: Event -> seq<Request>)
    requires i < |rounds|
    ensures RoundsEnd(a, rounds[..i + 1], handler) == RoundEnd(RoundsEnd(a, rounds[..i], handler), rounds[i], handler)
    ensures RoundsFit(a, rounds[..i + 1], handler)
       <==> RoundsFit(a, rounds[..i], handler) && RoundFits(RoundsEnd(a, rounds[..i], handler), rounds[i], handler)
  {
    hide RoundEnd, RoundFits;
    assert rounds[..i + 1][..i] == rounds[..i];
  }

  lemma {:induction false} RoundsUnfit(a: Mark, rounds: seq<Round>, i: nat, handler: Event -> seq<Request>)
    requires i <= |rounds| && !RoundsFit(a, rounds[..i], handler)
    ensures !RoundsFit(a, rounds, handler)
    decreases |rounds| - i
  {
    hide RoundsFit;
    if i < |rounds| {
      RoundsMore(a, rounds, i, handler);
      RoundsUnfit(a, rounds, i + 1, handler);
    } else {
      assert rounds[..i] == rounds;
    }
  }

  lemma NoRounds(a: Mark, rounds: seq<Round>, handler: Event -> seq<Request>)
    requires rounds == []
    ensures RoundsEnd(a, rounds, handler) == a && RoundsFit(a, rounds, handler)
  {
  }

  ghost predicate EnoughWork(passes: seq<Pass>) {
    forall i :: 0 <= i < |passes| ==> |passes[i].work| >= MAXRUN
  }

  function NextRotor(rotor: nat, went: nat): nat {
    if went < rotor then rotor - went else ROTOR
  }

  /* Where the main loop is after these passes, with its rotor. */
  ghost function LoopEnd(a: Mark, passes: seq<Pass>, handler: Event -> seq<Request>): (Mark, nat)
    requires EnoughWork(passes)
  {
    if passes == [] then (a, ROTOR)
    else
      var n := |passes| - 1;
      var (b, rotor) := LoopEnd(a, passes[..n], handler);
      (RoundsEnd(PassEnd(b, rotor, passes[n], handler), passes[n].rounds, handler),
       NextRotor(rotor, PassCycles(b, rotor, passes[n].work).went))
  }

  ghost predicate LoopFits(a: Mark, passes: seq<Pass>, handler: Event -> seq<Request>)
    requires EnoughWork(passes)
  {
    passes == []
    || (var n := |passes| - 1;
        var (b, rotor) := LoopEnd(a, passes[..n], handler);
        && LoopFits(a, passes[..n], handler)
        && PassFits(b, rotor, passes[n], handler)
        && RoundsFit(PassEnd(b, rotor, passes[n], handler), passes[n].rounds, handler))
  }

  lemma NoPasses(a: Mark, passes: seq<Pass>, handler: Event -> seq<Request>)
    requires passes == []
    ensures LoopEnd(a, passes, handler) == (a, ROTOR) && LoopFits(a, passes, handler)
  {
  }

  lemma LoopMore(a: Mark, passes: seq<Pass>, i: nat, handler: Event -> seq<Request>)
    requires EnoughWork(passes) && i < |passes|
    ensures var (b, rotor) := LoopEnd(a, passes[..i], handler);
            var mid := PassEnd(b, rotor, passes[i], handler);
            && LoopEnd(a, passes[..i + 1], handler)
               == (RoundsEnd(mid, passes[i].rounds, handler),
                   NextRotor(rotor, PassCycles(b, rotor, passes[i].work).went))
            && (LoopFits(a, passes[..i + 1], handler) <==>
                  && LoopFits(a, passes[..i], handler)
                  && PassFits(b, rotor, passes[i], handler)
                  && RoundsFit(mid, passes[i].rounds, handler))
  {
    hide PassEnd, PassFits, RoundsFit, RoundsEnd, PassCycles;
    assert passes[..i + 1][..i] == passes[..i];
  }

  lemma {:induction false} LoopUnfit(a: Mark, passes: seq<Pass>, i: nat, handler: Event -> seq<Request>)
    requires EnoughWork(passes) && i <= |passes| && !LoopFits(a, passes[..i], handler)
    ensures !LoopFits(a, passes, handler)
    decreases |passes| - i
  {
    hide LoopFits, LoopEnd, PassEnd, PassFits, RoundsFit, RoundsEnd, PassCycles;
    if i < |passes| {
      LoopMore(a, passes, i, handler);
      LoopUnfit(a, passes, i + 1, handler);
    } else {
      assert passes[..i] == passes;
    }
  }

  // ------------------------------------------------------------------
  // The course of a run

  /* The history at a moment between two windows, with the slop of the idle loop. */
  datatype Mark = Mark(now: nat, slop: nat, fired: seq<Event>, pending: seq<Event>, log: seq<Event>)

  ghost predicate Whole(a: Mark) {
    Timely(a.fired, a.pending, a.now, a.log) && Due(a.pending, a.now) == []
  }

  /* A window of virtual time at the end of which events are fired: a pass, in
     which `ran` cycles were executed and `went` reported, or an idle round. */
  datatype Window =
    | Ran(pass: Pass, rotor: nat, ran: nat, went: nat)
    | Waited(round: Round)

  function Issuing(log: seq<Event>, now: nat, rs: seq<Request>): seq<Event> {
    log + IssuedBy(now, |log|, rs)
  }

  /* The window that an event fired between these marks was fired in. */
  function StampOf(a: Mark, w: Window, b: Mark): Stamp {
    Stamp(a.now, b.now, |a.log|, w.Ran? && InReach(a.pending, a.now),
          w.Waited?, w.Waited? && Timed(a.pending, a.now, w.round))
  }

  ghost predicate OnTime(a: Mark, w: Window, b: Mark) {
    forall i :: |a.fired| <= i < |b.fired| ==> Punctual(b.fired[i], StampOf(a, w, b))
  }

  /* From one mark to the next. Everything scheduled is accounted for: what the
     processors asked for, cycle by cycle, what the handlers of the events fired at
     the end asked for, and host input; and so is how far time went. */
  ghost predicate Through(a: Mark, w: Window, b: Mark, handler: Event -> seq<Request>) {
    && Whole(a) && Whole(b) && a.fired <= b.fired && OnTime(a, w, b)
    && var calls := Asked(b.fired[|a.fired|..], handler);
       match w
       case Ran(pass, rotor, ran, went) =>
         && 0 < ran <= went <= rotor <= ROTOR && ran <= |pass.work| && (ran < went ==> pass.work[ran - 1].idle)
         && (!InReach(a.pending, a.now) ==> went == rotor)
         && (InReach(a.pending, a.now) ==> a.now + NSECS_PER_CLOCK * went < a.pending[0].vtime + NSECS_PER_CLOCK)
         && b.now == a.now + NSECS_PER_CLOCK * went && b.slop == a.slop
         && var log := Issuing(a.log + EventsOf(a.now, |a.log|, pass.work[..ran]), b.now, calls);
            b.log == if went == rotor then Issuing(log, b.now, pass.host) else log
       case Waited(round) =>
         && var slept := SleepTime(a.pending, a.now, round);
            && b.now == a.now + slept + a.slop && b.slop == (slept + a.slop) % NSECS_PER_CLOCK
            && b.log == Issuing(Issuing(a.log, a.now + SelectTime(a.pending, a.now, round), round.host), b.now, calls)
  }

  /* The windows tile the time from the first mark to the last. */
  ghost predicate Course(marks: seq<Mark>, windows: seq<Window>, handler: Event -> seq<Request>) {
    && |marks| == |windows| + 1
    && forall k :: 0 <= k < |windows| ==> Through(marks[k], windows[k], marks[k + 1], handler)
  }

  lemma CourseStart(a: Mark, handler: Event -> seq<Request>)
    ensures Course([a], [], handler)
  {
  }

  lemma CourseMore(marks: seq<Mark>, windows: seq<Window>, handler: Event -> seq<Request>, w: Window, b: Mark)
    requires Course(marks, windows, handler) && Through(marks[|windows|], w, b, handler)
    ensures Course(marks + [b], windows + [w], handler)
  {
    hide Through;
  }

  lemma CourseJoin(marks: seq<Mark>, windows: seq<Window>, handler: Event -> seq<Request>,
                   more: seq<Mark>, after: seq<Window>)
    requires Course(marks, windows, handler) && Course(more, after, handler) && marks[|windows|] == more[0]
    ensures Course(marks[..|windows|] + more, windows + after, handler)
  {
    hide Through;
    var all, ws := marks[..|windows|] + more, windows + after;
    forall k | 0 <= k < |ws|
      ensures Through(all[k], ws[k], all[k + 1], handler)
    {
      if k >= |windows| {
        assert all[k] == more[k - |windows|] && all[k + 1] == more[k - |windows| + 1] && ws[k] == after[k - |windows|];
      } else {
        assert all[k] == marks[k] && all[k + 1] == marks[k + 1];
      }
    }
  }

  /* The rotor with which the pass after these windows begins. */
  function RotorAfter(windows: seq<Window>): nat {
    if windows == [] then ROTOR
    else
      var n := |windows| - 1;
      match windows[n]
      case Ran(_, rotor, _, went) => NextRotor(rotor, went)
      case Waited(_) => RotorAfter(windows[..n])
  }

  ghost predicate Rotated(windows: seq<Window>) {
    forall k :: 0 <= k < |windows| && windows[k].Ran? ==> windows[k].rotor == RotorAfter(windows[..k])
  }

  lemma RotatedMore(windows: seq<Window>, w: Window)
    requires Rotated(windows) && (w.Ran? ==> w.rotor == RotorAfter(windows))
    ensures Rotated(windows + [w])
    ensures RotorAfter(windows + [w])
         == match w
            case Ran(_, rotor, _, went) => NextRotor(rotor, went)
            case Waited(_) => RotorAfter(windows)
  {
    var all := windows + [w];
    assert all[..|windows|] == windows;
    forall k | 0 <= k < |all| && all[k].Ran?
      ensures all[k].rotor == RotorAfter(all[..k])
    {
      assert k < |windows| ==> all[..k] == windows[..k];
    }
  }

  /* The windows are those of these passes and rounds. */
  predicate Waits(windows: seq<Window>, rounds: seq<Round>) {
    |windows| == |rounds| && forall i :: 0 <= i < |rounds| ==> windows[i] == Waited(rounds[i])
  }

  ghost predicate Enacts(windows: seq<Window>, passes: seq<Pass>) {
    if passes == [] then windows == []
    else
      var n := |passes| - 1;
      var m := |windows| - 1 - |passes[n].rounds|;
      && 0 <= m && Enacts(windows[..m], passes[..n])
      && windows[m].Ran? && windows[m].pass == passes[n] && Waits(windows[m + 1..], passes[n].rounds)
  }

  lemma EnactsMore(windows: seq<Window>, passes: seq<Pass>, i: nat, w: Window, idle: seq<Window>)
    requires i < |passes| && Enacts(windows, passes[..i])
    requires w.Ran? && w.pass == passes[i] && Waits(idle, passes[i].rounds)
    ensures Enacts(windows + [w] + idle, passes[..i + 1])
  {
    var all := windows + [w] + idle;
    assert passes[..i + 1][..i] == passes[..i];
    assert all[..|windows|] == windows && all[|windows| + 1..] == idle;
  }

  lemma NothingEnacted(passes: seq<Pass>)
    requires passes == []
    ensures Enacts([], passes) && Rotated([]) && RotorAfter([]) == ROTOR
  {
  }

  lemma {:induction false} RoundsKeepRotor(windows: seq<Window>, idle: seq<Window>)
    requires Rotated(windows) && forall i :: 0 <= i < |idle| ==> idle[i].Waited?
    ensures Rotated(windows + idle) && RotorAfter(windows + idle) == RotorAfter(windows)
    decreases |idle|
  {
    if idle == [] {
      assert windows + idle == windows;
    } else {
      var n := |idle| - 1;
      RoundsKeepRotor(windows, idle[..n]);
      RotatedMore(windows + idle[..n], idle[n]);
      assert windows + idle == windows + idle[..n] + [idle[n]];
    }
  }

  /* A pass and the idle rounds after it, added to the course. */
  lemma PassAndRounds(marks: seq<Mark>, windows: seq<Window>, w: Window, at: Mark, between: seq<Mark>, idle: seq<Window>,
                      handler: Event -> seq<Request>, passes: seq<Pass>, i: nat)
    requires Course(marks, windows, handler) && Through(marks[|windows|], w, at, handler)
    requires Course(between, idle, handler) && between[0] == at
    requires i < |passes| && Enacts(windows, passes[..i]) && Waits(idle, passes[i].rounds)
    requires w.Ran? && w.pass == passes[i] && w.rotor == RotorAfter(windows) && Rotated(windows)
    ensures Course(marks + between, windows + [w] + idle, handler)
    ensures Enacts(windows + [w] + idle, passes[..i + 1])
    ensures Rotated(windows + [w] + idle)
    ensures RotorAfter(windows + [w] + idle) == NextRotor(w.rotor, w.went)
    ensures |between| == |idle| + 1
  {
    hide Through, Rotated, RotorAfter, Enacts;
    CourseMore(marks, windows, handler, w, at);
    CourseJoin(marks + [at], windows + [w], handler, between, idle);
    assert (marks + [at])[..|windows| + 1] == marks;
    EnactsMore(windows, passes, i, w, idle);
    RotatedMore(windows, w);
    RoundsKeepRotor(windows + [w], idle);
  }

  /* What is still run to stays in reach as time goes on, and when less urgent
     things are scheduled. */
  lemma StillInReach(q: seq<Event>, now: nat, later: nat)
    requires now <= later
    ensures InReach(q, now) ==> InReach(q, later)
  {
  }

  lemma HeadInReach(q: seq<Event>, after: seq<Event>, now: nat)
    ensures InReach(q, now) ==> q != []
    ensures InReach(q, now) && q != [] && after != [] && after[0] == q[0] ==> InReach(after, now)
  {
  }

  /* A pass up to the firing of what has come due: the processors left the queue q
     and the log so far, and `mid` is after the dispatch. */
  ghost predicate PassFired(a: Mark, pass: Pass, rotor: nat, ran: nat, went: nat, q: seq<Event>, log: seq<Event>,
                            mid: Mark, handler: Event -> seq<Request>) {
    && Whole(a) && Whole(mid) && mid.slop == a.slop && mid.now == a.now + NSECS_PER_CLOCK * went
    && 0 < ran <= went <= rotor <= ROTOR && ran <= |pass.work| && (ran < went ==> pass.work[ran - 1].idle)
    && (!InReach(a.pending, a.now) ==> went == rotor)
    && (InReach(a.pending, a.now) ==> mid.now < a.pending[0].vtime + NSECS_PER_CLOCK)
    && log == a.log + EventsOf(a.now, |a.log|, pass.work[..ran]) && Timely(a.fired, q, mid.now, log)
    && NotBefore(q, a.now + 1, a.now) && LateBelow(q, mid.now, Slack(a.pending, a.now))
    && mid == FiredAt(a.fired, q, log, mid.now, mid.slop, handler)
  }

  lemma PassThrough(a: Mark, pass: Pass, rotor: nat, ran: nat, went: nat, q: seq<Event>, log: seq<Event>,
                    mid: Mark, b: Mark, handler: Event -> seq<Request>)
    requires PassFired(a, pass, rotor, ran, went, q, log, mid, handler)
    requires Whole(b) && b == mid.(pending := b.pending, log := b.log)
    requires b.log == if went == rotor then Issuing(mid.log, mid.now, pass.host) else mid.log
    ensures Through(a, Ran(pass, rotor, ran, went), b, handler)
  {
    hide Timely, NotBefore, LateBelow, Slack, InReach, EventsOf, Due, Asked, Issuing, Punctual;
    PassPunctual(a.fired, a.pending, a.now, a.log, q, mid.now, log);
    assert b.fired[|a.fired|..] == Due(q, mid.now);
  }

  lemma RoundThrough(a: Mark, r: Round, p: Mark, b: Mark, handler: Event -> seq<Request>)
    requires Whole(a) && Whole(b) && a.slop < NSECS_PER_CLOCK
    requires a.pending != [] ==> a.now <= a.pending[0].vtime
    requires var at := a.now + SelectTime(a.pending, a.now, r);
             && p == Polled(a, at, r.host)
             && NotBefore(p.pending, a.now + 1, a.now) && KeepsBounds(a.pending, p.pending, at)
    requires Timely(a.fired, p.pending, b.now, p.log) && b == RoundEnd(a, r, handler)
    ensures Through(a, Waited(r), b, handler)
  {
    hide Timely, NotBefore, EventsOf, Due, Asked, IssuedBy, Punctual, SleepTime, SelectTime, Timed, KeepsBounds;
    SleepNotPast(a.pending, a.now, r);
    WaitPunctual(a.fired, a.pending, a.now, a.log, p.pending, b.now, p.log,
                 a.now + SelectTime(a.pending, a.now, r), Timed(a.pending, a.now, r));
    assert b.fired[|a.fired|..] == Due(p.pending, b.now);
  }

  /* A pass by its steps: the cycles, and the dispatch. */
  lemma FiringSteps(a: Mark, rotor: nat, pass: Pass, c: Progress, log: seq<Event>, handler: Event -> seq<Request>)
    requires |pass.work| >= MAXRUN && c == PassCycles(a, rotor, pass.work)
    requires log == a.log + EventsOf(a.now, |a.log|, pass.work[..c.ran])
    ensures FiringFits(a, rotor, pass, handler) <==>
              && |EventsOf(a.now, |a.log|, pass.work[..c.ran])| <= Free(a.pending)
              && Affords(Free(c.pending), Due(c.pending, a.now + NSECS_PER_CLOCK * c.went), handler)
    ensures PassFiring(a, rotor, pass, handler)
         == FiredAt(a.fired, c.pending, log, a.now + NSECS_PER_CLOCK * c.went, a.slop, handler)
  {
    hide PassCycles, FiredAt, Affords, Due, EventsOf;
  }

  lemma FiringUnfit(a: Mark, rotor: nat, pass: Pass, handler: Event -> seq<Request>)
    requires |pass.work| >= MAXRUN
    requires |EventsOf(a.now, |a.log|, pass.work[..PassCycles(a, rotor, pass.work).ran])| > Free(a.pending)
    ensures !FiringFits(a, rotor, pass, handler)
  {
    hide PassCycles, EventsOf, Affords, Due;
  }

  /* A round by its three steps: the sleep, the host input, and the dispatch. */
  lemma RoundSteps(a: Mark, r: Round, slept: nat, waited: nat, p: Mark, handler: Event -> seq<Request>)
    requires slept == SleepTime(a.pending, a.now, r) && waited == SelectTime(a.pending, a.now, r)
    requires p == Polled(a, a.now + waited, r.host)
    ensures RoundFits(a, r, handler) <==>
              && |r.host| <= Free(a.pending)
              && Affords(Free(p.pending), Due(p.pending, p.now + slept + p.slop), handler)
    ensures RoundEnd(a, r, handler)
         == FiredAt(p.fired, p.pending, p.log, p.now + slept + p.slop, (slept + p.slop) % NSECS_PER_CLOCK, handler)
  {
    hide SleepTime, SelectTime, FiredAt, Affords, Due;
  }

  lemma RoundUnfit(a: Mark, r: Round, handler: Event -> seq<Request>)
    requires |r.host| > Free(a.pending)
    ensures !RoundFits(a, r, handler)
  {
  }

  lemma SleepNotPast(q: seq<Event>, now: nat, r: Round)
    requires q != [] ==> now <= q[0].vtime
    ensures q != [] ==> now + SleepTime(q, now, r) <= q[0].vtime
    ensures if Timed(q, now, r) then SleepTime(q, now, r) <= SelectTime(q, now, r)
            else SelectTime(q, now, r) == 0 && now + SleepTime(q, now, r) == q[0].vtime
  {
  }

  /** In every run every event is fired punctually for the window it is fired in. */
  lemma {:induction false} CoursePunctual(marks: seq<Mark>, windows: seq<Window>, handler: Event -> seq<Request>, i: nat)
    requires Course(marks, windows, handler) && |marks[0].fired| <= i < |marks[|windows|].fired|
    ensures exists k :: 0 <= k < |windows| && |marks[k].fired| <= i < |marks[k + 1].fired|
              && marks[k + 1].fired <= marks[|windows|].fired
              && Punctual(marks[|windows|].fired[i], StampOf(marks[k], windows[k], marks[k + 1]))
    decreases |windows|
  {
    var n := |windows| - 1;
    if n < 0 {
    } else {
      assert Through(marks[n], windows[n], marks[n + 1], handler);
      if i >= |marks[n].fired| {
        assert Punctual(marks[n + 1].fired[i], StampOf(marks[n], windows[n], marks[n + 1]));
      } else {
        assert Course(marks[..n + 1], windows[..n], handler);
        CoursePunctual(marks[..n + 1], windows[..n], handler, i);
      }
    }
  }

  function Sum(slept: seq<nat>): nat {
    if slept == [] then 0 else slept[0] + Sum(slept[1..])
  }

  /* What the idle loop adds to virtual time: the slop of a round is added
     again with the next one. */
  function Advanced(slept: seq<nat>, slop: nat): nat {
    if slept == [] then 0
    else slept[0] + slop + Advanced(slept[1..], (slept[0] + slop) % NSECS_PER_CLOCK)
  }

  function SlopAfter(slept: seq<nat>, slop: nat): nat {
    if slept == [] then slop else SlopAfter(slept[1..], (slept[0] + slop) % NSECS_PER_CLOCK)
  }

  lemma NothingSlept(slop: nat)
    ensures Sum([]) == 0 && Advanced([], slop) == 0 && SlopAfter([], slop) == slop
  {
  }

  lemma {:induction false} AdvancedMore(slept: seq<nat>, slop: nat, x: nat)
    ensures Advanced(slept + [x], slop) == Advanced(slept, slop) + x + SlopAfter(slept, slop)
    ensures SlopAfter(slept + [x], slop) == (x + SlopAfter(slept, slop)) % NSECS_PER_CLOCK
    ensures Sum(slept + [x]) == Sum(slept) + x
  {
    if slept == [] {
      assert [x][1..] == [];
    } else {
      AdvancedMore(slept[1..], (slept[0] + slop) % NSECS_PER_CLOCK, x);
      assert (slept + [x])[1..] == slept[1..] + [x];
    }
  }

  /** Whatever slop an earlier sleep left, virtual time keeps step with the time
      slept exactly when no round begins with slop: otherwise the idle loop runs the
      clock fast, and by no less than the slop it began with. */
  lemma {:induction false} IdleClockExact(slept: seq<nat>, slop: nat)
    ensures Advanced(slept, slop) >= Sum(slept) + (if slept == [] then 0 else slop)
    ensures Advanced(slept, slop) == Sum(slept) <==> forall k :: 0 <= k < |slept| ==> SlopAfter(slept[..k], slop) == 0
    decreases |slept|
  {
    if slept != [] {
      var n := |slept| - 1;
      IdleClockExact(slept[..n], slop);
      assert slept == slept[..n] + [slept[n]];
      AdvancedMore(slept[..n], slop, slept[n]);
      assert forall k :: 0 <= k < n ==> slept[..n][..k] == slept[..k];
      assert SlopAfter([], slop) == slop;
    }
  }

  /** When every handler asks for at most one event, as the devices' do, a dispatch
      exhausts the pool only at its first event, if every node is taken. */
  lemma {:induction false} OneForOne(free: nat, due: seq<Event>, handler: Event -> seq<Request>)
    requires forall e :: |handler(e)| <= 1
    ensures Affords(free, due, handler) <==> due == [] || |handler(due[0])| <= free
    decreases |due|
  {
    if due != [] && |handler(due[0])| <= free {
      OneForOne(free - |handler(due[0])| + 1, due[1..], handler);
    }
  }
}
