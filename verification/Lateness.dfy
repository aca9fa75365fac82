/**
 When the events of a pass or of an idle round can be late by a clock period or
 more, exactly; and runs of the clock in which they are.
 */
module Lateness {
  import opened ActionPool
  import opened Clock
  import opened EventQueue
  import opened History

  /* Everything fired at the end of the window was less than a clock period late. */
  ghost predicate InTime(a: Mark, b: Mark) {
    forall i :: |a.fired| <= i < |b.fired| ==> b.now < b.fired[i].vtime + NSECS_PER_CLOCK
  }

  /* No device asks for less than this delay. */
  ghost predicate AtLeast(rs: seq<Request>, least: nat) {
    forall i :: 0 <= i < |rs| ==> rs[i].nsecs >= least
  }

  ghost predicate LegalPass(pass: Pass, least: nat) {
    && |pass.work| >= MAXRUN && Positive(pass.host)
    && forall i :: 0 <= i < |pass.work| ==> AtLeast(pass.work[i].asked, least)
  }

  /* Whatever the processors ask for, the pass fires its events in time. */
  ghost predicate PassAlwaysInTime(a: Mark, rotor: nat, handler: Event -> seq<Request>, least: nat) {
    forall pass, ran, went, b ::
      LegalPass(pass, least) && Through(a, Ran(pass, rotor, ran, went), b, handler) ==> InTime(a, b)
  }

  /* Whatever host input comes while no processor runs, the round does. */
  ghost predicate RoundAlwaysInTime(a: Mark, r: Round, handler: Event -> seq<Request>, least: nat) {
    forall host, b ::
      AtLeast(host, least) && Through(a, Waited(r.(host := host)), b, handler) ==> InTime(a, b)
  }

  // ------------------------------------------------------------------
  // No earlier than the least delay

  ghost predicate NoneBefore(events: seq<Event>, t: nat) {
    forall i :: 0 <= i < |events| ==> events[i].vtime >= t
  }

  lemma {:induction false} IssuedNoneBefore(now: nat, serial: nat, rs: seq<Request>, least: nat)
    requires AtLeast(rs, least)
    ensures NoneBefore(IssuedBy(now, serial, rs), now + least)
    decreases |rs|
  {
    if rs != [] {
      IssuedNoneBefore(now, serial + 1, rs[1..], least);
    }
  }

  lemma {:induction false} WorkNoneBefore(now: nat, serial: nat, work: seq<Cycle>, least: nat)
    requires forall i :: 0 <= i < |work| ==> AtLeast(work[i].asked, least)
    ensures NoneBefore(EventsOf(now, serial, work), now + least)
  {
    if work != [] {
      var n := |work| - 1;
      WorkNoneBefore(now, serial, work[..n], least);
      IssuedNoneBefore(now + NSECS_PER_CLOCK * n, serial + |EventsOf(now, serial, work[..n])|, work[n].asked, least);
    }
  }

  /* What is fired was pending at the start of the window, or was asked for in it
     before the dispatch, since what is asked for at the dispatch is later. */
  lemma FiredWhen(a: Mark, b: Mark, during: seq<Event>, after: seq<Event>, t: nat, i: nat)
    requires Whole(b) && b.log == a.log + during + after && |a.fired| <= i < |b.fired|
    requires NoneBefore(during, t) && NoneBefore(after, b.now + 1)
    ensures b.fired[i].serial < |a.log| || b.fired[i].vtime >= t
  {
    var e := b.fired[i];
    assert (b.fired + b.pending)[i] == e;
    assert e in multiset(b.fired + b.pending) && e in multiset(b.log);
    assert b.log[e.serial] == e && e.vtime <= b.now;
    if e.serial >= |a.log| {
      var k := e.serial - |a.log|;
      assert e == (during + after)[k];
      assert k < |during| ==> during[k] == e;
    }
  }

  lemma PositiveAtLeast(rs: seq<Request>)
    requires Positive(rs)
    ensures AtLeast(rs, 1)
  {
  }

  // ------------------------------------------------------------------
  // The way to be late: to be asked for at the start

  function Wish(delay: nat): Request {
    Request(delay, 0, Call(0, 0, 0))
  }

  function Wished(a: Mark, delay: nat): Event {
    Event(a.now + delay, |a.log|, Call(0, 0, 0))
  }

  /* The first cycle asks for the event. */
  function EagerPass(delay: nat, idle: bool): Pass {
    Pass(seq(MAXRUN, i => Cycle(if i == 0 then [Wish(delay)] else [], idle)), [], [])
  }

  lemma EagerEvents(a: Mark, delay: nat, idle: bool, n: nat)
    requires 0 < n <= MAXRUN
    ensures EventsOf(a.now, |a.log|, EagerPass(delay, idle).work[..n]) == [Wished(a, delay)]
    decreases n
  {
    var work := EagerPass(delay, idle).work;
    EventsOfMore(a.now, |a.log|, work, n - 1);
    if n > 1 {
      EagerEvents(a, delay, idle, n - 1);
    } else {
      assert work[..0] == [];
    }
  }

  /* It is the first thing to fire, if nothing else is pending so soon. */
  lemma EagerFirst(a: Mark, delay: nat, later: nat)
    requires Whole(a) && 0 < delay && a.now + delay <= later
    requires a.pending != [] ==> a.pending[0].vtime > a.now + delay
    ensures var q := Insert(a.pending, Wished(a, delay));
            && Timely(a.fired, q, later, a.log + [Wished(a, delay)]) && NotBefore(q, a.now + 1, a.now)
            && |Due(q, later)| > 0 && Due(q, later)[0] == Wished(a, delay)
  {
    hide Timely, NotBefore;
    var e := Wished(a, delay);
    var q := Insert(a.pending, e);
    ScheduleKeepsHistory(a.fired, a.pending, a.now, a.log, e);
    LaterStill(a.fired, q, a.now, a.log + [e], later);
    TimelyIssued(a.fired, q, a.now, a.log + [e]);
    EagerHead(a.pending, e, later, a.now);
  }

  lemma EagerHead(pending: seq<Event>, e: Event, later: nat, now: nat)
    requires now < e.vtime <= later && (pending != [] ==> pending[0].vtime > e.vtime) && Ordered(Insert(pending, e))
    ensures var q := Insert(pending, e);
            NotBefore(q, now + 1, now) && |Due(q, later)| > 0 && Due(q, later)[0] == e
  {
    hide Ordered;
    assert Insert(pending, e) == [e] + pending;
    FromHead(Insert(pending, e), now);
  }

  lemma FiredWhole(a: Mark, q: seq<Event>, log: seq<Event>, now: nat, slop: nat, handler: Event -> seq<Request>)
    requires Timely(a.fired, q, now, log) && Reasonable(handler)
    ensures Whole(FiredAt(a.fired, q, log, now, slop, handler))
  {
    hide Timely, Due, Schedule, Later, Asked, IssuedBy;
    AskedPositive(Due(q, now), handler);
    DispatchKeepsHistory(a.fired, q, now, log, Asked(Due(q, now), handler));
  }

  // ------------------------------------------------------------------
  // Passes

  lemma EagerPassThrough(a: Mark, rotor: nat, handler: Event -> seq<Request>, delay: nat)
    requires Whole(a) && !InReach(a.pending, a.now) && 0 < rotor <= ROTOR && Reasonable(handler)
    requires 0 < delay <= NSECS_PER_CLOCK * rotor - NSECS_PER_CLOCK
    ensures LegalPass(EagerPass(delay, false), delay)
    ensures exists b :: Through(a, Ran(EagerPass(delay, false), rotor, rotor, rotor), b, handler) && !InTime(a, b)
  {
    hide Timely, Due, Schedule, Later, Asked, EventsOf, Through, Insert;
    var e, now := Wished(a, delay), a.now + NSECS_PER_CLOCK * rotor;
    var q, log := Insert(a.pending, e), a.log + [e];
    EagerFirst(a, delay, now);
    EagerEvents(a, delay, false, rotor);
    BoundByTime(q, a.now, rotor);
    var b := FiredAt(a.fired, q, log, now, a.slop, handler);
    FiredWhole(a, q, log, now, a.slop, handler);
    assert b.log == Issuing(b.log, b.now, []);
    PassThrough(a, EagerPass(delay, false), rotor, rotor, rotor, q, log, b, b, handler);
    assert b.fired[|a.fired|] == e;
  }

  /* Without an event in reach, what a pass fires was asked for during it. */
  lemma PassFiresAfter(a: Mark, pass: Pass, rotor: nat, ran: nat, went: nat, b: Mark, handler: Event -> seq<Request>,
                       least: nat, i: nat)
    requires LegalPass(pass, least) && Through(a, Ran(pass, rotor, ran, went), b, handler) && Reasonable(handler)
    requires |a.fired| <= i < |b.fired|
    ensures b.fired[i].serial < |a.log| || b.fired[i].vtime >= a.now + least
  {
    hide EventsOf, Asked, IssuedBy, OnTime, InReach, Whole;
    var during := EventsOf(a.now, |a.log|, pass.work[..ran]);
    var done := b.fired[|a.fired|..];
    AskedPositive(done, handler);
    PositiveAtLeast(Asked(done, handler));
    PositiveAtLeast(pass.host);
    WorkNoneBefore(a.now, |a.log|, pass.work[..ran], least);
    var n := |a.log + during|;
    var calls := IssuedBy(b.now, n, Asked(done, handler));
    var host := if went == rotor then IssuedBy(b.now, n + |calls|, pass.host) else [];
    IssuedNoneBefore(b.now, n, Asked(done, handler), 1);
    IssuedNoneBefore(b.now, n + |calls|, pass.host, 1);
    assert b.log == a.log + during + (calls + host);
    FiredWhen(a, b, during, calls + host, a.now + least, i);
  }

  /** Whatever the processors ask for, with no delay below the least there is, all
      that a pass fires is less than a clock period late, if and only if an event is
      in reach when it begins, or the pass is no longer than that delay and less
      than a period more. */
  lemma PassInTimeExactly(a: Mark, rotor: nat, handler: Event -> seq<Request>, least: nat)
    requires Whole(a) && 0 < rotor <= ROTOR && Reasonable(handler) && least > 0
    ensures PassAlwaysInTime(a, rotor, handler, least)
       <==> InReach(a.pending, a.now) || NSECS_PER_CLOCK * rotor < least + NSECS_PER_CLOCK
  {
    hide Whole, EventsOf, Asked, InReach, EagerPass, LegalPass;
    if InReach(a.pending, a.now) || NSECS_PER_CLOCK * rotor < least + NSECS_PER_CLOCK {
      forall pass, ran, went, b | LegalPass(pass, least) && Through(a, Ran(pass, rotor, ran, went), b, handler)
        ensures InTime(a, b)
      {
        forall i | |a.fired| <= i < |b.fired|
          ensures b.now < b.fired[i].vtime + NSECS_PER_CLOCK
        {
          PassFiresAfter(a, pass, rotor, ran, went, b, handler, least, i);
        }
      }
    } else {
      EagerPassThrough(a, rotor, handler, least);
    }
  }

  // ------------------------------------------------------------------
  // Idle rounds

  lemma EagerRoundThrough(a: Mark, r: Round, handler: Event -> seq<Request>, delay: nat)
    requires Whole(a) && a.slop < NSECS_PER_CLOCK && Reasonable(handler) && 0 < delay
    requires a.pending != [] && !Timed(a.pending, a.now, r) && a.now < a.pending[0].vtime
    requires a.pending[0].vtime - a.now + a.slop >= delay + NSECS_PER_CLOCK
    ensures exists b :: Through(a, Waited(r.(host := [Wish(delay)])), b, handler) && !InTime(a, b)
  {
    hide Timely, Due, Asked, Through, Insert, Timed, Later;
    var eager := r.(host := [Wish(delay)]);
    var e, now := Wished(a, delay), a.pending[0].vtime + a.slop;
    SleepNotPast(a.pending, a.now, eager);
    HostIgnored(a.pending, a.now, r, [Wish(delay)]);
    EagerFirst(a, delay, now);
    var p := Polled(a, a.now, eager.host);
    OneWish(a.pending, a.now, |a.log|, delay);
    PollingKeepsOrder(a.fired, a.pending, a.now, a.log, a.now, eager.host);
    FiredWhole(a, p.pending, p.log, now, (now - a.now) % NSECS_PER_CLOCK, handler);
    var b := RoundEnd(a, eager, handler);
    RoundThrough(a, eager, p, b, handler);
    assert b.fired[|a.fired|] == e;
  }

  lemma OneWish(q: seq<Event>, now: nat, serial: nat, delay: nat)
    ensures var e := Event(now + delay, serial, Call(0, 0, 0));
            && Schedule(q, now, serial, [Wish(delay)]) == Insert(q, e)
            && IssuedBy(now, serial, [Wish(delay)]) == [e]
  {
    assert [Wish(delay)][1..] == [];
  }

  lemma HostIgnored(q: seq<Event>, now: nat, r: Round, host: seq<Request>)
    ensures SleepTime(q, now, r.(host := host)) == SleepTime(q, now, r)
    ensures SelectTime(q, now, r.(host := host)) == SelectTime(q, now, r)
    ensures Timed(q, now, r.(host := host)) == Timed(q, now, r)
  {
  }

  lemma RoundFiresAfter(a: Mark, r: Round, b: Mark, handler: Event -> seq<Request>, least: nat, i: nat)
    requires AtLeast(r.host, least) && Through(a, Waited(r), b, handler) && Reasonable(handler)
    requires |a.fired| <= i < |b.fired|
    ensures b.fired[i].serial < |a.log| || b.fired[i].vtime >= a.now + SelectTime(a.pending, a.now, r) + least
  {
    hide Asked, IssuedBy, OnTime, Whole, SelectTime, SleepTime, Timed;
    var at := a.now + SelectTime(a.pending, a.now, r);
    var done := b.fired[|a.fired|..];
    AskedPositive(done, handler);
    PositiveAtLeast(Asked(done, handler));
    var during := IssuedBy(at, |a.log|, r.host);
    var calls := IssuedBy(b.now, |a.log + during|, Asked(done, handler));
    IssuedNoneBefore(at, |a.log|, r.host, least);
    IssuedNoneBefore(b.now, |a.log + during|, Asked(done, handler), 1);
    FiredWhen(a, b, during, calls, at + least, i);
  }

  /** Whatever host input comes, with no delay below the least there is, all that an
      idle round fires is less than a clock period late, if and only if the round
      waits in its select, or the next event is no further ahead, counting the slop,
      than that delay and less than a period more. */
  lemma RoundInTimeExactly(a: Mark, r: Round, handler: Event -> seq<Request>, least: nat)
    requires Whole(a) && a.slop < NSECS_PER_CLOCK && Reasonable(handler) && least > 0
    ensures RoundAlwaysInTime(a, r, handler, least)
       <==> a.pending == [] || VAheadOf(a, r) > MIN_SLEEP
            || a.pending[0].vtime - a.now + a.slop < least + NSECS_PER_CLOCK
  {
    hide Whole, Asked, SleepTime, SelectTime, AtLeast;
    NextAhead(a, r);
    if Timed(a.pending, a.now, r) || a.pending[0].vtime - a.now + a.slop < least + NSECS_PER_CLOCK {
      forall host, b | AtLeast(host, least) && Through(a, Waited(r.(host := host)), b, handler)
        ensures InTime(a, b)
      {
        HostIgnored(a.pending, a.now, r, host);
        SleepNotPast(a.pending, a.now, r);
        forall i | |a.fired| <= i < |b.fired|
          ensures b.now < b.fired[i].vtime + NSECS_PER_CLOCK
        {
          RoundFiresAfter(a, r.(host := host), b, handler, least, i);
        }
      }
    } else {
      EagerRoundThrough(a, r, handler, least);
      WishAtLeast(least);
    }
  }

  lemma WishAtLeast(least: nat)
    ensures AtLeast([Wish(least)], least)
  {
  }

  /* How far the next event is ahead of real time. */
  function VAheadOf(a: Mark, r: Round): nat {
    if a.pending == [] || a.pending[0].vtime < a.now then 0 else VAhead(a.now, a.pending[0].vtime, r.physical)
  }

  lemma NextAhead(a: Mark, r: Round)
    requires Whole(a)
    ensures a.pending != [] ==> a.now < a.pending[0].vtime
    ensures Timed(a.pending, a.now, r) <==> a.pending == [] || VAheadOf(a, r) > MIN_SLEEP
  {
    NoneDueYet(a.fired, a.pending, a.now, a.log);
  }

  // ------------------------------------------------------------------
  // Runs that are late

  function Quiet(): Event -> seq<Request> {
    e => []
  }

  lemma {:induction false} QuietAsks(fired: seq<Event>)
    ensures Asked(fired, Quiet()) == []
  {
    if fired != [] {
      QuietAsks(fired[1..]);
    }
  }

  lemma {:induction false} QuietAffords(free: nat, due: seq<Event>)
    ensures Affords(free, due, Quiet())
    decreases |due|
  {
    if due != [] {
      QuietAffords(free + 1, due[1..]);
    }
  }

  /* With one event ever scheduled, it has fired if its time has come. */
  lemma OnlyOne(b: Mark, e: Event)
    requires Whole(b) && b.log == [e]
    ensures e.vtime <= b.now ==> b.fired == [e]
    ensures e.vtime > b.now ==> b.fired == [] && b.pending == [e]
  {
    var all := b.fired + b.pending;
    assert |all| == |multiset(all)| == |multiset([e])| == 1;
    assert all[0] in multiset(all) && all[0] == e;
    NoneDueYet(b.fired, b.pending, b.now, b.log);
  }

  const POWER_ON := Mark(0, 0, [], [], [])

  lemma EagerPassComesTo(b: Mark, delay: nat, idle: bool, ran: nat, went: nat)
    requires Through(POWER_ON, Ran(EagerPass(delay, idle), ROTOR, ran, went), b, Quiet())
    ensures b.log == [Wished(POWER_ON, delay)] && b.now == NSECS_PER_CLOCK * ROTOR && b.slop == 0
  {
    hide Whole, EventsOf, OnTime;
    EagerEvents(POWER_ON, delay, idle, ran);
    QuietAsks(b.fired);
  }

  lemma EagerPassFits(delay: nat, idle: bool)
    requires delay > 0
    ensures LegalPass(EagerPass(delay, idle), 1) && PositiveWork(EagerPass(delay, idle).work)
    ensures Reasonable(Quiet()) && PassFits(POWER_ON, ROTOR, EagerPass(delay, idle), Quiet())
  {
    hide Cycles, EventsOf, Affords, EagerPass;
    LegalEager(delay, idle);
    var c := PassCycles(POWER_ON, ROTOR, EagerPass(delay, idle).work);
    EagerEvents(POWER_ON, delay, idle, c.ran);
    QuietAffords(Free(c.pending), Due(c.pending, NSECS_PER_CLOCK * c.went));
  }

  lemma LegalEager(delay: nat, idle: bool)
    requires delay > 0
    ensures var p := EagerPass(delay, idle);
            && LegalPass(p, 1) && PositiveWork(p.work) && |p.work| == MAXRUN && p.host == []
  {
  }

  /** From power-on a pass fires an event late by its whole length, 2 ms, less the
      delay that was asked for: of a disk's 500 ns, say. */
  method LateByAPass(delay: nat) returns (c: Clock)
    requires 0 < delay <= NSECS_PER_CLOCK * ROTOR
    ensures c.Orderly() && fresh(c) && fresh(c.pool)
    ensures |c.fired| == 1 && c.fired[0].vtime == delay && c.virtualNow == NSECS_PER_CLOCK * ROTOR == 2_000_000
  {
    hide Through, EventsOf, Consistent, Events, Timely, Due, Reasonable, EagerPass, Quiet, InReach, FiredInTime, PassFits,
         PassEnd, PassCycles, PositiveWork, Whole;
    c := new Clock();
    EagerPassFits(delay, false);
    var ok, left, went;
    ghost var ran;
    ok, left, went, ran := c.RunPass(ROTOR, EagerPass(delay, false), Quiet());
    EagerPassComesTo(c.Here(), delay, false, ran, went);
    OnlyOneHere(c.Here(), POWER_ON, Ran(EagerPass(delay, false), ROTOR, ran, went), Wished(POWER_ON, delay));
  }

  lemma OnlyOneHere(b: Mark, a: Mark, w: Window, e: Event)
    requires Through(a, w, b, Quiet()) && b.log == [e]
    ensures e.vtime <= b.now ==> b.fired == [e]
    ensures e.vtime > b.now ==> b.fired == [] && b.pending == [e]
  {
    hide OnTime, Whole;
    OnlyOne(b, e);
  }

  /* One event pending, and host input that asks for an earlier one. */
  lemma KeyRound(b: Mark, event: nat, key: nat)
    requires b.pending == [Event(event, 0, Call(0, 0, 0))] && b.fired == [] && |b.log| == 1 && b.slop == 0
    requires 0 < key && b.now + key < event <= b.now + MIN_SLEEP
    ensures var r := Round(0, 0, [Wish(key)]);
            && RoundFits(b, r, Quiet())
            && var d := RoundEnd(b, r, Quiet());
               d.now == event && |d.fired| == 2 && d.fired[0].vtime == b.now + key && d.fired[1].vtime == event
  {
    var r := Round(0, 0, [Wish(key)]);
    var e, k := b.pending[0], Event(b.now + key, 1, Call(0, 0, 0));
    assert !Timed(b.pending, b.now, r) && SleepTime(b.pending, b.now, r) == event - b.now;
    OneWish(b.pending, b.now, 1, key);
    assert Insert([e], k) == [k, e];
    BothDue(k, e);
    QuietAffords(MAXACTIONS - 2, [k, e]);
  }

  lemma BothDue(k: Event, e: Event)
    requires k.vtime <= e.vtime
    ensures Due([k, e], e.vtime) == [k, e]
  {
    assert [k, e][1..] == [e] && [e][1..] == [];
  }

  /** With an event pending that is not far ahead the idle loop only looks at the
      host and goes on to the event: what a key asked for then, a push after 20833 ns,
      say, before an emulated file operation of 5 ms, fires late by all the time
      between the two. */
  method LateByASleep(event: nat, key: nat) returns (c: Clock)
    requires 0 < key && NSECS_PER_CLOCK * ROTOR + key < event <= NSECS_PER_CLOCK * ROTOR + MIN_SLEEP
    ensures c.Orderly() && fresh(c) && fresh(c.pool)
    ensures |c.fired| == 2 && c.fired[0].vtime == NSECS_PER_CLOCK * ROTOR + key && c.fired[1].vtime == event
    ensures c.virtualNow == event
  {
    hide Through, EventsOf, Consistent, Events, Timely, Due, Reasonable, EagerPass, Quiet, InReach, FiredInTime, PassFits,
         PassEnd, PassCycles, PositiveWork, Whole, RoundFits, RoundEnd;
    c := new Clock();
    EagerPassFits(event, true);
    var ok, left, went, slept;
    ghost var ran;
    ok, left, went, ran := c.RunPass(ROTOR, EagerPass(event, true), Quiet());
    ghost var b := c.Here();
    EagerPassComesTo(b, event, true, ran, went);
    OnlyOneHere(b, POWER_ON, Ran(EagerPass(event, true), ROTOR, ran, went), Wished(POWER_ON, event));
    KeyRound(b, event, key);
    ok, slept := c.WaitRound(Round(0, 0, [Wish(key)]), Quiet());
  }
}
