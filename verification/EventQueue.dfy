/**
 The pending timed events as a sequence: what the scheduler's linked queue
 stands for. An event fires at or after its virtual time; among events for the
 same time the one scheduled first goes first.
 */
module EventQueue {

  /* What an event runs: a handler, for the device in a slot, with an argument. */
  datatype Call = Call(func: nat, slot: nat, arg: int)

  /* `serial` counts the calls of schedule_event. */
  datatype Event = Event(vtime: nat, serial: nat, call: Call)

  /* What a handler asks for: a delay, the jitter drawn for it, and what to run. */
  datatype Request = Request(nsecs: nat, jitter: nat, call: Call)

  predicate Before(a: Event, b: Event) {
    a.vtime < b.vtime || (a.vtime == b.vtime && a.serial < b.serial)
  }

  ghost predicate Ordered(q: seq<Event>) {
    forall i, j :: 0 <= i < j < |q| ==> Before(q[i], q[j])
  }

  ghost predicate Issued(q: seq<Event>, serial: nat) {
    forall i :: 0 <= i < |q| ==> q[i].serial < serial
  }

  /* Ahead of the first event that is strictly later. */
  function Insert(q: seq<Event>, e: Event): (r: seq<Event>)
    ensures |r| == |q| + 1
    ensures forall i :: 0 <= i < |r| ==> r[i] == e || r[i] in q
  {
    if q == [] || e.vtime < q[0].vtime then [e] + q
    else [q[0]] + Insert(q[1..], e)
  }

  function Schedule(q: seq<Event>, now: nat, serial: nat, rs: seq<Request>): seq<Event>
    decreases |rs|
  {
    if rs == [] then q
    else Schedule(Insert(q, Event(now + rs[0].nsecs + rs[0].jitter, serial, rs[0].call)), now, serial + 1, rs[1..])
  }

  /* The events whose time has come, and the others, in queue order. */
  function Due(q: seq<Event>, now: nat): (r: seq<Event>)
    ensures |r| <= |q| && r == q[..|r|]
  {
    if q == [] || q[0].vtime > now then [] else [q[0]] + Due(q[1..], now)
  }

  function Later(q: seq<Event>, now: nat): seq<Event> {
    q[|Due(q, now)|..]
  }

  /* All that the handlers of `fired` ask for, in the order they run. */
  function Asked(fired: seq<Event>, handler: Event -> seq<Request>): seq<Request> {
    if fired == [] then [] else handler(fired[0]) + Asked(fired[1..], handler)
  }

  ghost predicate Positive(rs: seq<Request>) {
    forall i :: 0 <= i < |rs| ==> rs[i].nsecs > 0
  }

  /* How many events at the front of the queue are not later than `vtime`. */
  function PlaceFor(q: seq<Event>, vtime: nat): (k: nat)
    ensures k <= |q|
    ensures forall i :: 0 <= i < k ==> q[i].vtime <= vtime
    ensures k < |q| ==> vtime < q[k].vtime
  {
    if q == [] || vtime < q[0].vtime then 0 else 1 + PlaceFor(q[1..], vtime)
  }

  /* There is only one such place. */
  lemma {:induction false} PlaceUnique(q: seq<Event>, vtime: nat, k: nat)
    requires k <= |q| && forall i :: 0 <= i < k ==> q[i].vtime <= vtime
    requires k < |q| ==> vtime < q[k].vtime
    ensures k == PlaceFor(q, vtime)
  {
    if k > 0 {
      PlaceUnique(q[1..], vtime, k - 1);
    }
  }

  lemma ConsAround(x: Event, t: seq<Event>, k: nat, e: Event)
    requires 0 < k <= |t| + 1
    ensures ([x] + t)[..k] + [e] + ([x] + t)[k..] == [x] + (t[..k - 1] + [e] + t[k - 1..])
  {
  }

  lemma {:induction false} InsertAt(q: seq<Event>, e: Event, k: nat)
    requires k <= |q|
    requires forall i :: 0 <= i < k ==> q[i].vtime <= e.vtime
    requires k < |q| ==> e.vtime < q[k].vtime
    ensures Insert(q, e) == q[..k] + [e] + q[k..]
  {
    if k == 0 {
      assert q[..0] == [] && q[0..] == q;
    } else {
      var t := q[1..];
      InsertAt(t, e, k - 1);
      assert q == [q[0]] + t;
      ConsAround(q[0], t, k, e);
    }
  }

  /** Inserting a new event keeps the queue in order of time and then of
      scheduling: the queue is a stable sort of what was ever scheduled. */
  lemma {:induction false} InsertOrdered(q: seq<Event>, e: Event)
    requires Ordered(q) && Issued(q, e.serial)
    ensures Ordered(Insert(q, e)) && Issued(Insert(q, e), e.serial + 1)
  {
    if q != [] && e.vtime >= q[0].vtime {
      InsertOrdered(q[1..], e);
      var r := Insert(q[1..], e);
      forall j | 0 <= j < |r|
        ensures Before(q[0], r[j])
      {
        assert r[j] == e || r[j] in q[1..];
      }
    }
  }

  lemma {:induction false} ScheduleOrdered(q: seq<Event>, now: nat, serial: nat, rs: seq<Request>)
    requires Ordered(q) && Issued(q, serial)
    ensures Ordered(Schedule(q, now, serial, rs)) && Issued(Schedule(q, now, serial, rs), serial + |rs|)
    decreases |rs|
  {
    if rs != [] {
      var e := Event(now + rs[0].nsecs + rs[0].jitter, serial, rs[0].call);
      InsertOrdered(q, e);
      ScheduleOrdered(Insert(q, e), now, serial + 1, rs[1..]);
    }
  }

  /** Nothing is lost and nothing else appears. */
  lemma {:induction false} InsertElements(q: seq<Event>, e: Event)
    ensures multiset(Insert(q, e)) == multiset(q) + multiset{e}
  {
    if q != [] && e.vtime >= q[0].vtime {
      InsertElements(q[1..], e);
      assert q == [q[0]] + q[1..];
    }
  }

  lemma {:induction false} ScheduleMore(q: seq<Event>, now: nat, serial: nat, a: seq<Request>, b: seq<Request>)
    ensures Schedule(q, now, serial, a + b) == Schedule(Schedule(q, now, serial, a), now, serial + |a|, b)
    decreases |a|
  {
    if a == [] {
      assert a + b == b;
    } else {
      assert (a + b)[0] == a[0] && (a + b)[1..] == a[1..] + b;
      ScheduleMore(Insert(q, Event(now + a[0].nsecs + a[0].jitter, serial, a[0].call)), now, serial + 1, a[1..], b);
    }
  }

  /** An event for later changes nothing about what is due now. */
  lemma {:induction false} InsertLater(q: seq<Event>, e: Event, now: nat)
    requires e.vtime > now
    ensures Due(Insert(q, e), now) == Due(q, now)
    ensures Later(Insert(q, e), now) == Insert(Later(q, now), e)
  {
    if q != [] && q[0].vtime <= now {
      InsertLater(q[1..], e, now);
      assert Insert(q, e)[1..] == Insert(q[1..], e);
      assert Later(q, now) == Later(q[1..], now);
    }
  }

  lemma {:induction false} ScheduleLater(q: seq<Event>, now: nat, serial: nat, rs: seq<Request>)
    requires Positive(rs)
    ensures Due(Schedule(q, now, serial, rs), now) == Due(q, now)
    ensures Later(Schedule(q, now, serial, rs), now) == Schedule(Later(q, now), now, serial, rs)
    decreases |rs|
  {
    if rs != [] {
      var e := Event(now + rs[0].nsecs + rs[0].jitter, serial, rs[0].call);
      InsertLater(q, e, now);
      ScheduleLater(Insert(q, e), now, serial + 1, rs[1..]);
    }
  }

  lemma {:induction false} NothingDueAmongLater(q: seq<Event>, now: nat)
    requires Ordered(q)
    ensures forall i :: 0 <= i < |Due(q, now)| ==> Due(q, now)[i].vtime <= now
    ensures forall i :: 0 <= i < |Later(q, now)| ==> Later(q, now)[i].vtime > now
  {
    if q != [] && q[0].vtime <= now {
      NothingDueAmongLater(q[1..], now);
      assert Later(q, now) == Later(q[1..], now);
    } else if q != [] {
      assert forall i :: 0 < i < |q| ==> Before(q[0], q[i]);
    }
  }

  /* The events that a list of requests made at `now` turns into. */
  function IssuedBy(now: nat, serial: nat, rs: seq<Request>): (r: seq<Event>)
    ensures |r| == |rs|
    decreases |rs|
  {
    if rs == [] then []
    else [Event(now + rs[0].nsecs + rs[0].jitter, serial, rs[0].call)] + IssuedBy(now, serial + 1, rs[1..])
  }

  lemma {:induction false} IssuedByMore(now: nat, serial: nat, a: seq<Request>, b: seq<Request>)
    ensures IssuedBy(now, serial, a + b) == IssuedBy(now, serial, a) + IssuedBy(now, serial + |a|, b)
    decreases |a|
  {
    if a == [] {
      assert a + b == b;
    } else {
      assert (a + b)[0] == a[0] && (a + b)[1..] == a[1..] + b;
      IssuedByMore(now, serial + 1, a[1..], b);
    }
  }

  /** The whole history at time `now`: what has fired followed by what is still
      pending is one sequence in order, made of exactly the events ever
      scheduled, and nothing has fired before its time. */
  ghost predicate Timely(fired: seq<Event>, pending: seq<Event>, now: nat, log: seq<Event>) {
    && Ordered(fired + pending)
    && multiset(fired + pending) == multiset(log)
    && (forall i :: 0 <= i < |fired| ==> fired[i].vtime <= now)
    && (forall i :: 0 <= i < |log| ==> log[i].serial == i)
  }

  lemma TimelyIssued(fired: seq<Event>, pending: seq<Event>, now: nat, log: seq<Event>)
    requires Timely(fired, pending, now, log)
    ensures Ordered(pending) && Issued(pending, |log|)
  {
    var all := fired + pending;
    forall i | 0 <= i < |pending|
      ensures pending[i].serial < |log|
    {
      assert pending[i] == all[|fired| + i];
      assert pending[i] in multiset(all);
      assert pending[i] in multiset(log);
    }
    forall i, j | 0 <= i < j < |pending|
      ensures Before(pending[i], pending[j])
    {
      assert pending[i] == all[|fired| + i] && pending[j] == all[|fired| + j];
    }
  }

  /** Scheduling one event keeps the history, if its time is not in the past. */
  lemma ScheduleKeepsHistory(fired: seq<Event>, pending: seq<Event>, now: nat, log: seq<Event>, e: Event)
    requires Timely(fired, pending, now, log) && e.vtime > now && e.serial == |log|
    ensures Timely(fired, Insert(pending, e), now, log + [e])
  {
    var r := Insert(pending, e);
    TimelyIssued(fired, pending, now, log);
    InsertOrdered(pending, e);
    InsertElements(pending, e);
    forall i, j | 0 <= i < |fired| && 0 <= j < |r|
      ensures Before(fired[i], r[j])
    {
      if r[j] != e {
        var k :| 0 <= k < |pending| && pending[k] == r[j];
        assert (fired + pending)[i] == fired[i] && (fired + pending)[|fired| + k] == r[j];
      }
    }
    forall i, j | 0 <= i < j < |fired|
      ensures Before(fired[i], fired[j])
    {
      assert (fired + pending)[i] == fired[i] && (fired + pending)[j] == fired[j];
    }
  }

  lemma {:induction false} RequestsKeepHistory(fired: seq<Event>, pending: seq<Event>, now: nat, log: seq<Event>,
                                               rs: seq<Request>)
    requires Timely(fired, pending, now, log) && Positive(rs)
    ensures Timely(fired, Schedule(pending, now, |log|, rs), now, log + IssuedBy(now, |log|, rs))
    decreases |rs|
  {
    if rs == [] {
      assert log + [] == log;
    } else {
      var e := Event(now + rs[0].nsecs + rs[0].jitter, |log|, rs[0].call);
      ScheduleKeepsHistory(fired, pending, now, log, e);
      RequestsKeepHistory(fired, Insert(pending, e), now, log + [e], rs[1..]);
      assert log + IssuedBy(now, |log|, rs) == log + [e] + IssuedBy(now, |log| + 1, rs[1..]);
    }
  }

  lemma {:induction false} DueByNow(q: seq<Event>, now: nat, i: nat)
    requires i < |Due(q, now)|
    ensures Due(q, now)[i].vtime <= now
  {
    if i > 0 {
      DueByNow(q[1..], now, i - 1);
    }
  }

  /** Firing what is due keeps the history. */
  lemma FiringKeepsHistory(fired: seq<Event>, pending: seq<Event>, now: nat, log: seq<Event>)
    requires Timely(fired, pending, now, log)
    ensures Timely(fired + Due(pending, now), Later(pending, now), now, log)
  {
    hide Ordered, Due;
    var due := Due(pending, now);
    assert fired + due + Later(pending, now) == fired + pending;
    forall i | 0 <= i < |fired + due|
      ensures (fired + due)[i].vtime <= now
    {
      if i >= |fired| {
        DueByNow(pending, now, i - |fired|);
      }
    }
  }

  /** One pass of the dispatcher: what was due has fired in order, and what
      the handlers asked for is pending, none of it due yet. */
  lemma DispatchKeepsHistory(fired: seq<Event>, pending: seq<Event>, now: nat, log: seq<Event>, rs: seq<Request>)
    requires Timely(fired, pending, now, log) && Positive(rs)
    ensures var after := Schedule(Later(pending, now), now, |log|, rs);
            && Timely(fired + Due(pending, now), after, now, log + IssuedBy(now, |log|, rs))
            && Due(after, now) == []
  {
    FiringKeepsHistory(fired, pending, now, log);
    RequestsKeepHistory(fired + Due(pending, now), Later(pending, now), now, log, rs);
    ScheduleLater(Later(pending, now), now, |log|, rs);
    TimelyIssued(fired, pending, now, log);
    NothingDueAmongLater(pending, now);
  }
}
