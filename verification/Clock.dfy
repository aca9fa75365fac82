/**
 Virtual time and the timed-event scheduler: a sorted singly linked queue cut
 from a fixed pool of nodes, dispatched re-entrantly, with the run-to flag by
 which inserting an earlier event stops the processors; the loop that runs the
 processors for as many cycles as there is time to the next event; and the
 advance of time while no processor runs.
 */
module Clock {
  import opened ActionPool
  import opened History
  import opened EventQueue

  class Clock {
    const pool: array<TimedAction>
    var freeList: int
    var queueHead: int
    var serial: nat
    var virtualNow: nat
    var cyclesCount: nat        // cpu_cycles_count
    var cycling: bool           // cpu_cycling
    var extraSelect: nat        // extra_selecttime
    var idleSlop: nat
    var idleCycles: nat         // s_tot_icycles, the part credited by the idle loop

    ghost var lists: Lists
    ghost var fired: seq<Event>
    ghost var log: seq<Event>

    ghost predicate Valid()
      reads this, pool
    {
      Consistent(pool[..], queueHead, freeList, lists, serial) && serial == |log|
    }

    ghost function Contents(): (r: seq<Event>)
      reads this, pool
      requires Valid()
      ensures |r| == |lists.queue|
    {
      Events(pool[..], lists.queue)
    }

    function VNow(): nat
      reads this
    {
      virtualNow + NSECS_PER_CLOCK * cyclesCount + extraSelect
    }

    predicate RunningTo()
      reads this, pool
    {
      HeadRunning(pool[..], queueHead)
    }

    /* If the processors run to an event, it is one at h. */
    ghost predicate RunsTo(h: nat)
      reads this, pool
      requires Valid()
    {
      RunningTo() ==> Contents() != [] && Contents()[0].vtime == h
    }

    /* Every node is queued, free, or in flight. */
    lemma NodesCount()
      requires Valid()
      ensures |lists.free| + |lists.flight| + |Contents()| == MAXACTIONS
      ensures lists.flight == [] ==> |lists.free| == Free(Contents())
    {
    }

    lemma RunningHead()
      requires Valid()
      ensures RunningTo() ==> Contents() != []
    {
    }

    /* The queue head is the first event, or NULL when there is none. */
    ghost predicate HeadIs(q: seq<Event>)
      reads this, pool
    {
      if q == [] then queueHead == -1
      else 0 <= queueHead < pool.Length && pool[queueHead].ev == q[0]
    }

    lemma HeadNode()
      requires Valid()
      ensures HeadIs(Contents())
    {
    }

    /* acalloc_init: every node starts on the free list. */
    constructor ()
      ensures Orderly() && fresh(pool)
      ensures Contents() == [] && fired == [] && log == [] && virtualNow == 0 && idleSlop == 0
      ensures |lists.free| == MAXACTIONS
    {
      hide Consistent, Timely, Due, Events, AllFlying;
      var nothing := TimedAction(-1, Event(0, 0, Call(0, 0, 0)), false);
      pool := new TimedAction[MAXACTIONS](_ => nothing);
      freeList, queueHead, serial := -1, -1, 0;
      virtualNow, cyclesCount, cycling, extraSelect, idleSlop, idleCycles := 0, 0, false, 0, 0, 0;
      fired, log := [], [];
      lists := AllFlying();
      new;
      InitConsistent(pool[..]);
      AcAllocInit();
      EmptyHistory();
    }

    method AcAllocInit()
      requires Valid() && lists == AllFlying()
      modifies this`freeList, this`lists, pool
      ensures Valid() && lists.queue == [] && lists.flight == [] && |lists.free| == MAXACTIONS
    {
      ghost var flight0 := lists.flight;
      var i := 0;
      while i < MAXACTIONS
        invariant i <= MAXACTIONS && Valid() && lists.queue == [] && |lists.free| == i
        invariant lists.flight == flight0[..MAXACTIONS - i]
      {
        hide Valid;
        AcFree(i);
        i := i + 1;
      }
    }

    /* What holds between two passes of the main loop. */
    ghost predicate Orderly()
      reads this, pool
    {
      && Valid() && lists.flight == [] && cyclesCount == 0 && extraSelect == 0 && idleSlop < NSECS_PER_CLOCK
      && Timely(fired, Contents(), virtualNow, log)
      && Due(Contents(), virtualNow) == []
      && (RunningTo() ==> InReach(Contents(), virtualNow))
    }

    ghost function Here(): Mark
      reads this, pool
      requires Valid()
    {
      Mark(virtualNow, idleSlop, fired, Contents(), log)
    }

    method AcAlloc() returns (n: int)
      requires Valid()
      modifies this`freeList, this`lists
      ensures Valid() && Contents() == old(Contents())
      ensures n < 0 <==> old(lists).free == []
      ensures n < 0 ==> lists == old(lists)
      ensures n >= 0 ==> lists == old(lists).Allocated() && n == lists.Flying()
    {
      n := freeList;
      if n >= 0 {
        AllocConsistent(pool[..], queueHead, freeList, lists, serial);
        freeList := pool[n].next;
        lists := lists.Allocated();
      }
    }

    method AcFree(n: nat)
      requires Valid() && lists.flight != [] && n == lists.Flying()
      modifies this`freeList, this`lists, pool
      ensures Valid() && Contents() == old(Contents()) && RunningTo() == old(RunningTo())
      ensures lists == old(lists).Freed()
    {
      FlyingApart(pool[..], queueHead, freeList, lists, serial);
      ghost var was := pool[..];
      pool[n] := pool[n].(next := freeList);
      FreeConsistent(was, queueHead, freeList, lists, serial, pool[..]);
      freeList := n;
      lists := lists.Freed();
    }

    /* The place of a sorted insertion: after every event that is not later. */
    method FindPlace(vtime: nat) returns (prev: int, p: int)
      requires Valid()
      ensures p == Nth(lists.queue, PlaceFor(Contents(), vtime))
      ensures prev == if PlaceFor(Contents(), vtime) > 0 then lists.queue[PlaceFor(Contents(), vtime) - 1] else -1
    {
      hide Consistent, Events, PlaceFor;
      QueueNode(pool[..], queueHead, freeList, lists, serial, 0);
      prev, p := -1, queueHead;
      ghost var k := 0;
      while p != -1 && vtime >= pool[p].ev.vtime
        invariant k <= |lists.queue| && p == Nth(lists.queue, k)
        invariant p != -1 ==> p < pool.Length && pool[p].ev == Contents()[k] && pool[p].next == Nth(lists.queue, k + 1)
        invariant prev == if k > 0 then lists.queue[k - 1] else -1
        invariant forall i :: 0 <= i < k ==> Contents()[i].vtime <= vtime
        decreases |lists.queue| - k
      {
        prev, p := p, pool[p].next;
        k := k + 1;
        QueueNode(pool[..], queueHead, freeList, lists, serial, k);
      }
      PlaceUnique(Contents(), vtime, k);
    }

    /* The writes that put node `n` between `prev` and `p`. */
    method Relink(prev: int, p: int, n: nat, e: Event, ghost k: nat)
      requires Valid() && k <= |lists.queue| && n < pool.Length && n !in lists.queue
      requires p == Nth(lists.queue, k) && prev == if k > 0 then lists.queue[k - 1] else -1
      modifies this`queueHead, this`cycling, pool
      ensures pool[..] == Linked(old(pool[..]), lists.queue, k, n, e)
      ensures queueHead == if k == 0 then n else old(queueHead)
      ensures cycling == (old(cycling) && !(old(RunningTo()) && k == 0))
    {
      ghost var was, queue := pool[..], lists.queue;
      assert p != -1 ==> p == queue[k] && queue[k] in queue;
      assert p != -1 && k > 0 ==> !pool[p].runningTo;
      assert p != -1 && prev != -1 ==> prev != p by {
        Apart(queue, lists.flight, lists.free);
      }
      pool[n] := TimedAction(p, e, false);
      if prev == -1 {
        queueHead := n;
      } else {
        pool[prev] := pool[prev].(next := n);
      }
      if p != -1 && pool[p].runningTo {
        cycling := false;
        pool[p] := pool[p].(runningTo := false);
      }
      assert pool[..] == Linked(was, queue, k, n, e);
    }

    /* schedule_event. `ok` is false when the pool is exhausted, which stops the
       machine. `jitter` is the random extra delay, at most one percent. */
    method ScheduleEvent(r: Request) returns (ok: bool)
      requires Valid()
      modifies this`freeList, this`lists, this`queueHead, this`serial, this`log, this`cycling, pool
      ensures ok <==> old(lists).free != []
      ensures !ok ==> lists == old(lists)
      ensures ok ==> Valid() && lists.flight == old(lists).flight && lists.free == old(lists).free[1..]
      ensures var e := Event(VNow() + r.nsecs + r.jitter, |old(log)|, r.call);
              ok ==>
                && log == old(log) + [e]
                && Contents() == Insert(old(Contents()), e)
                // An event put ahead of the one the processors run to stops them.
                && cycling == (old(cycling) && !(old(RunningTo()) && e.vtime < old(Contents())[0].vtime))
                && RunningTo() == (old(RunningTo()) && old(Contents())[0].vtime <= e.vtime)
                && (RunningTo() ==> Contents()[0] == old(Contents())[0])
    {
      hide Consistent, Insert;
      var n := AcAlloc();
      if n < 0 {
        return false;
      }
      var e := Event(VNow() + r.nsecs + r.jitter, serial, r.call);
      Link(n, e);
      return true;
    }

    method Link(n: nat, e: Event)
      requires Valid() && lists.flight != [] && n == lists.Flying() && e.serial == serial
      modifies this`queueHead, this`lists, this`serial, this`log, this`cycling, pool
      ensures Valid() && lists.flight == old(lists).flight[..|old(lists).flight| - 1] && lists.free == old(lists).free
      ensures log == old(log) + [e]
      ensures Contents() == Insert(old(Contents()), e)
      ensures cycling == (old(cycling) && !(old(RunningTo()) && e.vtime < old(Contents())[0].vtime))
      ensures RunningTo() == (old(RunningTo()) && old(Contents())[0].vtime <= e.vtime)
      ensures RunningTo() ==> Contents()[0] == old(Contents())[0]
    {
      hide Consistent, Linked, HeadRunning, PlaceFor;
      var prev, p := FindPlace(e.vtime);
      ghost var k := PlaceFor(Contents(), e.vtime);
      FlyingApart(pool[..], queueHead, freeList, lists, serial);
      assert Contents() == Events(pool[..], lists.queue);
      LinkConsistent(pool[..], queueHead, freeList, lists, e, k);
      LinkRunning(pool[..], queueHead, freeList, lists, e, k);
      Relink(prev, p, n, e, k);
      serial := serial + 1;
      log := log + [e];
      lists := lists.Queued(k);
    }

    /* A handler, or anything else that schedules several events at one moment. */
    method RunRequests(rs: seq<Request>) returns (ok: bool)
      requires Valid()
      modifies this`freeList, this`lists, this`queueHead, this`serial, this`log, this`cycling, pool
      ensures ok <==> |rs| <= |old(lists).free|
      ensures !ok ==> lists.free == []
      ensures ok ==> Valid() && lists.flight == old(lists).flight
      ensures ok ==> log == old(log) + IssuedBy(VNow(), |old(log)|, rs)
      ensures ok ==> Contents() == Schedule(old(Contents()), VNow(), |old(log)|, rs)
      ensures ok ==> |lists.free| == |old(lists).free| - |rs|
      ensures ok ==> cycling == (old(cycling) && (old(RunningTo()) ==> RunningTo()))
      ensures ok && RunningTo() ==> old(RunningTo()) && Contents() != [] && Contents()[0] == old(Contents())[0]
      ensures ok && old(RunningTo()) && !RunningTo() ==>
                Contents() != [] && old(Contents()) != [] && Contents()[0].vtime < old(Contents())[0].vtime
    {
      hide Valid, RunningTo, Schedule, IssuedBy, Insert, Contents;
      var i := 0;
      NoneYet(Contents(), VNow(), |log|, rs[..i]);
      RunningHead();
      while i < |rs|
        invariant i <= |rs| && i <= |old(lists).free| && |lists.free| == |old(lists).free| - i
        invariant Valid() && lists.flight == old(lists).flight
        invariant log == old(log) + IssuedBy(VNow(), |old(log)|, rs[..i])
        invariant Contents() == Schedule(old(Contents()), VNow(), |old(log)|, rs[..i])
        invariant cycling == (old(cycling) && (old(RunningTo()) ==> RunningTo()))
        invariant RunningTo() ==> old(RunningTo()) && Contents() != [] && Contents()[0] == old(Contents())[0]
        invariant old(RunningTo()) && !RunningTo() ==>
                    Contents() != [] && old(Contents()) != [] && Contents()[0].vtime < old(Contents())[0].vtime
      {
        ghost var q, e := Contents(), Event(VNow() + rs[i].nsecs + rs[i].jitter, |log|, rs[i].call);
        RunningHead();
        ok := ScheduleEvent(rs[i]);
        if !ok {
          return;
        }
        InsertHead(q, e);
        OneMore(old(Contents()), VNow(), |old(log)|, rs, i);
        i := i + 1;
      }
      assert rs[..i] == rs;
      return true;
    }

    /* Take the head off the queue. */
    method TakeHead() returns (n: nat)
      requires Valid() && Contents() != []
      modifies this`queueHead, this`lists, this`fired
      ensures Valid() && lists == old(lists).Popped() && n == lists.Flying() && n < pool.Length
      ensures pool[n].ev == old(Contents())[0]
      ensures Contents() == old(Contents())[1..] && fired == old(fired) + [old(Contents())[0]]
      ensures !RunningTo()
    {
      hide Consistent, Events, HeadRunning;
      QueueNode(pool[..], queueHead, freeList, lists, serial, 0);
      PopRunning(pool[..], queueHead, freeList, lists, serial);
      PopConsistent(pool[..], queueHead, freeList, lists, serial);
      n := queueHead;
      queueHead := pool[n].next;
      fired := fired + [pool[n].ev];
      lists := lists.Popped();
    }

    method FireHead(handler: Event -> seq<Request>) returns (ok: bool)
      requires Valid() && lists.flight == [] && Contents() != []
      modifies this`freeList, this`lists, this`queueHead, this`serial, this`log, this`fired, this`cycling, pool
      ensures !ok ==> lists.free == []
      ensures ok <==> |handler(old(Contents())[0])| <= |old(lists).free|
      ensures ok ==> |lists.free| == |old(lists).free| - |handler(old(Contents())[0])| + 1
      ensures ok ==> Valid() && lists.flight == [] && HeadIs(Contents()) && !RunningTo()
      ensures ok ==> fired == old(fired) + [old(Contents())[0]]
      ensures ok ==> Contents() == Schedule(old(Contents())[1..], VNow(), |old(log)|, handler(old(Contents())[0]))
      ensures ok ==> log == old(log) + IssuedBy(VNow(), |old(log)|, handler(old(Contents())[0]))
    {
      hide Valid, Contents, Schedule, IssuedBy, RunningTo;
      var n := TakeHead();
      ok := RunRequests(handler(pool[n].ev));
      if ok {
        AcFree(n);
        HeadNode();
      }
    }

    /* check_queue: fire everything that is due, in order, while the handlers
       schedule more. `ok` is false when the pool is exhausted. */
    method CheckQueue(handler: Event -> seq<Request>) returns (ok: bool)
      requires Valid() && lists.flight == [] && Reasonable(handler)
      modifies this`freeList, this`lists, this`queueHead, this`serial, this`log, this`fired, this`cycling, pool
      ensures !ok ==> lists.free == []
      ensures ok <==> Affords(|old(lists).free|, Due(old(Contents()), VNow()), handler)
      ensures ok ==> Valid() && lists.flight == []
      ensures ok && RunningTo() ==> old(RunningTo()) && Contents() == old(Contents())
      ensures ok ==> fired == old(fired) + Due(old(Contents()), VNow())
      ensures ok ==> Contents() == Schedule(Later(old(Contents()), VNow()), VNow(), |old(log)|,
                                            Asked(Due(old(Contents()), VNow()), handler))
      ensures ok ==> log == old(log) + IssuedBy(VNow(), |old(log)|, Asked(Due(old(Contents()), VNow()), handler))
    {
      hide Valid, Contents, Schedule, Asked, IssuedBy, Later, Due, Dispatched, Reasonable, RunningTo, Affords;
      var vnow := VNow();
      ghost var q0, due, k := Contents(), Due(Contents(), vnow), 0;
      DispatchStart(q0, vnow, |log|, handler, due[..0]);
      HeadNode();
      while queueHead != -1 && pool[queueHead].ev.vtime <= vnow
        invariant Valid() && lists.flight == [] && HeadIs(Contents())
        invariant k <= |due|
        invariant RunningTo() ==> old(RunningTo()) && Contents() == old(Contents())
        invariant Affords(|old(lists).free|, due, handler) <==> Affords(|lists.free|, due[k..], handler)
        invariant Dispatched(q0, vnow, |old(log)|, handler, k, Contents())
        invariant fired == old(fired) + due[..k]
        invariant log == old(log) + IssuedBy(vnow, |old(log)|, Asked(due[..k], handler))
        decreases |due| - k
      {
        ghost var q := Contents();
        DispatchNext(q0, vnow, |old(log)|, handler, k, q);
        AffordsNext(|lists.free|, due[k..], handler);
        ok := FireHead(handler);
        if !ok {
          return;
        }
        DispatchStep(q0, vnow, |old(log)|, handler, k, q);
        IssuedByMore(vnow, |old(log)|, Asked(due[..k], handler), handler(q[0]));
        k := k + 1;
      }
      DispatchDone(q0, vnow, |old(log)|, handler, k, Contents());
      assert due[k..] == [];
      AffordsNext(|lists.free|, due[k..], handler);
      return true;
    }

    /* How many cycles there are to the next event, rounded up; the processors
       are then running to that event. */
    method GetRunTicks() returns (ticks: nat)
      requires Valid()
      modifies pool
      ensures Valid() && Contents() == old(Contents())
      ensures ticks == TicksTo(Contents(), VNow())
      ensures Contents() == [] || Contents()[0].vtime >= VNow() + 40 * 125000 ==> ticks == 125000
      ensures Contents() != [] ==>
                var h := Contents()[0].vtime;
                && (h <= VNow() <==> ticks == 0)
                && (h > VNow() ==> VNow() + NSECS_PER_CLOCK * ticks < h + NSECS_PER_CLOCK)
                && (ticks < MAXRUN ==> h <= VNow() + NSECS_PER_CLOCK * ticks)
                && (VNow() < h < VNow() + NSECS_PER_CLOCK * MAXRUN ==> RunningTo())
      ensures RunningTo() ==> old(RunningTo()) || InReach(Contents(), VNow())
    {
      hide Consistent, Events;
      HeadNode();
      if queueHead != -1 {
        var vnow := VNow();
        if pool[queueHead].ev.vtime <= vnow {
          return 0;
        }
        if pool[queueHead].ev.vtime < vnow + MAXRUN * NSECS_PER_CLOCK {
          ghost var was := pool[..];
          pool[queueHead] := pool[queueHead].(runningTo := true);
          HeadFlag(was, queueHead, freeList, lists, serial, pool[..]);
          return (pool[queueHead].ev.vtime - vnow + NSECS_PER_CLOCK - 1) / NSECS_PER_CLOCK;
        }
      }
      return MAXRUN;
    }

    /* cpu_cycle, as far as the clock sees it. */
    method CpuCycle(asked: seq<Request>) returns (ok: bool)
      requires Valid() && Positive(asked) && Timely(fired, Contents(), VNow(), log)
      modifies this`freeList, this`lists, this`queueHead, this`serial, this`log, this`cycling, this`cyclesCount, pool
      ensures !ok ==> lists.free == []
      ensures ok ==> Valid() && lists.flight == old(lists).flight && cyclesCount == old(cyclesCount) + 1
      ensures ok ==> log == old(log) + IssuedBy(old(VNow()), |old(log)|, asked)
      ensures ok ==> Timely(fired, Contents(), VNow(), log)
      ensures ok ==> KeepsBounds(old(Contents()), Contents(), old(VNow()))
      ensures ok <==> |asked| <= |old(lists).free|
      ensures ok ==> |lists.free| == |old(lists).free| - |asked|
      ensures ok ==> Contents() == Schedule(old(Contents()), old(VNow()), |old(log)|, asked)
      ensures ok ==> cycling == (old(cycling) && (old(RunningTo()) ==> RunningTo()))
      ensures ok && RunningTo() ==> old(RunningTo()) && Contents() != [] && Contents()[0] == old(Contents())[0]
      ensures ok && old(RunningTo()) && !RunningTo() ==>
                Contents() != [] && old(Contents()) != [] && Contents()[0].vtime < old(Contents())[0].vtime
    {
      hide Consistent, Events, Schedule, IssuedBy, Timely, NotBefore, Positive, HeadRunning;
      SomeRequests(fired, Contents(), VNow(), log, asked);
      ok := RunRequests(asked);
      if ok {
        cyclesCount := cyclesCount + 1;
      }
    }

    /* cpu_cycles: at most `max` cycles, fewer when an event is scheduled ahead
       of the one run to; when every processor goes idle the rest are skipped.
       `ran` cycles were executed and `went` are reported. */
    method CpuCycles(max: nat, work: seq<Cycle>) returns (ok: bool, went: nat, ghost ran: nat)
      requires Valid() && max <= |work| && PositiveWork(work) && cyclesCount == 0 && extraSelect == 0
      requires Timely(fired, Contents(), virtualNow, log) && NotBefore(Contents(), virtualNow + 1, virtualNow)
      modifies this`freeList, this`lists, this`queueHead, this`serial, this`log, this`cycling, this`cyclesCount, pool
      ensures !ok ==> lists.free == []
      ensures ran <= went <= max && (ok && max > 0 ==> ran > 0)
      ensures ok ==> (ran < went ==> went == max && work[ran - 1].idle)
      ensures ok ==> (went < max ==> !cycling)
      // Only running to an event can the processors be stopped.
      ensures ok && !old(RunningTo()) ==> went == max
      ensures var c := Cycles(old(Contents()), old(RunningTo()), virtualNow, |old(log)|, work, 0, max);
              && (ok <==> |EventsOf(virtualNow, |old(log)|, work[..c.ran])| <= |old(lists).free|)
              && (ok ==> Valid() && c == Progress(ran, went, Contents()))
      ensures ok ==> Valid() && lists.flight == old(lists).flight && cyclesCount == 0
      ensures ok ==> (RunningTo() ==> old(RunningTo()))
      ensures ok ==> forall h: nat :: old(RunsTo(h)) ==> RunsTo(h)
      ensures ok ==> log == old(log) + EventsOf(virtualNow, |old(log)|, work[..ran])
      ensures ok ==> Timely(fired, Contents(), virtualNow + NSECS_PER_CLOCK * went, log)
      // Running to an event, nothing is left behind by a whole cycle.
      ensures ok && old(RunningTo()) && old(Contents()) != []
              && virtualNow + NSECS_PER_CLOCK * max < old(Contents())[0].vtime + NSECS_PER_CLOCK
              ==> LateBelow(Contents(), virtualNow + NSECS_PER_CLOCK * went, NSECS_PER_CLOCK)
      // Otherwise by less than the run.
      ensures ok ==> NotBefore(Contents(), virtualNow + 1, virtualNow)
    {
      hide Consistent, Events, Timely, NotBefore, HeadRunning, Positive, IssuedBy, EventsOf, LateBelow, Partway;
      ghost var h := if Contents() == [] then 0 else Contents()[0].vtime;
      ghost var toward := RunningTo();
      RunningHead();
      ok, went, ran := CycleLoop(max, work, h);
      if ok {
        EndRun(fired, Contents(), log, old(log), work, h, virtualNow, ran, went, max, toward, cycling, RunningTo());
        cyclesCount := 0;
      }
    }

    /* The loop of cpu_cycles. */
    method CycleLoop(max: nat, work: seq<Cycle>, ghost h: nat) returns (ok: bool, went: nat, ghost ran: nat)
      requires Valid() && max <= |work| && PositiveWork(work) && cyclesCount == 0 && extraSelect == 0
      requires Timely(fired, Contents(), virtualNow, log) && NotBefore(Contents(), virtualNow + 1, virtualNow)
      requires RunsTo(h)
      modifies this`freeList, this`lists, this`queueHead, this`serial, this`log, this`cycling, this`cyclesCount, pool
      ensures !ok ==> lists.free == []
      ensures ran <= went <= max && (ok && max > 0 ==> ran > 0)
      ensures ok ==> (ran < went ==> went == max && work[ran - 1].idle && cycling)
      ensures ok ==> (went < max ==> !cycling)
      ensures ok && !old(RunningTo()) ==> went == max
      ensures var c := Cycles(old(Contents()), old(RunningTo()), virtualNow, |old(log)|, work, 0, max);
              && (ok <==> |EventsOf(virtualNow, |old(log)|, work[..c.ran])| <= |old(lists).free|)
              && (ok ==> Valid() && c == Progress(ran, went, Contents()))
      ensures ok ==> Valid() && lists.flight == old(lists).flight
      ensures ok ==> RunsTo(h) && (RunningTo() ==> old(RunningTo()))
      ensures ok ==> Partway(fired, Contents(), log, old(log), work, h, virtualNow, ran,
                             old(RunningTo()), cycling, RunningTo())
    {
      hide Consistent, Events, Timely, NotBefore, HeadRunning, Positive, IssuedBy, Partway, EventsOf, KeepsBounds,
           Schedule, Tracks, Cycles;
      ghost var toward := RunningTo();
      ghost var c := Cycles(Contents(), toward, virtualNow, |log|, work, 0, max);
      TracksStart(c, Contents(), toward, virtualNow, |log|, work, max);
      StartRun(fired, Contents(), log, work, h, virtualNow, toward);
      went, ran, cycling := 0, 0, true;
      assert work[..0] == [];
      while went < max && cycling
        invariant ran <= went <= max && (ran < went ==> went == max && ran > 0 && work[ran - 1].idle && cycling)
        invariant Valid() && lists.flight == old(lists).flight && cyclesCount == ran
        invariant ran == 0 ==> cycling
        invariant cycling == (toward ==> RunningTo()) && (!cycling ==> ran == went)
        invariant RunsTo(h) && (RunningTo() ==> toward)
        invariant Tracks(c, Contents(), toward, virtualNow, |log|, work, ran, went, max, cycling)
        invariant |lists.free| == |old(lists).free| - |EventsOf(virtualNow, |old(log)|, work[..ran])|
        invariant Timely(fired, Contents(), VNow(), log)
        invariant Partway(fired, Contents(), log, old(log), work, h, virtualNow, ran, toward, cycling, RunningTo())
      {
        ghost var q, log0, running := Contents(), log, RunningTo();
        RunningHead();
        EventsOfMore(virtualNow, |old(log)|, work, ran);
        TracksSome(c, q, toward, virtualNow, |log|, work, ran, max);
        EventsOfPrefix(virtualNow, |old(log)|, work[..c.ran], ran + 1);
        assert work[..c.ran][..ran + 1] == work[..ran + 1];
        ok := CpuCycle(work[went].asked);
        if !ok {
          return;
        }
        TracksOn(c, q, toward, virtualNow, |log0|, work, ran, max, Contents(), cycling);
        AfterCycle(fired, q, log0, old(log), work, h, virtualNow, ran, toward, running,
                   Contents(), log, cycling, RunningTo());
        went, ran := went + 1, ran + 1;
        if work[went - 1].idle && cycling {
          went := max;
        }
      }
      TracksEnd(c, Contents(), toward, virtualNow, |log|, work, ran, went, max, cycling);
      return true, went, ran;
    }

    /* Advance virtual time and fire what has come due. */
    method Dispatch(nsecs: nat, handler: Event -> seq<Request>) returns (ok: bool)
      requires Valid() && lists.flight == [] && Reasonable(handler) && cyclesCount == 0 && extraSelect == 0
      requires Timely(fired, Contents(), virtualNow + nsecs, log)
      modifies this`freeList, this`lists, this`queueHead, this`serial, this`log, this`fired, this`cycling,
               this`virtualNow, pool
      ensures !ok ==> lists.free == []
      ensures ok <==> Affords(|old(lists).free|, Due(old(Contents()), virtualNow), handler)
      ensures virtualNow == old(virtualNow) + nsecs
      ensures ok ==> Valid() && lists.flight == []
      ensures ok ==> Timely(fired, Contents(), virtualNow, log) && Due(Contents(), virtualNow) == []
      ensures ok ==> Here() == FiredAt(old(fired), old(Contents()), old(log), virtualNow, idleSlop, handler)
      ensures ok && RunningTo() ==> old(RunningTo()) && Contents() == old(Contents())
    {
      hide Consistent, Events, Timely, Reasonable, Due, Schedule, IssuedBy, Asked, Later, Affords, HeadRunning;
      virtualNow := virtualNow + nsecs;
      ghost var q, log0, fired0 := Contents(), log, fired;
      ok := CheckQueue(handler);
      if ok {
        AskedPositive(Due(q, virtualNow), handler);
        DispatchKeepsHistory(fired0, q, virtualNow, log0, Asked(Due(q, virtualNow), handler));
      }
    }

    /* Run the processors to the next event, or as far as the rotor allows. */
    method RunProcessors(rotor: nat, work: seq<Cycle>) returns (ok: bool, went: nat, ghost ran: nat)
      requires Orderly() && 0 < rotor <= ROTOR && |work| >= MAXRUN && PositiveWork(work)
      modifies this`freeList, this`lists, this`queueHead, this`serial, this`log, this`cycling, this`cyclesCount, pool
      ensures !ok ==> lists.free == []
      ensures ok ==> Valid() && lists.flight == [] && cyclesCount == 0 && 0 < ran <= went <= rotor
      ensures ok ==> (ran < went ==> work[ran - 1].idle)
      ensures var reach := InReach(old(Contents()), virtualNow);
              ok ==>
                && (!reach ==> went == rotor)
                && (reach ==> virtualNow + NSECS_PER_CLOCK * went < old(Contents())[0].vtime + NSECS_PER_CLOCK)
      ensures ok && RunningTo() ==> InReach(Contents(), virtualNow)
      ensures ok ==> Timely(fired, Contents(), virtualNow + NSECS_PER_CLOCK * went, log)
      ensures ok ==> LateBelow(Contents(), virtualNow + NSECS_PER_CLOCK * went, Slack(old(Contents()), virtualNow))
      ensures ok ==> NotBefore(Contents(), virtualNow + 1, virtualNow)
      ensures ok ==> ran <= |work| && log == old(log) + EventsOf(virtualNow, |old(log)|, work[..ran])
      ensures var c := PassCycles(old(Here()), rotor, work);
              && (ok <==> |EventsOf(virtualNow, |old(log)|, work[..c.ran])| <= |old(lists).free|)
              && (ok ==> Valid() && c == Progress(ran, went, Contents()))
    {
      hide Consistent, Events, EventsOf, Timely, Due, NotBefore, LateBelow, HeadRunning, PositiveWork, Cycles;
      NoneDueYet(fired, Contents(), virtualNow, log);
      var goticks := GetRunTicks();
      if goticks > rotor {
        goticks := rotor;
      }
      RunningHead();
      assert RunsTo(if Contents() == [] then 0 else Contents()[0].vtime);
      ok, went, ran := CpuCycles(goticks, work);
      if ok {
        BoundByTime(Contents(), virtualNow, went);
      }
    }

    /* Run the processors, and fire what has come due. */
    method RunAndFire(rotor: nat, pass: Pass, handler: Event -> seq<Request>)
      returns (ok: bool, went: nat, ghost ran: nat, ghost q: seq<Event>, ghost log1: seq<Event>)
      requires Orderly() && 0 < rotor <= ROTOR && Reasonable(handler)
      requires |pass.work| >= MAXRUN && PositiveWork(pass.work)
      modifies this`freeList, this`lists, this`queueHead, this`serial, this`log, this`fired, this`cycling,
               this`cyclesCount, this`virtualNow, pool
      ensures !ok ==> lists.free == []
      ensures ok <==> FiringFits(old(Here()), rotor, pass, handler)
      ensures ok ==> Orderly()
      ensures ok ==> went == PassCycles(old(Here()), rotor, pass.work).went
      ensures ok ==> Here() == PassFiring(old(Here()), rotor, pass, handler)
      ensures ok ==> PassFired(old(Here()), pass, rotor, ran, went, q, log1, Here(), handler)
      ensures ok ==> FiredInTime(old(fired), fired, virtualNow, Slack(old(Contents()), old(virtualNow)))
    {
      hide Consistent, Events, Timely, Due, LateBelow, Reasonable, PositiveWork, FiredInTime,
           IssuedBy, Slack, EventsOf, InReach, NotBefore, Asked, HeadRunning, PassCycles, Affords, Schedule, Later,
           FiringFits, PassFiring, FiredAt;
      ghost var a := Here();
      q, log1 := [], [];
      NodesCount();
      ok, went, ran := RunProcessors(rotor, pass.work);
      if !ok {
        FiringUnfit(a, rotor, pass, handler);
        return;
      }
      q, log1 := Contents(), log;
      NodesCount();
      FiringSteps(a, rotor, pass, Progress(ran, went, q), log1, handler);
      DueInTime(fired, q, virtualNow + NSECS_PER_CLOCK * went, Slack(a.pending, a.now));
      StillInReach(q, virtualNow, virtualNow + NSECS_PER_CLOCK * went);
      ok := Dispatch(NSECS_PER_CLOCK * went, handler);
    }

    /* One trip round the main loop, up to the idle check. */
    method RunPass(rotor: nat, pass: Pass, handler: Event -> seq<Request>)
      returns (ok: bool, left: nat, went: nat, ghost ran: nat)
      requires Orderly() && 0 < rotor <= ROTOR && Reasonable(handler)
      requires |pass.work| >= MAXRUN && PositiveWork(pass.work) && Positive(pass.host)
      modifies this, pool
      ensures !ok ==> lists.free == []
      ensures ok <==> PassFits(old(Here()), rotor, pass, handler)
      ensures ok ==> Orderly()
      ensures ok ==> 0 < went <= rotor && virtualNow == old(virtualNow) + NSECS_PER_CLOCK * went
      ensures ok ==> 0 < left <= ROTOR && left == NextRotor(rotor, went)
      ensures ok ==> left == if went < rotor then rotor - went else 50000
      ensures ok ==> went == PassCycles(old(Here()), rotor, pass.work).went
      ensures ok ==> Here() == PassEnd(old(Here()), rotor, pass, handler)
      ensures ok ==> FiredInTime(old(fired), fired, virtualNow, Slack(old(Contents()), old(virtualNow)))
      ensures idleCycles == old(idleCycles) && idleSlop == old(idleSlop)
      ensures ok ==> Through(old(Here()), Ran(pass, rotor, ran, went), Here(), handler)
    {
      hide Consistent, Events, Timely, Due, LateBelow, Positive, Reasonable, PositiveWork, FiredInTime, Schedule,
           IssuedBy, Slack, EventsOf, InReach, NotBefore, Asked, Through, HeadRunning, PassCycles, FiringFits,
           PassFiring, FiredAt;
      left := rotor;
      ghost var a, q, log1 := Here(), [], [];
      ok, went, ran, q, log1 := RunAndFire(rotor, pass, handler);
      if !ok {
        return;
      }
      ghost var mid := Here();
      NodesCount();
      left := rotor - went;
      if left == 0 {
        left := ROTOR;
        ok := TrySelect(0, pass.host);
        if !ok {
          return;
        }
      }
      PassThrough(a, pass, rotor, ran, went, q, log1, mid, Here(), handler);
    }

    /* How long to sleep when no processor runs, and for how long it counts as
       slept: until the next event, if that is no more than 10 ms ahead of real
       time. `waited` is the time the select is found to have taken. */
    method Sleep(r: Round) returns (slept: nat, waited: nat)
      requires Orderly()
      ensures Contents() != [] ==> virtualNow <= Contents()[0].vtime
      ensures slept == SleepTime(Contents(), virtualNow, r) && waited == SelectTime(Contents(), virtualNow, r)
      ensures Contents() != [] ==>
                var vtime := Contents()[0].vtime;
                && virtualNow + slept <= vtime
                && (vtime <= r.physical + MIN_SLEEP ==> virtualNow + slept == vtime)
                && (virtualNow + slept < vtime ==> slept == r.selected || r.physical + slept == vtime)
      ensures Contents() == [] ==> slept == waited == r.selected
      ensures Contents() != [] ==>
                var vtime := Contents()[0].vtime;
                var ahead := vtime - if virtualNow > r.physical then virtualNow else r.physical;
                if ahead > 10_000_000 then
                  waited == r.selected && slept == (if r.selected > ahead then ahead else r.selected)
                else waited == 0 && slept == vtime - virtualNow
    {
      hide Consistent, Events, Timely;
      HeadNode();
      NoneDueYet(fired, Contents(), virtualNow, log);
      if queueHead != -1 {
        var vnow, vtime := VNow(), pool[queueHead].ev.vtime;
        var wnsecs := VAhead(vnow, vtime, r.physical);
        if wnsecs > MIN_SLEEP {
          waited := r.selected;
          slept := waited;
          if slept > wnsecs {
            slept := wnsecs;
          }
        } else {
          slept, waited := vtime - vnow, 0;
        }
      } else {
        slept, waited := r.selected, r.selected;
      }
    }

    /* tryselect, once it has returned: host input is handled as of the time it
       waited, while the clock itself has not advanced yet. */
    method TrySelect(waited: nat, host: seq<Request>) returns (ok: bool)
      requires Orderly() && Positive(host)
      modifies this`freeList, this`lists, this`queueHead, this`serial, this`log, this`cycling, this`extraSelect, pool
      ensures !ok ==> lists.free == []
      ensures ok <==> |host| <= |old(lists).free|
      ensures ok ==> Orderly() && Here() == Polled(old(Here()), virtualNow + waited, host)
      ensures ok ==> NotBefore(Contents(), virtualNow + 1, virtualNow)
      ensures ok ==> KeepsBounds(old(Contents()), Contents(), virtualNow + waited)
    {
      hide Consistent, Events, Timely, Due, Positive, Schedule, IssuedBy, NotBefore, HeadRunning, InReach, KeepsBounds;
      ghost var q := Contents();
      PollingKeepsOrder(fired, Contents(), virtualNow, log, virtualNow + waited, host);
      extraSelect := waited;
      ok := RunRequests(host);
      extraSelect := 0;
      if ok {
        HeadInReach(q, Contents(), virtualNow);
      }
    }

    /* The end of a round: the time slept is credited in whole cycles, what is left
       over is kept, and virtual time advances. */
    method Credit(slept: nat, handler: Event -> seq<Request>) returns (ok: bool)
      requires Orderly() && Reasonable(handler)
      modifies this, pool
      ensures !ok ==> lists.free == []
      ensures ok <==> Affords(|old(lists).free|, Due(old(Contents()), old(virtualNow) + slept + old(idleSlop)), handler)
      ensures var time := slept + old(idleSlop);
              ok ==>
                && time == NSECS_PER_CLOCK * (idleCycles - old(idleCycles)) + idleSlop && idleCycles >= old(idleCycles)
                && Orderly()
                && Here() == FiredAt(old(fired), old(Contents()), old(log), old(virtualNow) + time,
                                     time % NSECS_PER_CLOCK, handler)
    {
      hide Consistent, Events, Timely, Due, Reasonable, Schedule, IssuedBy, Asked, HeadRunning, InReach, Affords, Later,
           FiredAt;
      ghost var p := Here();
      var tmp := slept + idleSlop;
      idleCycles := idleCycles + tmp / NSECS_PER_CLOCK;
      idleSlop := tmp % NSECS_PER_CLOCK;
      LaterStill(fired, Contents(), virtualNow, log, virtualNow + tmp);
      ok := Dispatch(tmp, handler);
      StillInReach(p.pending, p.now, virtualNow);
    }

    /* One trip round the idle loop. */
    method WaitRound(r: Round, handler: Event -> seq<Request>) returns (ok: bool, slept: nat)
      requires Orderly() && Reasonable(handler) && Positive(r.host)
      modifies this, pool
      ensures !ok ==> lists.free == []
      ensures ok <==> RoundFits(old(Here()), r, handler)
      ensures ok ==> Orderly() && Here() == RoundEnd(old(Here()), r, handler)
      // The next event is not overshot by a cycle.
      ensures ok && old(Contents()) != [] ==> virtualNow < old(Contents())[0].vtime + NSECS_PER_CLOCK
      // Time slept is idle cycles credited and slop carried over.
      ensures ok ==> slept + old(idleSlop) == NSECS_PER_CLOCK * (idleCycles - old(idleCycles)) + idleSlop
      ensures ok ==> virtualNow == old(virtualNow) + slept + old(idleSlop)
      ensures ok ==> idleCycles >= old(idleCycles)
      ensures ok ==> Through(old(Here()), Waited(r), Here(), handler)
    {
      hide Consistent, Events, Timely, Due, Positive, Reasonable, Schedule, IssuedBy, NotBefore, SleepTime,
           SelectTime, Asked, Through, HeadRunning, InReach, KeepsBounds, Affords, Later, Polled, RoundFits, RoundEnd;
      ghost var a := Here();
      NodesCount();
      var waited;
      slept, waited := Sleep(r);
      ok := TrySelect(waited, r.host);
      if !ok {
        RoundUnfit(a, r, handler);
        return;
      }
      NodesCount();
      ghost var p := Here();
      RoundSteps(a, r, slept, waited, p, handler);
      LaterStill(fired, Contents(), virtualNow, log, virtualNow + slept + idleSlop);
      ok := Credit(slept, handler);
      if ok {
        RoundThrough(a, r, p, Here(), handler);
      }
    }

    /* clock_waitirq. The windows are those of its rounds. */
    method WaitIrq(rounds: seq<Round>, handler: Event -> seq<Request>)
      returns (ok: bool, ghost slept: seq<nat>, ghost marks: seq<Mark>, ghost windows: seq<Window>)
      requires Orderly() && Reasonable(handler) && PositiveRounds(rounds)
      modifies this, pool
      ensures !ok ==> lists.free == []
      ensures ok <==> RoundsFit(old(Here()), rounds, handler)
      ensures ok ==> Orderly() && Here() == RoundsEnd(old(Here()), rounds, handler)
      ensures ok ==> |slept| == |rounds|
      ensures ok ==> Sum(slept) + old(idleSlop) == NSECS_PER_CLOCK * (idleCycles - old(idleCycles)) + idleSlop
      ensures ok ==> virtualNow == old(virtualNow) + Advanced(slept, old(idleSlop))
      ensures ok ==> Course(marks, windows, handler) && Waits(windows, rounds)
      ensures ok ==> marks[0] == old(Here()) && marks[|windows|] == Here()
    {
      hide Valid, Timely, Due, Reasonable, Positive, Sum, Advanced, SlopAfter, Through, Course, RunningTo, InReach,
           RoundsFit, RoundsEnd, RoundEnd, RoundFits;
      var i := 0;
      ghost var a := Here();
      slept, marks, windows := [], [a], [];
      NothingSlept(idleSlop);
      CourseStart(a, handler);
      NoRounds(a, rounds[..0], handler);
      while i < |rounds|
        invariant i <= |rounds| && |slept| == i == |windows| == |marks| - 1
        invariant Orderly() && RoundsFit(a, rounds[..i], handler) && Here() == RoundsEnd(a, rounds[..i], handler)
        invariant Sum(slept) + old(idleSlop) == NSECS_PER_CLOCK * (idleCycles - old(idleCycles)) + idleSlop
        invariant virtualNow == old(virtualNow) + Advanced(slept, old(idleSlop))
        invariant idleSlop == SlopAfter(slept, old(idleSlop))
        invariant Course(marks, windows, handler) && marks[0] == a && marks[i] == Here()
        invariant Waits(windows, rounds[..i])
      {
        var t;
        RoundsMore(a, rounds, i, handler);
        ok, t := WaitRound(rounds[i], handler);
        if !ok {
          RoundsUnfit(a, rounds, i + 1, handler);
          return;
        }
        AdvancedMore(slept, old(idleSlop), t);
        CourseMore(marks, windows, handler, Waited(rounds[i]), Here());
        slept, marks, windows := slept + [t], marks + [Here()], windows + [Waited(rounds[i])];
        i := i + 1;
      }
      assert rounds[..i] == rounds;
      return true, slept, marks, windows;
    }

    /** The main loop. However long the machine runs, what has fired and what is
        pending are together the stable sort of everything ever scheduled, and the
        rotor never underflows. The windows of its passes and rounds tile the time it
        ran, and every event was fired punctually for its window. It fails exactly if
        at some point more events are outstanding than there are nodes. */
    method RunLoop(passes: seq<Pass>, handler: Event -> seq<Request>)
      returns (ok: bool, rotor: nat, ghost marks: seq<Mark>, ghost windows: seq<Window>)
      requires Orderly() && Reasonable(handler) && EnoughWork(passes)
      requires forall i :: 0 <= i < |passes| ==>
                 PositiveWork(passes[i].work) && Positive(passes[i].host) && PositiveRounds(passes[i].rounds)
      modifies this, pool
      ensures !ok ==> lists.free == []
      ensures ok <==> LoopFits(old(Here()), passes, handler)
      ensures 0 < rotor <= ROTOR
      ensures ok ==> Orderly() && (Here(), rotor) == LoopEnd(old(Here()), passes, handler)
      ensures ok ==> Course(marks, windows, handler) && Enacts(windows, passes) && Rotated(windows)
      ensures ok ==> marks[0] == old(Here()) && marks[|windows|] == Here()
      ensures ok && passes != [] ==> virtualNow > old(virtualNow)
    {
      hide Valid, Timely, Due, Reasonable, Positive, PositiveWork, PositiveRounds, Slack, Through, Course, RunningTo,
           InReach, RotorAfter, Rotated, Enacts, Waits, Advanced, LoopFits, LoopEnd, PassFits, PassEnd, PassCycles,
           RoundsFit, RoundsEnd;
      var i := 0;
      ghost var a := Here();
      rotor, marks, windows := ROTOR, [a], [];
      CourseStart(a, handler);
      NothingEnacted(passes[..0]);
      NoPasses(a, passes[..0], handler);
      while i < |passes|
        invariant i <= |passes| && 0 < rotor <= ROTOR && |marks| == |windows| + 1
        invariant Orderly() && LoopFits(a, passes[..i], handler)
        invariant (Here(), rotor) == LoopEnd(a, passes[..i], handler)
        invariant virtualNow >= old(virtualNow) + i
        invariant Course(marks, windows, handler) && marks[0] == a && marks[|windows|] == Here()
        invariant Enacts(windows, passes[..i]) && Rotated(windows) && rotor == RotorAfter(windows)
      {
        var went;
        ghost var slept, idle, between;
        var left;
        ghost var ran;
        LoopMore(a, passes, i, handler);
        ok, left, went, ran := RunPass(rotor, passes[i], handler);
        if !ok {
          LoopUnfit(a, passes, i + 1, handler);
          return;
        }
        ghost var w := Ran(passes[i], rotor, ran, went);
        ghost var at := Here();
        rotor := left;
        ok, slept, between, idle := WaitIrq(passes[i].rounds, handler);
        if !ok {
          LoopUnfit(a, passes, i + 1, handler);
          return;
        }
        PassAndRounds(marks, windows, w, at, between, idle, handler, passes, i);
        marks, windows := marks + between, windows + [w] + idle;
        i := i + 1;
      }
      assert passes[..i] == passes;
      return true, rotor, marks, windows;
    }
  }
}
