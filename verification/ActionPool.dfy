/**
 The pool of timer actions: 1024 nodes linked by indices (-1 is NULL) into a
 free list and a queue, with the nodes taken off one list and not yet put on
 the other in flight. Each change of the pool is a change of one or two nodes;
 the lemmas say what it does to the lists that run through it.
 */
module ActionPool {
  import opened EventQueue

  const MAXACTIONS: nat := 1024

  datatype TimedAction = TimedAction(next: int, ev: Event, runningTo: bool)

  /* The i-th node of a list, or NULL past its end. */
  function Nth(q: seq<nat>, i: nat): int {
    if i < |q| then q[i] else -1
  }

  /* `q` lists the nodes of the list that starts at `head`. */
  ghost predicate Chain(p: seq<TimedAction>, head: int, q: seq<nat>) {
    && head == Nth(q, 0)
    && forall i :: 0 <= i < |q| ==> q[i] < |p| && p[q[i]].next == Nth(q, i + 1)
  }

  ghost predicate Distinct(s: seq<nat>) {
    forall i, j :: 0 <= i < j < |s| ==> s[i] != s[j]
  }

  /* Every node is in exactly one of the three places, once. */
  ghost predicate Partition(queue: seq<nat>, flight: seq<nat>, free: seq<nat>) {
    var all := queue + flight + free;
    && |all| == MAXACTIONS
    && Distinct(all)
    && forall i :: 0 <= i < |all| ==> all[i] < MAXACTIONS
  }

  ghost predicate Within(q: seq<nat>, n: nat) {
    forall i :: 0 <= i < |q| ==> q[i] < n
  }

  function Events(p: seq<TimedAction>, q: seq<nat>): (r: seq<Event>)
    requires Within(q, |p|)
    ensures |r| == |q| && forall i :: 0 <= i < |q| ==> r[i] == p[q[i]].ev
  {
    seq(|q|, i requires 0 <= i < |q| => p[q[i]].ev)
  }

  /* Writing a node that is not on a list leaves the list alone. */
  lemma ListFrame(p: seq<TimedAction>, head: int, q: seq<nat>, n: nat, x: TimedAction)
    requires Chain(p, head, q) && n < |p| && n !in q
    ensures Chain(p[n := x], head, q)
  {
    forall i | 0 <= i < |q|
      ensures p[n := x][q[i]] == p[q[i]]
    {
      assert q[i] in q;
    }
  }

  lemma EventsFrame(p: seq<TimedAction>, q: seq<nat>, n: nat, x: TimedAction)
    requires Within(q, |p|) && n < |p| && (n !in q || x.ev == p[n].ev)
    ensures Events(p[n := x], q) == Events(p, q)
  {
    forall i | 0 <= i < |q|
      ensures p[n := x][q[i]].ev == p[q[i]].ev
    {
      assert q[i] in q;
    }
  }

  /* The lists do not meet, and the last node in flight is on neither. */
  lemma Apart(queue: seq<nat>, flight: seq<nat>, free: seq<nat>)
    requires Partition(queue, flight, free)
    ensures Within(queue, MAXACTIONS) && Within(flight, MAXACTIONS) && Within(free, MAXACTIONS)
    ensures Distinct(queue)
    ensures forall i, j :: 0 <= i < |queue| && 0 <= j < |free| ==> queue[i] != free[j]
    ensures flight != [] ==> flight[|flight| - 1] !in queue && flight[|flight| - 1] !in free
  {
    var all := queue + flight + free;
    var a, b := |queue|, |queue| + |flight|;
    assert forall i :: 0 <= i < a ==> all[i] == queue[i];
    assert forall i :: 0 <= i < |flight| ==> all[a + i] == flight[i];
    assert forall j :: 0 <= j < |free| ==> all[b + j] == free[j];
  }

  /* Moving one element of a sequence forward keeps its elements distinct. */
  lemma MoveForward(s: seq<nat>, i: nat, j: nat, moved: seq<nat>)
    requires i <= j < |s| && moved == s[..i] + [s[j]] + s[i..j] + s[j + 1..]
    requires Distinct(s) && Within(s, MAXACTIONS)
    ensures Distinct(moved) && Within(moved, MAXACTIONS) && |moved| == |s|
  {
    assert forall x :: 0 <= x < i ==> moved[x] == s[x];
    assert moved[i] == s[j];
    assert forall x :: i < x <= j ==> moved[x] == s[x - 1];
    assert forall x :: j < x < |s| ==> moved[x] == s[x];
  }

  lemma AllocPartition(queue: seq<nat>, flight: seq<nat>, free: seq<nat>)
    requires Partition(queue, flight, free) && free != []
    ensures Partition(queue, flight + [free[0]], free[1..])
  {
    assert queue + flight + free == queue + (flight + [free[0]]) + free[1..];
  }

  lemma FreePartition(queue: seq<nat>, flight: seq<nat>, free: seq<nat>)
    requires Partition(queue, flight, free) && flight != []
    ensures Partition(queue, flight[..|flight| - 1], [flight[|flight| - 1]] + free)
  {
    assert queue + flight + free
        == queue + flight[..|flight| - 1] + ([flight[|flight| - 1]] + free);
  }

  lemma PopPartition(queue: seq<nat>, flight: seq<nat>, free: seq<nat>)
    requires Partition(queue, flight, free) && queue != []
    ensures Partition(queue[1..], flight + [queue[0]], free)
  {
    var all, moved := queue + flight + free, queue[1..] + (flight + [queue[0]]) + free;
    var k := |queue| + |flight|;
    assert forall x :: 0 <= x < k - 1 ==> moved[x] == all[x + 1];
    assert moved[k - 1] == all[0];
    assert forall x :: k <= x < |all| ==> moved[x] == all[x];
  }

  lemma LinkPartition(queue: seq<nat>, flight: seq<nat>, free: seq<nat>, k: nat)
    requires Partition(queue, flight, free) && flight != [] && k <= |queue|
    ensures Partition(InsertNode(queue, k, flight[|flight| - 1]), flight[..|flight| - 1], free)
  {
    var all, n := queue + flight + free, flight[|flight| - 1];
    var moved := InsertNode(queue, k, n) + flight[..|flight| - 1] + free;
    var j := |queue| + |flight| - 1;
    assert all[..k] == queue[..k] && all[j] == n && all[j + 1..] == free;
    assert all[k..j] == queue[k..] + flight[..|flight| - 1];
    assert moved == all[..k] + [all[j]] + all[k..j] + all[j + 1..];
    MoveForward(all, k, j, moved);
  }

  /* The queue of `p`, in order, with only its head ever run to. */
  ghost predicate GoodQueue(p: seq<TimedAction>, head: int, queue: seq<nat>, serial: nat) {
    && Chain(p, head, queue)
    && Ordered(Events(p, queue)) && Issued(Events(p, queue), serial)
    && (forall i :: 0 < i < |queue| ==> !p[queue[i]].runningTo)
  }

  lemma QueueFrame(p: seq<TimedAction>, head: int, queue: seq<nat>, serial: nat, n: nat, x: TimedAction)
    requires GoodQueue(p, head, queue, serial) && n < |p| && n !in queue
    ensures GoodQueue(p[n := x], head, queue, serial)
    ensures Events(p[n := x], queue) == Events(p, queue)
    ensures queue != [] ==> p[n := x][queue[0]] == p[queue[0]]
  {
    ListFrame(p, head, queue, n, x);
    EventsFrame(p, queue, n, x);
    assert forall i :: 0 <= i < |queue| ==> queue[i] in queue;
  }

  lemma QueuePop(p: seq<TimedAction>, head: int, queue: seq<nat>, serial: nat)
    requires GoodQueue(p, head, queue, serial) && queue != []
    ensures GoodQueue(p, p[queue[0]].next, queue[1..], serial)
    ensures Events(p, queue) == [p[queue[0]].ev] + Events(p, queue[1..])
  {
    assert forall i :: 0 <= i < |queue[1..]| ==> queue[1..][i] == queue[i + 1];
  }

  function InsertNode(queue: seq<nat>, k: nat, n: nat): seq<nat>
    requires k <= |queue|
  {
    queue[..k] + [n] + queue[k..]
  }

  /* The pool after node `n`, holding `e`, is linked in as the k-th of the queue. */
  function Linked(p: seq<TimedAction>, queue: seq<nat>, k: nat, n: nat, e: Event): (r: seq<TimedAction>)
    requires n < |p| && k <= |queue| && Within(queue, |p|)
    ensures |r| == |p|
  {
    var p1 := p[n := TimedAction(Nth(queue, k), e, false)];
    if k > 0 then p1[queue[k - 1] := p1[queue[k - 1]].(next := n)]
    else if queue != [] then p1[queue[0] := p1[queue[0]].(runningTo := false)]
    else p1
  }

  /* What one node of the queue becomes. */
  lemma LinkedNode(p: seq<TimedAction>, queue: seq<nat>, k: nat, n: nat, e: Event, i: nat)
    requires n < |p| && n !in queue && k <= |queue| && Within(queue, |p|) && Distinct(queue)
    requires i < |queue|
    ensures var x, y := p[queue[i]], Linked(p, queue, k, n, e)[queue[i]];
            y == x.(next := if i + 1 == k then n else x.next,
                    runningTo := if i == 0 && k == 0 then false else x.runningTo)
  {
    assert queue[i] in queue;
  }

  lemma LinkedNew(p: seq<TimedAction>, queue: seq<nat>, k: nat, n: nat, e: Event)
    requires n < |p| && n !in queue && k <= |queue| && Within(queue, |p|)
    ensures Linked(p, queue, k, n, e)[n] == TimedAction(Nth(queue, k), e, false)
  {
    if k > 0 {
      assert queue[k - 1] in queue;
    } else if queue != [] {
      assert queue[0] in queue;
    }
  }

  lemma LinkedChain(p: seq<TimedAction>, head: int, queue: seq<nat>, k: nat, n: nat, e: Event)
    requires Chain(p, head, queue) && n < |p| && n !in queue && k <= |queue| && Distinct(queue)
    ensures Chain(Linked(p, queue, k, n, e), if k == 0 then n else head, InsertNode(queue, k, n))
  {
    var r, q := Linked(p, queue, k, n, e), InsertNode(queue, k, n);
    LinkedNew(p, queue, k, n, e);
    forall i | 0 <= i < |q|
      ensures q[i] < |r| && r[q[i]].next == Nth(q, i + 1)
    {
      if i < k {
        LinkedNode(p, queue, k, n, e, i);
      } else if i > k {
        LinkedNode(p, queue, k, n, e, i - 1);
      }
    }
  }

  /* The event of the i-th node of the queue after the insertion. */
  lemma LinkedEvent(p: seq<TimedAction>, queue: seq<nat>, k: nat, n: nat, e: Event, i: nat)
    requires n < |p| && n !in queue && k <= |queue| && Within(queue, |p|) && Distinct(queue) && i <= |queue|
    ensures InsertNode(queue, k, n)[i] < |p|
    ensures Linked(p, queue, k, n, e)[InsertNode(queue, k, n)[i]].ev
         == (if i < k then p[queue[i]].ev else if i == k then e else p[queue[i - 1]].ev)
  {
    hide Linked, Distinct;
    if i < k {
      LinkedNode(p, queue, k, n, e, i);
    } else if i == k {
      LinkedNew(p, queue, k, n, e);
    } else {
      LinkedNode(p, queue, k, n, e, i - 1);
    }
  }

  lemma LinkedEvents(p: seq<TimedAction>, queue: seq<nat>, k: nat, n: nat, e: Event)
    requires n < |p| && n !in queue && k <= |queue| && Within(queue, |p|) && Distinct(queue)
    requires k < |queue| ==> e.vtime < p[queue[k]].ev.vtime
    requires forall i :: 0 <= i < k ==> p[queue[i]].ev.vtime <= e.vtime
    ensures Within(InsertNode(queue, k, n), |p|)
    ensures Events(Linked(p, queue, k, n, e), InsertNode(queue, k, n)) == Insert(Events(p, queue), e)
  {
    hide Insert, Linked, Events, Distinct;
    var r, q, es := Linked(p, queue, k, n, e), InsertNode(queue, k, n), Events(p, queue);
    InsertAt(es, e, k);
    forall i | 0 <= i < |q|
      ensures q[i] < |p| && r[q[i]].ev == (es[..k] + [e] + es[k..])[i]
    {
      LinkedEvent(p, queue, k, n, e, i);
    }
  }

  lemma LinkedFlags(p: seq<TimedAction>, queue: seq<nat>, k: nat, n: nat, e: Event)
    requires n < |p| && n !in queue && k <= |queue| && Within(queue, |p|) && Distinct(queue)
    requires forall i :: 0 < i < |queue| ==> !p[queue[i]].runningTo
    ensures var r, q := Linked(p, queue, k, n, e), InsertNode(queue, k, n);
            && r[q[0]].runningTo == (k > 0 && p[queue[0]].runningTo)
            && forall i :: 0 < i < |q| ==> q[i] < |r| && !r[q[i]].runningTo
  {
    var r, q := Linked(p, queue, k, n, e), InsertNode(queue, k, n);
    LinkedNew(p, queue, k, n, e);
    if k > 0 {
      LinkedNode(p, queue, k, n, e, 0);
    }
    forall i | 0 < i < |q|
      ensures q[i] < |r| && !r[q[i]].runningTo
    {
      if i < k {
        LinkedNode(p, queue, k, n, e, i);
      } else if i > k {
        LinkedNode(p, queue, k, n, e, i - 1);
      }
    }
  }

  lemma LinkedQueue(p: seq<TimedAction>, head: int, queue: seq<nat>, k: nat, n: nat, e: Event)
    requires GoodQueue(p, head, queue, e.serial) && n < |p| && n !in queue && k <= |queue| && Distinct(queue)
    requires forall i :: 0 <= i < k ==> p[queue[i]].ev.vtime <= e.vtime
    requires k < |queue| ==> e.vtime < p[queue[k]].ev.vtime
    ensures var r, q := Linked(p, queue, k, n, e), InsertNode(queue, k, n);
            && GoodQueue(r, if k == 0 then n else head, q, e.serial + 1)
            && Events(r, q) == Insert(Events(p, queue), e)
            && r[q[0]].runningTo == (k > 0 && p[queue[0]].runningTo)
  {
    LinkedChain(p, head, queue, k, n, e);
    LinkedEvents(p, queue, k, n, e);
    LinkedFlags(p, queue, k, n, e);
    InsertOrdered(Events(p, queue), e);
  }

  lemma LinkedElsewhere(p: seq<TimedAction>, queue: seq<nat>, k: nat, n: nat, e: Event, head: int, free: seq<nat>)
    requires n < |p| && n !in free && k <= |queue| && Within(queue, |p|) && Chain(p, head, free)
    requires forall i, j :: 0 <= i < |queue| && 0 <= j < |free| ==> queue[i] != free[j]
    ensures Chain(Linked(p, queue, k, n, e), head, free)
  {
    assert forall j :: 0 <= j < |free| ==> free[j] in free;
  }

  /* Where the nodes are, in list order. */
  datatype Lists = Lists(queue: seq<nat>, flight: seq<nat>, free: seq<nat>) {
    function Flying(): nat
      requires flight != []
    {
      flight[|flight| - 1]
    }
    function Allocated(): Lists
      requires free != []
    {
      Lists(queue, flight + [free[0]], free[1..])
    }
    function Freed(): Lists
      requires flight != []
    {
      Lists(queue, flight[..|flight| - 1], [Flying()] + free)
    }
    function Popped(): Lists
      requires queue != []
    {
      Lists(queue[1..], flight + [queue[0]], free)
    }
    function Queued(k: nat): Lists
      requires flight != [] && k <= |queue|
    {
      Lists(InsertNode(queue, k, Flying()), flight[..|flight| - 1], free)
    }
  }

  /* The processors have been told they may run until the event at `head`. */
  predicate HeadRunning(p: seq<TimedAction>, head: int) {
    0 <= head < |p| && p[head].runningTo
  }

  ghost predicate Consistent(p: seq<TimedAction>, queueHead: int, freeList: int, ls: Lists, serial: nat) {
    && |p| == MAXACTIONS
    && Partition(ls.queue, ls.flight, ls.free)
    && GoodQueue(p, queueHead, ls.queue, serial)
    && Chain(p, freeList, ls.free)
  }

  lemma AllocConsistent(p: seq<TimedAction>, queueHead: int, freeList: int, ls: Lists, serial: nat)
    requires Consistent(p, queueHead, freeList, ls, serial) && ls.free != []
    ensures Consistent(p, queueHead, p[ls.free[0]].next, ls.Allocated(), serial)
  {
    AllocPartition(ls.queue, ls.flight, ls.free);
  }

  lemma FlyingApart(p: seq<TimedAction>, queueHead: int, freeList: int, ls: Lists, serial: nat)
    requires Consistent(p, queueHead, freeList, ls, serial) && ls.flight != []
    ensures ls.Flying() < |p| && ls.Flying() !in ls.queue && ls.Flying() !in ls.free && Within(ls.queue, |p|)
  {
    Apart(ls.queue, ls.flight, ls.free);
  }

  lemma FreeConsistent(p: seq<TimedAction>, queueHead: int, freeList: int, ls: Lists, serial: nat, after: seq<TimedAction>)
    requires Consistent(p, queueHead, freeList, ls, serial) && ls.flight != [] && ls.Flying() < |p|
    requires after == p[ls.Flying() := p[ls.Flying()].(next := freeList)]
    ensures Consistent(after, queueHead, ls.Flying(), ls.Freed(), serial)
    ensures Events(after, ls.queue) == Events(p, ls.queue)
    ensures ls.queue != [] ==> after[ls.queue[0]] == p[ls.queue[0]]
  {
    var n := ls.Flying();
    FlyingApart(p, queueHead, freeList, ls, serial);
    FreePartition(ls.queue, ls.flight, ls.free);
    ListFrame(p, freeList, ls.free, n, after[n]);
    QueueFrame(p, queueHead, ls.queue, serial, n, after[n]);
  }

  lemma PopConsistent(p: seq<TimedAction>, queueHead: int, freeList: int, ls: Lists, serial: nat)
    requires Consistent(p, queueHead, freeList, ls, serial) && ls.queue != []
    ensures Consistent(p, p[ls.queue[0]].next, freeList, ls.Popped(), serial)
    ensures Events(p, ls.queue) == [p[ls.queue[0]].ev] + Events(p, ls.queue[1..])
  {
    PopPartition(ls.queue, ls.flight, ls.free);
    QueuePop(p, queueHead, ls.queue, serial);
  }

  lemma PopRunning(p: seq<TimedAction>, queueHead: int, freeList: int, ls: Lists, serial: nat)
    requires Consistent(p, queueHead, freeList, ls, serial) && ls.queue != []
    ensures !HeadRunning(p, p[ls.queue[0]].next)
  {
    hide Partition, Ordered, Issued, Events;
    assert |ls.queue| > 1 ==> p[ls.queue[0]].next == ls.queue[1];
  }

  lemma LinkConsistent(p: seq<TimedAction>, queueHead: int, freeList: int, ls: Lists, e: Event, k: nat)
    requires Consistent(p, queueHead, freeList, ls, e.serial) && ls.flight != [] && ls.Flying() < |p|
    requires k <= |ls.queue|
    requires forall i :: 0 <= i < k ==> Events(p, ls.queue)[i].vtime <= e.vtime
    requires k < |ls.queue| ==> e.vtime < Events(p, ls.queue)[k].vtime
    ensures var n, after := ls.Flying(), Linked(p, ls.queue, k, ls.Flying(), e);
            && Consistent(after, if k == 0 then n else queueHead, freeList, ls.Queued(k), e.serial + 1)
            && Events(after, ls.Queued(k).queue) == Insert(Events(p, ls.queue), e)
  {
    hide Partition, Linked, InsertNode, Events, Insert, Ordered, Issued;
    assert forall i :: 0 <= i < k ==> Events(p, ls.queue)[i].vtime <= e.vtime;
    Apart(ls.queue, ls.flight, ls.free);
    LinkPartition(ls.queue, ls.flight, ls.free, k);
    LinkedQueue(p, queueHead, ls.queue, k, ls.Flying(), e);
    LinkedElsewhere(p, ls.queue, k, ls.Flying(), e, freeList, ls.free);
  }

  /* The flag of the head after the insertion, and which insertions clear it. */
  lemma LinkRunning(p: seq<TimedAction>, queueHead: int, freeList: int, ls: Lists, e: Event, k: nat)
    requires Consistent(p, queueHead, freeList, ls, e.serial) && ls.flight != [] && ls.Flying() < |p|
    requires k <= |ls.queue|
    requires k > 0 ==> Events(p, ls.queue)[0].vtime <= e.vtime
    requires k == 0 && ls.queue != [] ==> e.vtime < Events(p, ls.queue)[0].vtime
    ensures HeadRunning(p, queueHead) ==> ls.queue != []
    ensures HeadRunning(Linked(p, ls.queue, k, ls.Flying(), e), if k == 0 then ls.Flying() else queueHead)
         == (HeadRunning(p, queueHead) && Events(p, ls.queue)[0].vtime <= e.vtime)
    ensures (HeadRunning(p, queueHead) && k == 0)
         == (HeadRunning(p, queueHead) && e.vtime < Events(p, ls.queue)[0].vtime)
  {
    hide Partition, Linked, Ordered, Issued, Events;
    Apart(ls.queue, ls.flight, ls.free);
    LinkedNew(p, ls.queue, k, ls.Flying(), e);
    if k > 0 {
      LinkedNode(p, ls.queue, k, ls.Flying(), e, 0);
    }
  }

  lemma QueueNode(p: seq<TimedAction>, queueHead: int, freeList: int, ls: Lists, serial: nat, k: nat)
    requires Consistent(p, queueHead, freeList, ls, serial) && k <= |ls.queue|
    ensures queueHead == Nth(ls.queue, 0)
    ensures k < |ls.queue| ==>
              && ls.queue[k] < |p|
              && p[ls.queue[k]].next == Nth(ls.queue, k + 1)
              && p[ls.queue[k]].ev == Events(p, ls.queue)[k]
  {
  }

  /* Before the free list is built every node is in flight. */
  function AllFlying(): (ls: Lists) {
    Lists([], seq(MAXACTIONS, i => if i < MAXACTIONS then MAXACTIONS - 1 - i else 0), [])
  }

  lemma InitConsistent(p: seq<TimedAction>)
    requires |p| == MAXACTIONS
    ensures Consistent(p, -1, -1, AllFlying(), 0) && Events(p, AllFlying().queue) == []
  {
  }

  lemma HeadFlag(p: seq<TimedAction>, queueHead: int, freeList: int, ls: Lists, serial: nat, after: seq<TimedAction>)
    requires Consistent(p, queueHead, freeList, ls, serial) && ls.queue != []
    requires 0 <= queueHead < |p| && after == p[queueHead := p[queueHead].(runningTo := true)]
    ensures Consistent(after, queueHead, freeList, ls, serial)
    ensures Events(after, ls.queue) == Events(p, ls.queue)
  {
    Apart(ls.queue, ls.flight, ls.free);
    assert queueHead == ls.queue[0];
    forall i | 0 <= i < |ls.queue|
      ensures after[ls.queue[i]] == if i == 0 then after[queueHead] else p[ls.queue[i]]
    {
      assert i != 0 ==> ls.queue[i] != ls.queue[0];
    }
    assert forall i :: 0 <= i < |ls.free| ==> ls.free[i] != queueHead;
    EventsFrame(p, ls.queue, queueHead, after[queueHead]);
  }
}
