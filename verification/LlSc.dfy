/**
 Load-linked and store-conditional, as a comparison of values: LL notes the
 address and the value it loaded, SC stores if the word still has that value.
 Any number of processors take turns, one instruction at a time.
 */
module LlSc {
  import opened Words

  /* ll_active, ll_addr, ll_value. Addresses count words; those at or past the
     end of memory are ones where an access takes an exception. */
  datatype Link = Link(active: bool, addr: nat, value: word)

  datatype Machine = Machine(mem: seq<word>, links: seq<Link>)

  datatype Outcome = Stored | Failed | Excepted

  function Cleared(m: Machine, c: nat): Machine
    requires c < |m.links|
  {
    m.(links := m.links[c := m.links[c].(active := false)])
  }

  function Linked(m: Machine, c: nat, a: nat): Machine
    requires c < |m.links|
  {
    if a < |m.mem| then m.(links := m.links[c := Link(true, a, m.mem[a])]) else Cleared(m, c)
  }

  predicate Holds(m: Machine, c: nat, a: nat)
    requires c < |m.links|
  {
    m.links[c].active && m.links[c].addr == a
  }

  function Conditioned(m: Machine, c: nat, a: nat, val: word): (Machine, Outcome)
    requires c < |m.links|
  {
    if !Holds(m, c, a) then (m, Failed)
    else if a >= |m.mem| then (Cleared(m, c), Excepted)
    else if m.mem[a] != m.links[c].value then (m, Failed)
    else (m.(mem := m.mem[a := val]), Stored)
  }

  /** LL notes where it read and what; an SC stores if and only if the last LL that
      completed, with no exception since, was to the same address and the word is still
      what that read; and nothing else in memory changes. */
  lemma ScExactly(m: Machine, c: nat, a: nat, b: nat, val: word)
    requires c < |m.links| && a < |m.mem| && b < |m.mem|
    ensures |Linked(m, c, b).links| == |m.links|
    ensures Linked(m, c, b).mem == m.mem
    ensures Conditioned(m, c, a, val).1.Stored? <==>
              m.links[c].active && m.links[c].addr == a && m.links[c].value == m.mem[a]
    ensures Conditioned(m, c, a, val).0.mem == if Conditioned(m, c, a, val).1.Stored? then m.mem[a := val] else m.mem
    ensures Conditioned(Linked(m, c, b), c, a, val).1 == if a == b then Stored else Failed
    ensures Conditioned(Cleared(m, c), c, a, val).1.Failed?
  {
  }

  class Processors {
    const mem: array<word>
    const links: array<Link>

    constructor (words: nat, ncpus: nat)
      ensures fresh(mem) && fresh(links) && mem.Length == words && links.Length == ncpus
      ensures forall c :: 0 <= c < ncpus ==> !links[c].active
    {
      mem := new word[words](_ => 0);
      links := new Link[ncpus](_ => Link(false, 0, 0));
    }

    ghost function View(): Machine
      reads mem, links
    {
      Machine(mem[..], links[..])
    }

    /* exception(), as far as the link is concerned. */
    method Exception(c: nat)
      requires c < links.Length
      modifies links
      ensures View() == Cleared(old(View()), c)
    {
      links[c] := links[c].(active := false);
    }

    method DoMem(c: nat, a: nat, val: word, iswrite: bool) returns (ok: bool, out: word)
      requires c < links.Length
      modifies links, mem
      ensures ok <==> a < mem.Length
      ensures !ok ==> View() == Cleared(old(View()), c)
      ensures ok ==> View() == if iswrite then old(View()).(mem := old(mem[..])[a := val]) else old(View())
      ensures ok ==> out == if iswrite then val else mem[a]
    {
      out := val;
      ok := a < mem.Length;
      if !ok {
        Exception(c);
      } else if iswrite {
        mem[a] := val;
      } else {
        out := mem[a];
      }
    }

    method Ll(c: nat, a: nat) returns (ok: bool, rt: word)
      requires c < links.Length
      modifies links, mem
      ensures View() == Linked(old(View()), c, a)
      ensures ok <==> a < mem.Length
      ensures ok ==> rt == old(mem[..])[a]
    {
      ok, rt := DoMem(c, a, 0, false);
      if ok {
        links[c] := Link(true, a, rt);
      }
    }

    method Sc(c: nat, a: nat, rt: word) returns (r: Outcome)
      requires c < links.Length
      modifies links, mem
      ensures (View(), r) == Conditioned(old(View()), c, a, rt)
    {
      if !links[c].active {
        return Failed;
      }
      if links[c].addr != a {
        return Failed;
      }
      var ok, temp := DoMem(c, a, 0, false);
      if !ok {
        return Excepted;
      }
      if temp != links[c].value {
        return Failed;
      }
      ok, temp := DoMem(c, a, rt, true);
      return if ok then Stored else Excepted;
    }
  }

  // ------------------------------------------------------------------
  // Runs of threads

  /* The threads, and the interrupt handlers, that take turns on the
     processors, each with the value its last LL put in a register; and for
     each processor the thread that did the last LL there. */
  datatype Run = Run(m: Machine, regs: seq<word>, owner: seq<nat>)

  datatype Step =
    | LoadLinked(c: nat, t: nat, a: nat)
    | StoreConditional(c: nat, t: nat, a: nat, op: word -> word)   // stores op of what t loaded
    | Interrupt(c: nat)
    | PlainStore(a: nat, val: word)

  ghost predicate WellFormed(r: Run) {
    |r.owner| == |r.m.links| && forall c :: 0 <= c < |r.owner| ==> r.owner[c] < |r.regs|
  }

  predicate InRange(r: Run, s: Step) {
    match s
    case LoadLinked(c, t, _) => c < |r.m.links| && t < |r.regs|
    case StoreConditional(c, t, _, _) => c < |r.m.links| && t < |r.regs|
    case Interrupt(c) => c < |r.m.links|
    case PlainStore(_, _) => true
  }

  function Did(r: Run, s: Step): Run
    requires WellFormed(r) && InRange(r, s)
  {
    match s
    case LoadLinked(c, t, a) =>
      r.(m := Linked(r.m, c, a),
         regs := if a < |r.m.mem| then r.regs[t := r.m.mem[a]] else r.regs,
         owner := r.owner[c := t])
    case StoreConditional(c, t, a, op) => r.(m := Conditioned(r.m, c, a, op(r.regs[t])).0)
    case Interrupt(c) => r.(m := Cleared(r.m, c))
    case PlainStore(a, val) => if a < |r.m.mem| then r.(m := r.m.(mem := r.m.mem[a := val])) else r
  }

  /* This step is a store to x, and it happens. */
  predicate Stores(r: Run, s: Step, x: nat)
    requires WellFormed(r) && InRange(r, s)
  {
    s.StoreConditional? && s.a == x && Conditioned(r.m, s.c, s.a, s.op(r.regs[s.t])).1.Stored?
  }

  /** A store-conditional that succeeds is an atomic update of the word, whatever
      the operation, exactly when what the thread loaded is the value noted in
      the link. */
  lemma AtomicExactly(r: Run, c: nat, t: nat, a: nat)
    requires WellFormed(r) && c < |r.m.links| && t < |r.regs| && a < |r.m.mem|
    requires Holds(r.m, c, a) && r.m.mem[a] == r.m.links[c].value
    ensures (forall op: word -> word ::
               Did(r, StoreConditional(c, t, a, op)).m.mem[a] == op(r.m.mem[a]))
       <==> r.regs[t] == r.m.links[c].value
  {
    var same: word -> word := x => x;
    assert Did(r, StoreConditional(c, t, a, same)).m.mem[a] == r.regs[t];
  }

  /* A thread changes processors, or is resumed after a handler that used LL,
     only with the link cleared by an exception in between; and the words in
     `shared` are stored to by SC alone. */
  ghost predicate Legal(r: Run, s: Step, shared: set<nat>) {
    InRange(r, s) &&
    match s
    case LoadLinked(c, t, _) =>
      forall d :: 0 <= d < |r.m.links| && d < |r.owner| && d != c && r.owner[d] == t ==> !r.m.links[d].active
    case StoreConditional(c, t, _, _) => r.m.links[c].active && c < |r.owner| ==> r.owner[c] == t
    case Interrupt(_) => true
    case PlainStore(a, _) => a !in shared
  }

  /* Every live link notes what its thread loaded. */
  ghost predicate Coherent(r: Run) {
    && WellFormed(r)
    && forall c :: 0 <= c < |r.owner| && r.m.links[c].active ==> r.regs[r.owner[c]] == r.m.links[c].value
  }

  lemma StepCoherent(r: Run, s: Step, shared: set<nat>)
    requires Coherent(r) && Legal(r, s, shared)
    ensures Coherent(Did(r, s)) && |Did(r, s).m.mem| == |r.m.mem|
  {
  }

  lemma StepUpdates(r: Run, s: Step, shared: set<nat>, x: nat)
    requires Coherent(r) && Legal(r, s, shared) && x in shared && x < |r.m.mem|
    ensures Did(r, s).m.mem[x] == if Stores(r, s, x) then s.op(r.m.mem[x]) else r.m.mem[x]
  {
  }

  function After(r: Run, steps: seq<Step>, shared: set<nat>): Run
    requires Coherent(r) && LegalRun(r, steps, shared)
    decreases |steps|
  {
    if steps == [] then r
    else StepCoherent(r, steps[0], shared); After(Did(r, steps[0]), steps[1..], shared)
  }

  ghost predicate LegalRun(r: Run, steps: seq<Step>, shared: set<nat>)
    requires Coherent(r)
    decreases |steps|
  {
    steps == []
    || (Legal(r, steps[0], shared)
        && (StepCoherent(r, steps[0], shared); LegalRun(Did(r, steps[0]), steps[1..], shared)))
  }

  /* The operations of the store-conditionals to x that succeed, in order. */
  function Successes(r: Run, steps: seq<Step>, shared: set<nat>, x: nat): seq<word -> word>
    requires Coherent(r) && LegalRun(r, steps, shared)
    decreases |steps|
  {
    if steps == [] then []
    else
      StepCoherent(r, steps[0], shared);
      (if Stores(r, steps[0], x) then [steps[0].op] else [])
      + Successes(Did(r, steps[0]), steps[1..], shared, x)
  }

  function Applied(v: word, ops: seq<word -> word>): word
    decreases |ops|
  {
    if ops == [] then v else Applied(ops[0](v), ops[1..])
  }

  /** No update is lost: the final value is what the operations of exactly the
      successful store-conditionals make of the first, in order. */
  lemma {:induction false} NoLostUpdate(r: Run, steps: seq<Step>, shared: set<nat>, x: nat)
    requires Coherent(r) && LegalRun(r, steps, shared) && x in shared && x < |r.m.mem|
    ensures var end := After(r, steps, shared);
            && Coherent(end) && |end.m.mem| == |r.m.mem|
            && end.m.mem[x] == Applied(r.m.mem[x], Successes(r, steps, shared, x))
    decreases |steps|
  {
    if steps != [] {
      var s := steps[0];
      StepCoherent(r, s, shared);
      StepUpdates(r, s, shared, x);
      NoLostUpdate(Did(r, s), steps[1..], shared, x);
      var rest := Successes(Did(r, s), steps[1..], shared, x);
      if Stores(r, s, x) {
        assert ([s.op] + rest)[1..] == rest;
      } else {
        assert [] + rest == rest;
      }
    }
  }

  function Increment(v: word): word {
    if v + 1 < TWO_32 then v + 1 else 0
  }

  lemma {:induction false} AppliedIncrements(v: word, ops: seq<word -> word>)
    requires forall i :: 0 <= i < |ops| ==> Increments(ops[i])
    ensures Applied(v, ops) == (v + |ops|) % TWO_32
    decreases |ops|
  {
    if ops != [] {
      AppliedIncrements(Increment(v), ops[1..]);
      assert (v + |ops|) % TWO_32 == (Increment(v) + (|ops| - 1)) % TWO_32;
    }
  }

  ghost predicate Increments(op: word -> word) {
    forall v: word :: op(v) == Increment(v)
  }

  ghost predicate OnlyIncrements(steps: seq<Step>) {
    forall i :: 0 <= i < |steps| && steps[i].StoreConditional? ==> Increments(steps[i].op)
  }

  lemma {:induction false} SuccessesIncrement(r: Run, steps: seq<Step>, shared: set<nat>, x: nat)
    requires Coherent(r) && LegalRun(r, steps, shared) && OnlyIncrements(steps)
    ensures forall i :: 0 <= i < |Successes(r, steps, shared, x)| ==> Increments(Successes(r, steps, shared, x)[i])
    decreases |steps|
  {
    if steps != [] {
      StepCoherent(r, steps[0], shared);
      SuccessesIncrement(Did(r, steps[0]), steps[1..], shared, x);
    }
  }

  /** A shared counter counts the successes. */
  lemma CounterCounts(r: Run, steps: seq<Step>, shared: set<nat>, x: nat)
    requires Coherent(r) && LegalRun(r, steps, shared) && x in shared && x < |r.m.mem| && OnlyIncrements(steps)
    ensures |After(r, steps, shared).m.mem| == |r.m.mem|
    ensures After(r, steps, shared).m.mem[x] == (r.m.mem[x] + |Successes(r, steps, shared, x)|) % TWO_32
  {
    NoLostUpdate(r, steps, shared, x);
    SuccessesIncrement(r, steps, shared, x);
    AppliedIncrements(r.m.mem[x], Successes(r, steps, shared, x));
  }

  function Initially(): (r: Run)
    ensures WellFormed(r)
  {
    Run(Machine([0], [Link(false, 0, 0), Link(false, 0, 0)]), [0, 0, 0], [0, 0])
  }

  /* Thread 0 loads on processor 0 and is interrupted. */
  function Handling(): (r: Run)
    ensures r == Initially()
  {
    Did(Did(Initially(), LoadLinked(0, 0, 0)), Interrupt(0))
  }

  /* Thread 1 loads on processor 1. */
  function Other(): (r: Run)
    ensures r == Run(Machine([0], [Link(false, 0, 0), Link(true, 0, 0)]), [0, 0, 0], [0, 1])
  {
    Did(Handling(), LoadLinked(1, 1, 0))
  }

  /* And stores; and the handler, thread 2, loads on processor 0. */
  function Looked(): (r: Run)
    ensures r == Run(Machine([1], [Link(true, 0, 1), Link(true, 0, 0)]), [0, 0, 1], [2, 1])
  {
    Did(Did(Other(), StoreConditional(1, 1, 0, Increment)), LoadLinked(0, 2, 0))
  }

  /** Returning from an exception does not clear the link, so a handler that
      leaves one behind costs an update. Thread 0 loads the counter on processor
      0 and is interrupted; thread 1 increments it on processor 1; the handler,
      thread 2, looks at it with LL on processor 0 and returns; thread 0 goes on
      to its SC. Both increments succeed and the counter goes up by one. */
  lemma HandlerLinkLosesUpdate()
    ensures var sc1, sc0 := StoreConditional(1, 1, 0, Increment), StoreConditional(0, 0, 0, Increment);
            && Handling() == Did(Did(Initially(), LoadLinked(0, 0, 0)), Interrupt(0))
            && Other() == Did(Handling(), LoadLinked(1, 1, 0))
            && Looked() == Did(Did(Other(), sc1), LoadLinked(0, 2, 0))
            && Stores(Other(), sc1, 0)
            && Stores(Looked(), sc0, 0)
            && Did(Looked(), sc0).m.mem == [1]
            && Coherent(Did(Initially(), LoadLinked(0, 0, 0))) && Coherent(Handling()) && Coherent(Other())
            && Coherent(Did(Other(), sc1)) && Coherent(Looked())
            && !Legal(Looked(), sc0, {0})
  {
  }
}
