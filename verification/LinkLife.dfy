/**
 How long a link lives. On the processor itself nothing but an exception takes
 a link down and nothing but an LL puts one up; so on several processors whose
 threads are switched by exceptions only, with handlers that do not use LL, a
 store-conditional finds its own thread's link or none.
 */
module LinkLife {
  import opened Words
  import opened MipsMmu
  import opened MipsState
  import opened MipsPcCache
  import opened MipsStale
  import LlSc

  /* Nothing but exceptions has happened to the link. */
  predicate OnlyCleared(c: Cpu, d: Cpu) {
    d.exceptions >= c.exceptions && d.llActive == (c.llActive && d.exceptions == c.exceptions)
  }

  predicate SameLink(c: Cpu, d: Cpu) {
    d.llActive == c.llActive && d.exceptions == c.exceptions
  }

  predicate ClearedOnce(c: Cpu, d: Cpu) {
    !d.llActive && d.exceptions == c.exceptions + 1
  }

  lemma TranslatedLink(c: Cpu, vaddr: word, iswrite: bool)
    ensures var t := Translated(c, vaddr, iswrite);
            if t.1 then SameLink(c, t.0) else ClearedOnce(c, t.0)
  {
  }

  lemma PrecomputedLink(c: Cpu, ramSize: word)
    ensures OnlyCleared(c, Precomputed(c, ramSize).0)
  {
    TranslatedLink(c, c.pc, false);
  }

  lemma PrecomputedNextLink(c: Cpu, ramSize: word)
    ensures var r := PrecomputedNext(c, ramSize);
            if r.1 then SameLink(c, r.0) else ClearedOnce(c, r.0)
  {
    TranslatedLink(c, c.nextpc, false);
  }

  lemma PrecomputedBothLink(c: Cpu, ramSize: word)
    ensures OnlyCleared(c, PrecomputedBoth(c, ramSize))
  {
    hide Precomputed, PrecomputedNext;
    PrecomputedLink(c, ramSize);
    PrecomputedNextLink(Precomputed(c, ramSize).0, ramSize);
  }

  predicate Interrupts(c: Cpu, irq: bool) {
    c.status.cur.irqon && irq
  }

  lemma BegunLink(c: Cpu, irq: bool)
    ensures if Interrupts(c, irq) then ClearedOnce(c, Begun(c, irq)) else SameLink(c, Begun(c, irq))
  {
  }

  lemma AdvancedLink(c: Cpu, ramSize: word, insn: word)
    ensures var a := Advanced(c, ramSize, insn);
            if a.1 then SameLink(c, a.0) else ClearedOnce(c, a.0)
  {
    hide PrecomputedNext;
    PrecomputedNextLink(c.(pc := c.nextpc, pcoff := c.nextpcoff, pcpage := c.nextpcpage, nextpc := Next(c.nextpc)),
                        ramSize);
  }

  predicate Links(op: Op) {
    op.Access? && op.link
  }

  lemma AccessLink(c: Cpu, code: (Page, word) -> word, ramSize: word, op: Op)
    requires op.Access?
    ensures var r := Executed(c, code, ramSize, op);
            if r.exceptions == c.exceptions then r.llActive == (c.llActive || op.link) else ClearedOnce(c, r)
  {
    hide Translated;
    TranslatedLink(c, op.vaddr, op.iswrite);
  }

  lemma BranchLink(c: Cpu, code: (Page, word) -> word, ramSize: word, target: word)
    ensures OnlyCleared(c, Branched(c, code, ramSize, target))
  {
    hide PrecomputedNext;
    PrecomputedNextLink(c.(nextpc := target, jumping := true), ramSize);
  }

  lemma ExecutedLink(c: Cpu, code: (Page, word) -> word, ramSize: word, op: Op)
    requires !Links(op)
    ensures OnlyCleared(c, Executed(c, code, ramSize, op))
  {
    hide PrecomputedBoth, Branched, Translated;
    match op
    case Stall => PrecomputedBothLink(Restarted(c), ramSize);
    case Branch(target) => BranchLink(c, code, ramSize, target);
    case Access(_, _, _, _) => AccessLink(c, code, ramSize, op);
    case TlbWrite(ix) =>
      if ix < |c.tlb| {
        PrecomputedBothLink(c.(tlb := c.tlb[ix := c.entry]), ramSize);
      }
    case Rfe => PrecomputedBothLink(c.(status := Popped(c.status), inJumpDelay := false, expc := c.pc), ramSize);
    case _ =>
  }

  /* The instruction fetched this cycle is reached, and takes no exception. */
  predicate Completes(c: Cpu, code: (Page, word) -> word, ramSize: word, irq: bool, op: Op) {
    var b := Begun(c, irq);
    var a := Advanced(b, ramSize, Fetched(b, code));
    a.1 && Executed(a.0, code, ramSize, op).exceptions == a.0.exceptions
  }

  /** A cycle without LL leaves a link exactly if there was one and no exception
      was taken. One with an LL, not interrupted, leaves one exactly if the LL
      completes. */
  lemma CycleLink(c: Cpu, code: (Page, word) -> word, ramSize: word, irq: bool, op: Op)
    ensures var r := Cycled(c, code, ramSize, irq, op);
            && (!Links(op) ==> OnlyCleared(c, r))
            && (Interrupts(c, irq) ==> r.exceptions > c.exceptions)
            && (op.Access? && !Interrupts(c, irq) ==>
                  && r.exceptions >= c.exceptions
                  && (Completes(c, code, ramSize, irq, op) <==> r.exceptions == c.exceptions)
                  && (Links(op) ==> (r.llActive <==> r.exceptions == c.exceptions)))
  {
    hide Begun, Advanced, Executed, Fetched;
    var b := Begun(c, irq);
    var a := Advanced(b, ramSize, Fetched(b, code));
    BegunLink(c, irq);
    AdvancedLink(b, ramSize, Fetched(b, code));
    if op.Access? {
      AccessLink(a.0, code, ramSize, op);
    } else {
      ExecutedLink(a.0, code, ramSize, op);
    }
  }

  ghost predicate NoLinks(steps: seq<Step>) {
    forall i :: 0 <= i < |steps| ==> !Links(steps[i].op)
  }

  /** After any run without LL a link is live exactly if it was before and no
      exception was taken in between; returns, TLB writes and register writes
      make no difference. */
  lemma {:induction false} LinkOutlivesRun(c: Cpu, code: (Page, word) -> word, ramSize: word, steps: seq<Step>)
    requires NoLinks(steps)
    ensures var r := Ran(c, code, ramSize, steps);
            && r.exceptions >= c.exceptions
            && (r.llActive <==> c.llActive && r.exceptions == c.exceptions)
    decreases |steps|
  {
    hide Cycled;
    if steps != [] {
      CycleLink(c, code, ramSize, steps[0].irq, steps[0].op);
      LinkOutlivesRun(Cycled(c, code, ramSize, steps[0].irq, steps[0].op), code, ramSize, steps[1..]);
    }
  }

  // ------------------------------------------------------------------
  // Several processors

  /* What the instruction of a cycle does to the words of memory. */
  datatype Act =
    | Nothing
    | Loads(a: nat)                           // LL
    | Conditional(a: nat, op: word -> word)   // SC of op of what the thread loaded
    | Writes(a: nat, val: word)

  /* Where the RFE at the end of a handler goes. */
  datatype Target = Carry | Thread(t: nat)

  /* One processor does one cycle, with this in memory as its code. */
  datatype Turn = Turn(c: nat, code: (Page, word) -> word, irq: bool, op: Op, act: Act, to: Target)

  /* The processors; memory, links and what the threads have loaded; and for
     each processor the thread it runs, or ran last if it is in a handler. */
  datatype Board = Board(cpus: seq<Cpu>, run: LlSc.Run, on: seq<nat>, handling: seq<bool>)

  ghost predicate Shaped(b: Board) {
    && LlSc.WellFormed(b.run)
    && |b.cpus| == |b.on| == |b.handling| == |b.run.m.links|
    && forall c :: 0 <= c < |b.on| ==> b.on[c] < |b.run.regs|
  }

  /* No thread runs in two places, and a live link is that of the thread running. */
  ghost predicate Good(b: Board) {
    && Shaped(b)
    && LlSc.Coherent(b.run)
    && (forall c, d :: 0 <= c < |b.on| && 0 <= d < |b.on| && c != d && !b.handling[c] && !b.handling[d] ==>
          b.on[c] != b.on[d])
    && (forall c :: 0 <= c < |b.cpus| ==> b.cpus[c].llActive == b.run.m.links[c].active)
    && (forall c :: 0 <= c < |b.cpus| && b.cpus[c].llActive ==> !b.handling[c] && b.run.owner[c] == b.on[c])
  }

  function CycleOf(b: Board, ramSize: word, t: Turn): Cpu
    requires t.c < |b.cpus|
  {
    Cycled(b.cpus[t.c], t.code, ramSize, t.irq, t.op)
  }

  predicate Excepts(b: Board, ramSize: word, t: Turn)
    requires t.c < |b.cpus|
  {
    CycleOf(b, ramSize, t).exceptions != b.cpus[t.c].exceptions
  }

  predicate Finishes(b: Board, ramSize: word, t: Turn)
    requires t.c < |b.cpus|
  {
    Completes(b.cpus[t.c], t.code, ramSize, t.irq, t.op)
  }

  /* The link is live for the address of an SC when its turn comes. */
  predicate FindsLink(b: Board, t: Turn, a: nat)
    requires t.c < |b.cpus| == |b.run.m.links|
  {
    !Interrupts(b.cpus[t.c], t.irq) && LlSc.Holds(b.run.m, t.c, a)
  }

  /* The instruction and what it does to memory are of a kind. An SC that finds
     no link makes no access. Accesses outside memory do not complete, except
     for stores to devices. */
  predicate Matches(b: Board, ramSize: word, t: Turn)
    requires t.c < |b.cpus| == |b.run.m.links|
  {
    match t.act
    case Nothing => !(t.op.Access? && (t.op.link || t.op.iswrite))
    case Loads(a) => Links(t.op) && !t.op.iswrite && (Finishes(b, ramSize, t) ==> a < |b.run.m.mem|)
    case Conditional(a, _) =>
      if FindsLink(b, t, a) then
        t.op.Access? && t.op.iswrite && !t.op.link && (Finishes(b, ramSize, t) ==> a < |b.run.m.mem|)
      else t.op == Plain
    case Writes(_, _) => t.op.Access? && t.op.iswrite && !t.op.link
  }

  /* Handlers do not use LL, the threads store to the shared words by SC alone,
     and another thread starts only where a handler returns to it. */
  predicate Disciplined(b: Board, ramSize: word, t: Turn, shared: set<nat>)
    requires t.c < |b.cpus| == |b.run.m.links| == |b.on| == |b.handling|
  {
    && (t.act.Loads? ==> !b.handling[t.c] && !Interrupts(b.cpus[t.c], t.irq))
    && (t.act.Writes? ==> t.act.a !in shared)
    && (t.to.Thread? ==>
          && t.op.Rfe? && b.handling[t.c] && t.to.t < |b.run.regs|
          && forall d :: 0 <= d < |b.on| && d != t.c && !b.handling[d] ==> b.on[d] != t.to.t)
  }

  ghost predicate Proper(b: Board, ramSize: word, t: Turn, shared: set<nat>) {
    Shaped(b) && t.c < |b.cpus| && Matches(b, ramSize, t) && Disciplined(b, ramSize, t, shared)
  }

  function ActSteps(t: Turn, thread: nat): seq<LlSc.Step> {
    match t.act
    case Nothing => []
    case Loads(a) => [LlSc.LoadLinked(t.c, thread, a)]
    case Conditional(a, op) => [LlSc.StoreConditional(t.c, thread, a, op)]
    case Writes(a, val) => [LlSc.PlainStore(a, val)]
  }

  /* A turn as steps of threads: the exception, if one is taken, and then the
     instruction, if it completes. */
  function Effects(b: Board, ramSize: word, t: Turn): seq<LlSc.Step>
    requires t.c < |b.cpus| == |b.on|
  {
    (if Excepts(b, ramSize, t) then [LlSc.Interrupt(t.c)] else [])
    + (if Finishes(b, ramSize, t) then ActSteps(t, b.on[t.c]) else [])
  }

  lemma NoSteps(r: LlSc.Run, shared: set<nat>)
    requires LlSc.Coherent(r)
    ensures LlSc.LegalRun(r, [], shared) && LlSc.After(r, [], shared) == r
  {
  }

  lemma OneStep(r: LlSc.Run, s: LlSc.Step, shared: set<nat>)
    requires LlSc.Coherent(r) && LlSc.Legal(r, s, shared)
    ensures LlSc.LegalRun(r, [s], shared) && LlSc.After(r, [s], shared) == LlSc.Did(r, s)
    ensures LlSc.Coherent(LlSc.Did(r, s))
  {
    LlSc.StepCoherent(r, s, shared);
    NoSteps(LlSc.Did(r, s), shared);
    assert [s][1..] == [];
  }

  lemma {:induction false} Joined(r: LlSc.Run, u: seq<LlSc.Step>, v: seq<LlSc.Step>, shared: set<nat>)
    requires LlSc.Coherent(r) && LlSc.LegalRun(r, u, shared)
    requires LlSc.Coherent(LlSc.After(r, u, shared)) && LlSc.LegalRun(LlSc.After(r, u, shared), v, shared)
    ensures LlSc.LegalRun(r, u + v, shared)
    ensures LlSc.After(r, u + v, shared) == LlSc.After(LlSc.After(r, u, shared), v, shared)
    decreases |u|
  {
    if u == [] {
      assert u + v == v;
    } else {
      LlSc.StepCoherent(r, u[0], shared);
      Joined(LlSc.Did(r, u[0]), u[1..], v, shared);
      assert (u + v)[1..] == u[1..] + v;
    }
  }

  lemma InterruptLegal(b: Board, ramSize: word, t: Turn, shared: set<nat>)
    requires Good(b) && t.c < |b.cpus|
    ensures LlSc.Legal(b.run, LlSc.Interrupt(t.c), shared)
    ensures var r := LlSc.Did(b.run, LlSc.Interrupt(t.c));
            LlSc.Coherent(r) && r == b.run.(m := LlSc.Cleared(b.run.m, t.c))
  {
  }

  /* The run after the exception, if the turn takes one. */
  function Struck(b: Board, ramSize: word, t: Turn): LlSc.Run
    requires t.c < |b.cpus| == |b.run.m.links|
  {
    if Excepts(b, ramSize, t) then b.run.(m := LlSc.Cleared(b.run.m, t.c)) else b.run
  }

  /* What is known of the run in the middle of a turn. */
  ghost predicate Midway(b: Board, ramSize: word, t: Turn, r: LlSc.Run) {
    && Good(b) && t.c < |b.cpus|
    && LlSc.Coherent(r)
    && r.m.mem == b.run.m.mem && r.regs == b.run.regs && r.owner == b.run.owner && |r.m.links| == |b.run.m.links|
    && (forall d :: 0 <= d < |r.m.links| ==> r.m.links[d].active ==> r.m.links[d] == b.run.m.links[d])
    && (forall d :: 0 <= d < |r.m.links| && d != t.c ==> r.m.links[d] == b.run.m.links[d])
    && r.m.links[t.c].active == (b.run.m.links[t.c].active && !Excepts(b, ramSize, t))
  }

  /* The run at the end of the turn. */
  ghost predicate Leaves(b: Board, ramSize: word, t: Turn, r: LlSc.Run) {
    && Good(b) && t.c < |b.cpus|
    && LlSc.Coherent(r)
    && |r.m.mem| == |b.run.m.mem| && |r.regs| == |b.run.regs| && |r.m.links| == |b.run.m.links|
    && (forall d :: 0 <= d < |r.m.links| && d != t.c ==>
          r.m.links[d] == b.run.m.links[d] && r.owner[d] == b.run.owner[d])
    && r.m.links[t.c].active == CycleOf(b, ramSize, t).llActive
    && (r.m.links[t.c].active ==> r.owner[t.c] == b.on[t.c] && !b.handling[t.c] && !Excepts(b, ramSize, t))
  }

  /* A live link on another processor belongs to another thread. */
  lemma OthersLink(b: Board, c: nat, d: nat)
    requires Good(b) && c < |b.cpus| && d < |b.cpus| && c != d && !b.handling[c] && b.run.m.links[d].active
    ensures b.run.owner[d] != b.on[c]
  {
    assert b.cpus[d].llActive;
  }

  lemma LoadLegal(b: Board, ramSize: word, t: Turn, shared: set<nat>, r: LlSc.Run)
    requires Proper(b, ramSize, t, shared) && Midway(b, ramSize, t, r) && t.act.Loads? && Finishes(b, ramSize, t)
    ensures var s := LlSc.LoadLinked(t.c, b.on[t.c], t.act.a);
            LlSc.Legal(r, s, shared) && Leaves(b, ramSize, t, LlSc.Did(r, s))
  {
    hide Cycled, Completes;
    CycleLink(b.cpus[t.c], t.code, ramSize, t.irq, t.op);
    var s := LlSc.LoadLinked(t.c, b.on[t.c], t.act.a);
    assert LlSc.Legal(r, s, shared) by {
      forall d: nat | d < |r.m.links| && d != t.c && r.m.links[d].active
        ensures r.owner[d] != b.on[t.c]
      {
        OthersLink(b, t.c, d);
      }
    }
    LlSc.StepCoherent(r, s, shared);
  }

  lemma WriteLegal(b: Board, ramSize: word, t: Turn, shared: set<nat>, r: LlSc.Run)
    requires Proper(b, ramSize, t, shared) && Midway(b, ramSize, t, r) && t.act.Writes? && Finishes(b, ramSize, t)
    ensures var s := LlSc.PlainStore(t.act.a, t.act.val);
            LlSc.Legal(r, s, shared) && Leaves(b, ramSize, t, LlSc.Did(r, s))
  {
    hide Cycled, Completes;
    NoActLeaves(b, ramSize, t, shared, r);
    LlSc.StepCoherent(r, LlSc.PlainStore(t.act.a, t.act.val), shared);
  }

  lemma ScLegal(b: Board, ramSize: word, t: Turn, shared: set<nat>, r: LlSc.Run)
    requires Proper(b, ramSize, t, shared) && Midway(b, ramSize, t, r) && t.act.Conditional? && Finishes(b, ramSize, t)
    ensures var s := LlSc.StoreConditional(t.c, b.on[t.c], t.act.a, t.act.op);
            LlSc.Legal(r, s, shared) && Leaves(b, ramSize, t, LlSc.Did(r, s))
  {
    hide Cycled, Completes;
    CycleLink(b.cpus[t.c], t.code, ramSize, t.irq, t.op);
    NoActLeaves(b, ramSize, t, shared, r);
    var s := LlSc.StoreConditional(t.c, b.on[t.c], t.act.a, t.act.op);
    assert LlSc.Legal(r, s, shared) by {
      assert r.m.links[t.c].active ==> b.cpus[t.c].llActive;
    }
    LlSc.StepCoherent(r, s, shared);
  }

  /* Without an LL the run in the middle of the turn has the link as the
     processor leaves it. */
  lemma NoActLeaves(b: Board, ramSize: word, t: Turn, shared: set<nat>, r: LlSc.Run)
    requires Proper(b, ramSize, t, shared) && Midway(b, ramSize, t, r)
    requires !Links(t.op) || !Finishes(b, ramSize, t)
    ensures Leaves(b, ramSize, t, r)
  {
    hide Cycled, Completes;
    CycleLink(b.cpus[t.c], t.code, ramSize, t.irq, t.op);
  }

  lemma StruckMidway(b: Board, ramSize: word, t: Turn, shared: set<nat>)
    requires Good(b) && t.c < |b.cpus|
    ensures Midway(b, ramSize, t, Struck(b, ramSize, t))
    ensures var first := if Excepts(b, ramSize, t) then [LlSc.Interrupt(t.c)] else [];
            LlSc.LegalRun(b.run, first, shared) && LlSc.After(b.run, first, shared) == Struck(b, ramSize, t)
  {
    hide Cycled;
    InterruptLegal(b, ramSize, t, shared);
    NoSteps(b.run, shared);
    OneStep(b.run, LlSc.Interrupt(t.c), shared);
  }

  lemma ActRuns(b: Board, ramSize: word, t: Turn, shared: set<nat>, r: LlSc.Run)
    requires Proper(b, ramSize, t, shared) && Midway(b, ramSize, t, r)
    ensures var second := if Finishes(b, ramSize, t) then ActSteps(t, b.on[t.c]) else [];
            LlSc.LegalRun(r, second, shared) && Leaves(b, ramSize, t, LlSc.After(r, second, shared))
  {
    hide Cycled, Completes, Matches, Disciplined, LlSc.Did, LlSc.Legal, LlSc.LegalRun, LlSc.After, Leaves;
    NoSteps(r, shared);
    if Finishes(b, ramSize, t) && !t.act.Nothing? {
      if t.act.Loads? {
        LoadLegal(b, ramSize, t, shared, r);
      } else if t.act.Writes? {
        WriteLegal(b, ramSize, t, shared, r);
      } else {
        ScLegal(b, ramSize, t, shared, r);
      }
      OneStep(r, ActSteps(t, b.on[t.c])[0], shared);
    } else {
      if t.act.Nothing? {
        NothingLinks(b, ramSize, t);
      }
      NoActLeaves(b, ramSize, t, shared, r);
    }
  }

  lemma NothingLinks(b: Board, ramSize: word, t: Turn)
    requires t.c < |b.cpus| == |b.run.m.links| && Matches(b, ramSize, t) && t.act.Nothing?
    ensures !Links(t.op)
  {
  }

  /** A turn of a disciplined board is a legal run of its threads. */
  lemma TurnLegal(b: Board, ramSize: word, t: Turn, shared: set<nat>)
    requires Good(b) && Proper(b, ramSize, t, shared)
    ensures LlSc.LegalRun(b.run, Effects(b, ramSize, t), shared)
    ensures Leaves(b, ramSize, t, LlSc.After(b.run, Effects(b, ramSize, t), shared))
  {
    hide Excepts, Finishes, LlSc.LegalRun, LlSc.After, Leaves, Matches, Disciplined;
    var r := Struck(b, ramSize, t);
    StruckMidway(b, ramSize, t, shared);
    ActRuns(b, ramSize, t, shared, r);
    Joined(b.run, if Excepts(b, ramSize, t) then [LlSc.Interrupt(t.c)] else [],
           if Finishes(b, ramSize, t) then ActSteps(t, b.on[t.c]) else [], shared);
  }

  /* The board after a turn. A processor that takes an exception is in a handler;
     one that returns to a thread runs it. */
  function Turned(b: Board, ramSize: word, t: Turn, shared: set<nat>): Board
    requires Good(b) && Proper(b, ramSize, t, shared)
  {
    TurnLegal(b, ramSize, t, shared);
    var excepts := Excepts(b, ramSize, t);
    Board(b.cpus[t.c := CycleOf(b, ramSize, t)],
          LlSc.After(b.run, Effects(b, ramSize, t), shared),
          if t.to.Thread? && !excepts then b.on[t.c := t.to.t] else b.on,
          b.handling[t.c := excepts || (b.handling[t.c] && t.to.Carry?)])
  }

  lemma TurnGood(b: Board, ramSize: word, t: Turn, shared: set<nat>)
    requires Good(b) && Proper(b, ramSize, t, shared)
    ensures Good(Turned(b, ramSize, t, shared))
    ensures |Turned(b, ramSize, t, shared).run.m.mem| == |b.run.m.mem|
  {
    hide Cycled, Completes, Effects, LlSc.After, LlSc.LegalRun;
    TurnLegal(b, ramSize, t, shared);
  }

  ghost predicate ProperRun(b: Board, ramSize: word, turns: seq<Turn>, shared: set<nat>)
    requires Good(b)
    decreases |turns|
  {
    turns == []
    || (Proper(b, ramSize, turns[0], shared)
        && (TurnGood(b, ramSize, turns[0], shared);
            ProperRun(Turned(b, ramSize, turns[0], shared), ramSize, turns[1..], shared)))
  }

  function Played(b: Board, ramSize: word, turns: seq<Turn>, shared: set<nat>): Board
    requires Good(b) && ProperRun(b, ramSize, turns, shared)
    decreases |turns|
  {
    if turns == [] then b
    else
      TurnGood(b, ramSize, turns[0], shared);
      Played(Turned(b, ramSize, turns[0], shared), ramSize, turns[1..], shared)
  }

  /* What the threads did, step by step. */
  function Trace(b: Board, ramSize: word, turns: seq<Turn>, shared: set<nat>): seq<LlSc.Step>
    requires Good(b) && ProperRun(b, ramSize, turns, shared)
    decreases |turns|
  {
    if turns == [] then []
    else
      TurnGood(b, ramSize, turns[0], shared);
      Effects(b, ramSize, turns[0])
      + Trace(Turned(b, ramSize, turns[0], shared), ramSize, turns[1..], shared)
  }

  /** Whatever the processors do, in whatever order: if threads are switched only
      by exceptions, and handlers do not use LL, every live link is that of the
      thread that finds it, and what the threads do is a legal run. */
  lemma {:induction false} DisciplineIsLegal(b: Board, ramSize: word, turns: seq<Turn>, shared: set<nat>)
    requires Good(b) && ProperRun(b, ramSize, turns, shared)
    ensures Good(Played(b, ramSize, turns, shared))
    ensures LlSc.LegalRun(b.run, Trace(b, ramSize, turns, shared), shared)
    ensures LlSc.After(b.run, Trace(b, ramSize, turns, shared), shared) == Played(b, ramSize, turns, shared).run
    decreases |turns|
  {
    hide Proper, Good, Effects, LlSc.LegalRun, LlSc.After, Excepts;
    if turns == [] {
      RunCoherent(b);
      NoSteps(b.run, shared);
    } else {
      var c := Turned(b, ramSize, turns[0], shared);
      TurnGood(b, ramSize, turns[0], shared);
      TurnLegal(b, ramSize, turns[0], shared);
      RunCoherent(b);
      RunCoherent(c);
      ProperTurn(b, ramSize, turns[0], shared);
      DisciplineIsLegal(c, ramSize, turns[1..], shared);
      Joined(b.run, Effects(b, ramSize, turns[0]), Trace(c, ramSize, turns[1..], shared), shared);
    }
  }

  lemma ProperTurn(b: Board, ramSize: word, t: Turn, shared: set<nat>)
    requires Proper(b, ramSize, t, shared)
    ensures t.c < |b.cpus| == |b.on|
  {
  }

  lemma RunCoherent(b: Board)
    requires Good(b)
    ensures LlSc.Coherent(b.run)
  {
  }

  /** So no update of a shared word is lost: its final value is what the operations
      of the store-conditionals that succeeded make of the first, in order. */
  lemma BoardLosesNoUpdate(b: Board, ramSize: word, turns: seq<Turn>, shared: set<nat>, x: nat)
    requires Good(b) && ProperRun(b, ramSize, turns, shared) && x in shared && x < |b.run.m.mem|
    ensures var end, trace := Played(b, ramSize, turns, shared), Trace(b, ramSize, turns, shared);
            && LlSc.LegalRun(b.run, trace, shared) && |end.run.m.mem| == |b.run.m.mem|
            && end.run.m.mem[x] == LlSc.Applied(b.run.m.mem[x], LlSc.Successes(b.run, trace, shared, x))
  {
    hide ProperRun, Played, Trace, LlSc.LegalRun, LlSc.After, LlSc.Successes;
    DisciplineIsLegal(b, ramSize, turns, shared);
    LlSc.NoLostUpdate(b.run, Trace(b, ramSize, turns, shared), shared, x);
  }

  /* Processors as mips_init leaves them, each on a thread of its own. */
  function PowerOn(mem: seq<word>, ncpus: nat, threads: nat, ramSize: word): Board {
    Board(seq(ncpus, _ => PrecomputedBoth(Reset(), ramSize)),
          LlSc.Run(LlSc.Machine(mem, seq(ncpus, _ => LlSc.Link(false, 0, 0))),
                   seq(threads, _ => 0), seq(ncpus, i => i)),
          seq(ncpus, i => i), seq(ncpus, _ => false))
  }

  lemma PowerOnGood(mem: seq<word>, ncpus: nat, threads: nat, ramSize: word)
    requires ncpus <= threads
    ensures Good(PowerOn(mem, ncpus, threads, ramSize))
  {
    hide PrecomputedBoth;
    PrecomputedBothLink(Reset(), ramSize);
  }

  // ------------------------------------------------------------------
  // A run of it

  const COUNTER: word := 0x8000_0000    // direct-mapped to the first word of memory

  /* In the boot ROM, k instructions in, with or without a link. */
  function Linking(k: nat, expc: word, live: bool): Cpu
    requires k < 16
  {
    Booting(k, expc, ResetEntry(NTLB), ResetTlb()).(llActive := live)
  }

  /* An access to the counter there, LL or the store of an SC. */
  lemma BootAccesses(k: nat, expc: word, live: bool, ramSize: word, iswrite: bool, link: bool)
    requires k < 8
    ensures var op := Access(COUNTER, iswrite, false, link);
            && Cycled(Linking(k, expc, live), NoRfe, ramSize, false, op) == Linking(k + 1, BOOT + 4 * k, live || link)
            && Completes(Linking(k, expc, live), NoRfe, ramSize, false, op)
  {
    hide PrecomputedNext, ResetTlb, ResetEntry;
  }

  function LlTurn(): Turn {
    Turn(0, NoRfe, false, Access(COUNTER, false, false, true), Loads(0), Carry)
  }

  function ScTurn(): Turn {
    Turn(0, NoRfe, false, Access(COUNTER, true, false, false), Conditional(0, LlSc.Increment), Carry)
  }

  lemma LlRuns(b: Board, ramSize: word)
    requires Good(b) && b.cpus != [] && b.cpus[0] == Linking(0, 0, false) && !b.handling[0] && b.run.m.mem != []
    ensures Proper(b, ramSize, LlTurn(), {0})
    ensures var c := Turned(b, ramSize, LlTurn(), {0});
            && |c.cpus| == |b.cpus| && c.cpus[0] == Linking(1, BOOT, true)
            && c.on == b.on && c.run == LlSc.Did(b.run, LlSc.LoadLinked(0, b.on[0], 0))
  {
    hide Cycled, Completes, LlSc.LegalRun, LlSc.After, LlSc.Did;
    BootAccesses(0, 0, false, ramSize, false, true);
    var s := LlSc.LoadLinked(0, b.on[0], 0);
    TurnGood(b, ramSize, LlTurn(), {0});
    assert Effects(b, ramSize, LlTurn()) == [s];
    LoadLegal(b, ramSize, LlTurn(), {0}, b.run);
    OneStep(b.run, s, {0});
  }

  lemma ScRuns(b: Board, ramSize: word)
    requires Good(b) && b.cpus != [] && b.cpus[0] == Linking(1, BOOT, true) && b.run.m.mem != []
    requires LlSc.Holds(b.run.m, 0, 0)
    ensures Proper(b, ramSize, ScTurn(), {0})
    ensures Turned(b, ramSize, ScTurn(), {0}).run
         == LlSc.Did(b.run, LlSc.StoreConditional(0, b.on[0], 0, LlSc.Increment))
  {
    hide Cycled, Completes, LlSc.LegalRun, LlSc.After, LlSc.Did;
    BootAccesses(1, BOOT, true, ramSize, true, false);
    var s := LlSc.StoreConditional(0, b.on[0], 0, LlSc.Increment);
    TurnGood(b, ramSize, ScTurn(), {0});
    assert Effects(b, ramSize, ScTurn()) == [s];
    ScLegal(b, ramSize, ScTurn(), {0}, b.run);
    OneStep(b.run, s, {0});
  }

  /** From power-on a processor increments the counter with LL and SC. */
  lemma IncrementFromPowerOn(ncpus: nat, ramSize: word)
    requires ncpus > 0
    ensures var b := PowerOn([0], ncpus, ncpus, ramSize);
            && Good(b) && ProperRun(b, ramSize, [LlTurn(), ScTurn()], {0})
            && Played(b, ramSize, [LlTurn(), ScTurn()], {0}).run.m.mem == [1]
  {
    hide Proper, Good, Turned, LlTurn, ScTurn;
    var b := PowerOn([0], ncpus, ncpus, ramSize);
    PowerOnGood([0], ncpus, ncpus, ramSize);
    ResetBoots(ramSize);
    LlRuns(b, ramSize);
    var c := Turned(b, ramSize, LlTurn(), {0});
    TurnGood(b, ramSize, LlTurn(), {0});
    ScRuns(c, ramSize);
    TurnGood(c, ramSize, ScTurn(), {0});
    TwoTurns(b, ramSize, LlTurn(), ScTurn(), {0});
  }

  lemma TwoTurns(b: Board, ramSize: word, s: Turn, t: Turn, shared: set<nat>)
    requires Good(b) && Proper(b, ramSize, s, shared)
    requires var c := Turned(b, ramSize, s, shared); Good(c) && Proper(c, ramSize, t, shared)
    ensures ProperRun(b, ramSize, [s, t], shared)
    ensures Played(b, ramSize, [s, t], shared) == Turned(Turned(b, ramSize, s, shared), ramSize, t, shared)
  {
    hide Proper, Good, Turned;
    var c := Turned(b, ramSize, s, shared);
    TurnGood(c, ramSize, t, shared);
    assert [s, t][1..] == [t] && [t][1..] == [];
    var d := Turned(c, ramSize, t, shared);
    assert ProperRun(d, ramSize, [], shared) && Played(d, ramSize, [], shared) == d;
    assert ProperRun(c, ramSize, [t], shared) && Played(c, ramSize, [t], shared) == d;
  }
}
