/**
 The three-deep status stack over whole sequences of exceptions and returns.
 Three slots are enough for two levels of handler and no more.
 */
module StatusStack {
  import opened Words
  import opened MipsMmu
  import opened MipsState
  import opened MipsPcCache

  datatype Turn = Enter | Leave

  function Stepped(s: Status, t: Turn): Status {
    match t
    case Enter => Pushed(s)
    case Leave => Popped(s)
  }

  function After(s: Status, w: seq<Turn>): Status {
    if w == [] then s else Stepped(After(s, w[..|w| - 1]), w[|w| - 1])
  }

  /* How many handlers have been entered and not yet left. */
  function Level(w: seq<Turn>): int {
    if w == [] then 0
    else Level(w[..|w| - 1]) + if w[|w| - 1].Enter? then 1 else -1
  }

  /* The deepest level on the way. */
  function Deepest(w: seq<Turn>): int {
    if w == [] then 0
    else if Level(w) > Deepest(w[..|w| - 1]) then Level(w) else Deepest(w[..|w| - 1])
  }

  /* No RFE without an exception to return from. */
  predicate Nested(w: seq<Turn>) {
    w == [] || (Nested(w[..|w| - 1]) && Level(w) >= 0)
  }

  /** While some handler is active the processor is in kernel mode with
      interrupts off. Until a third level is entered, the mode the outermost
      handler must return to sits in the slot of the current level; after that
      it is gone and every slot holds kernel mode with interrupts off. */
  lemma {:induction false} SlotOfLevel(s: Status, w: seq<Turn>)
    requires Nested(w)
    ensures Level(w) >= 1 ==> After(s, w).cur == KERNEL_OFF
    ensures Deepest(w) <= 2 ==>
              match Level(w)
              case 0 => After(s, w).cur == s.cur
              case 1 => After(s, w).prev == s.cur
              case 2 => After(s, w).prev == KERNEL_OFF && After(s, w).eldest == s.cur
              case _ => false
    ensures Deepest(w) > 2 ==>
              After(s, w).cur == KERNEL_OFF && After(s, w).prev == KERNEL_OFF && After(s, w).eldest == KERNEL_OFF
  {
    if w != [] {
      SlotOfLevel(s, w[..|w| - 1]);
    }
  }

  /** The mode and interrupt enable after a sequence in which every handler has
      returned are those before it, exactly when no more than two handlers were
      ever active at once, or there was nothing to lose. */
  lemma ModeRestored(s: Status, w: seq<Turn>)
    requires Nested(w) && Level(w) == 0
    ensures After(s, w).cur == s.cur <==> Deepest(w) <= 2 || s.cur == KERNEL_OFF
  {
    SlotOfLevel(s, w);
  }

  /* A user program interrupted, with two exceptions in the handlers: it comes
     back in kernel mode. */
  lemma ThreeDeepLosesTheMode(s: Status)
    requires s.cur == Mode(true, true)
    ensures var w := [Enter, Enter, Enter, Leave, Leave, Leave];
            Nested(w) && Level(w) == 0 && After(s, w).cur == KERNEL_OFF
  {
    var w := [Enter, Enter, Enter, Leave, Leave, Leave];
    for i := 1 to 7
      invariant Nested(w[..i - 1]) && Level(w[..i - 1]) == if i <= 4 then i - 1 else 7 - i
      invariant Deepest(w[..i - 1]) >= if i <= 4 then i - 1 else 3
    {
      assert w[..i][..i - 1] == w[..i - 1];
    }
    assert w[..6] == w;
    SlotOfLevel(s, w);
  }

  /* Looking up a place raises no exception or one. */
  lemma TranslatedTurn(c: Cpu, vaddr: word, iswrite: bool)
    ensures var t := Translated(c, vaddr, iswrite);
            if t.1 then t.0.status == c.status && t.0.exceptions == c.exceptions
            else t.0.status == Stepped(c.status, Enter) && t.0.exceptions == c.exceptions + 1
  {
  }

  predicate SameOrEntered(c: Cpu, d: Cpu, ok: bool) {
    if ok then d.status == c.status && d.exceptions == c.exceptions
    else d.status == Stepped(c.status, Enter) && d.exceptions == c.exceptions + 1
  }

  lemma PrecomputedTurn(c: Cpu, ramSize: word)
    ensures SameOrEntered(c, Precomputed(c, ramSize).0, Precomputed(c, ramSize).1)
  {
    TranslatedTurn(c, c.pc, false);
  }

  lemma PrecomputedNextTurn(c: Cpu, ramSize: word)
    ensures SameOrEntered(c, PrecomputedNext(c, ramSize).0, PrecomputedNext(c, ramSize).1)
  {
    TranslatedTurn(c, c.nextpc, false);
  }

  /** The processor takes these turns: exception entry pushes once, and a return
      pops once, then pushes at most once more, if the place returned to faults. */
  lemma ProcessorTurns(c: Cpu, ramSize: word)
    requires WellFormed(c, ramSize)
    ensures forall ex, cn, vaddr :: Raise(c, ex, cn, vaddr).status == Stepped(c.status, Enter)
    ensures var r := Returned(c, ramSize);
            (r.status == Stepped(c.status, Leave) && r.exceptions == c.exceptions)
            || (r.status == Stepped(Stepped(c.status, Leave), Enter) && r.exceptions == c.exceptions + 1)
  {
    var d := c.(status := Popped(c.status), inJumpDelay := false, expc := c.pc);
    PrecomputedTurn(d, ramSize);
    PrecomputedCaches(d, ramSize);
    PrecomputedNextTurn(Precomputed(d, ramSize).0, ramSize);
    PrecomputedNextCaches(Precomputed(d, ramSize).0, ramSize);
  }

  // ------------------------------------------------------------------
  // Whole runs of the processor

  function Enters(n: nat): seq<Turn> {
    seq(n, _ => Enter)
  }

  /* The exceptions taken from c to d. */
  function Taken(c: Cpu, d: Cpu): nat {
    if d.exceptions > c.exceptions then d.exceptions - c.exceptions else 0
  }

  /* Nothing but exceptions has happened to the status stack. */
  predicate OnlyEntered(c: Cpu, d: Cpu) {
    d.exceptions >= c.exceptions && d.status == After(c.status, Enters(Taken(c, d)))
  }

  lemma {:induction false} AfterJoin(s: Status, u: seq<Turn>, v: seq<Turn>)
    ensures After(s, u + v) == After(After(s, u), v)
    ensures Level(u + v) == Level(u) + Level(v)
    decreases |v|
  {
    if v == [] {
      assert u + v == u;
    } else {
      var w := u + v;
      assert w[..|w| - 1] == u + v[..|v| - 1] && w[|w| - 1] == v[|v| - 1];
      AfterJoin(s, u, v[..|v| - 1]);
    }
  }

  lemma EnteredOnce(c: Cpu, d: Cpu)
    requires d.status == Pushed(c.status) && d.exceptions == c.exceptions + 1
    ensures OnlyEntered(c, d)
  {
    assert Enters(1) == [Enter] && [Enter][..0] == [];
    assert After(c.status, [Enter]) == Pushed(After(c.status, []));
  }

  lemma EnteredNot(c: Cpu, d: Cpu)
    requires d.status == c.status && d.exceptions == c.exceptions
    ensures OnlyEntered(c, d)
  {
  }

  lemma EnteredBoth(c: Cpu, d: Cpu, e: Cpu)
    requires OnlyEntered(c, d) && OnlyEntered(d, e)
    ensures OnlyEntered(c, e) && Taken(c, e) == Taken(c, d) + Taken(d, e)
  {
    assert Enters(Taken(c, e)) == Enters(Taken(c, d)) + Enters(Taken(d, e));
    AfterJoin(c.status, Enters(Taken(c, d)), Enters(Taken(d, e)));
  }

  lemma EnteredIf(c: Cpu, d: Cpu, ok: bool)
    requires SameOrEntered(c, d, ok)
    ensures OnlyEntered(c, d)
  {
    if ok {
      EnteredNot(c, d);
    } else {
      EnteredOnce(c, d);
    }
  }

  lemma BothEntered(c: Cpu, ramSize: word)
    ensures OnlyEntered(c, PrecomputedBoth(c, ramSize))
  {
    hide Precomputed, PrecomputedNext, OnlyEntered;
    var d := Precomputed(c, ramSize);
    var e := PrecomputedNext(d.0, ramSize);
    PrecomputedTurn(c, ramSize);
    EnteredIf(c, d.0, d.1);
    PrecomputedNextTurn(d.0, ramSize);
    EnteredIf(d.0, e.0, e.1);
    EnteredBoth(c, d.0, e.0);
  }

  lemma BegunEntered(c: Cpu, irq: bool)
    ensures OnlyEntered(c, Begun(c, irq))
  {
    hide OnlyEntered;
    if c.status.cur.irqon && irq {
      EnteredOnce(c, Begun(c, irq));
    } else {
      EnteredNot(c, Begun(c, irq));
    }
  }

  lemma AdvancedEntered(c: Cpu, ramSize: word, insn: word)
    ensures OnlyEntered(c, Advanced(c, ramSize, insn).0)
  {
    hide OnlyEntered, PrecomputedNext;
    var d := c.(pc := c.nextpc, pcoff := c.nextpcoff, pcpage := c.nextpcpage, nextpc := Next(c.nextpc));
    PrecomputedNextTurn(d, ramSize);
    EnteredIf(c, Advanced(c, ramSize, insn).0, Advanced(c, ramSize, insn).1);
  }

  lemma BranchEntered(c: Cpu, code: (Page, word) -> word, ramSize: word, target: word)
    ensures OnlyEntered(c, Branched(c, code, ramSize, target))
  {
    hide OnlyEntered, PrecomputedNext;
    var d := c.(nextpc := target, jumping := true);
    var r := Branched(c, code, ramSize, target);
    if target % 4 != 0 {
      EnteredOnce(c, r);
    } else if code(d.pcpage, d.pcoff) == OP_RFE {
      EnteredNot(c, r);
    } else {
      PrecomputedNextTurn(d, ramSize);
      EnteredIf(c, r, PrecomputedNext(d, ramSize).1);
    }
  }

  lemma AccessEntered(c: Cpu, code: (Page, word) -> word, ramSize: word, op: Op)
    requires op.Access?
    ensures OnlyEntered(c, Executed(c, code, ramSize, op))
  {
    hide OnlyEntered, Translated;
    var t := Translated(c, op.vaddr, op.iswrite);
    TranslatedTurn(c, op.vaddr, op.iswrite);
    EnteredIf(c, Executed(c, code, ramSize, op), t.1 && !op.busError);
  }

  /* An instruction that is not an RFE and does not write STATUS. */
  lemma ExecutedEntered(c: Cpu, code: (Page, word) -> word, ramSize: word, op: Op)
    requires !op.Rfe? && !op.MtStatus?
    ensures OnlyEntered(c, Executed(c, code, ramSize, op))
  {
    hide OnlyEntered, PrecomputedBoth, Branched, Translated;
    var r := Executed(c, code, ramSize, op);
    match op
    case Stall => BothEntered(Restarted(c), ramSize); SameStatus(c, Restarted(c), r);
    case Branch(target) => BranchEntered(c, code, ramSize, target);
    case Access(_, _, _, _) => AccessEntered(c, code, ramSize, op);
    case Trap(_, _) => EnteredOnce(c, r);
    case TlbWrite(ix) =>
      if ix < |c.tlb| {
        var d := c.(tlb := c.tlb[ix := c.entry]);
        BothEntered(d, ramSize);
        SameStatus(c, d, r);
      } else {
        EnteredNot(c, r);
      }
    case _ => EnteredNot(c, r);
  }

  lemma SameStatus(c: Cpu, d: Cpu, e: Cpu)
    requires c.status == d.status && c.exceptions == d.exceptions && OnlyEntered(d, e)
    ensures OnlyEntered(c, e)
  {
  }

  /* The turns of one cycle: exceptions, and the return if it executes an RFE. */
  function CycleTurns(c: Cpu, code: (Page, word) -> word, ramSize: word, irq: bool, op: Op): seq<Turn> {
    var b := Begun(c, irq);
    var a := Advanced(b, ramSize, Fetched(b, code));
    var r := Cycled(c, code, ramSize, irq, op);
    if a.1 && op.Rfe? then Enters(Taken(c, a.0)) + [Leave] + Enters(Taken(a.0, r)) else Enters(Taken(c, r))
  }

  lemma CycleTakesTurns(c: Cpu, code: (Page, word) -> word, ramSize: word, irq: bool, op: Op)
    requires !op.MtStatus?
    ensures After(c.status, CycleTurns(c, code, ramSize, irq, op)) == Cycled(c, code, ramSize, irq, op).status
  {
    hide Begun, Advanced, Executed, PrecomputedBoth, After, Fetched;
    var b := Begun(c, irq);
    var a := Advanced(b, ramSize, Fetched(b, code));
    BegunEntered(c, irq);
    AdvancedEntered(b, ramSize, Fetched(b, code));
    EnteredBoth(c, b, a.0);
    if a.1 && op.Rfe? {
      var d := a.0.(status := Popped(a.0.status), inJumpDelay := false, expc := a.0.pc);
      BothEntered(d, ramSize);
      ReturnTurns(c, a.0, d, PrecomputedBoth(d, ramSize));
      ExecutesRfe(a.0, code, ramSize);
    } else if a.1 {
      ExecutedEntered(a.0, code, ramSize, op);
      EnteredBoth(c, a.0, Executed(a.0, code, ramSize, op));
    }
  }

  lemma ExecutesRfe(c: Cpu, code: (Page, word) -> word, ramSize: word)
    ensures Executed(c, code, ramSize, Rfe)
         == PrecomputedBoth(c.(status := Popped(c.status), inJumpDelay := false, expc := c.pc), ramSize)
  {
    hide PrecomputedBoth;
  }

  lemma ReturnTurns(c: Cpu, a: Cpu, d: Cpu, r: Cpu)
    requires OnlyEntered(c, a) && d.status == Popped(a.status) && d.exceptions == a.exceptions && OnlyEntered(d, r)
    ensures After(c.status, Enters(Taken(c, a)) + [Leave] + Enters(Taken(a, r))) == r.status
  {
    var u, v := Enters(Taken(c, a)), Enters(Taken(a, r));
    AfterJoin(c.status, u + [Leave], v);
    AfterJoin(c.status, u, [Leave]);
    assert [Leave][..0] == [] && After(a.status, [Leave]) == Stepped(After(a.status, []), Leave);
  }

  function Turns(c: Cpu, code: (Page, word) -> word, ramSize: word, steps: seq<Step>): seq<Turn>
    decreases |steps|
  {
    if steps == [] then []
    else
      CycleTurns(c, code, ramSize, steps[0].irq, steps[0].op)
      + Turns(Cycled(c, code, ramSize, steps[0].irq, steps[0].op), code, ramSize, steps[1..])
  }

  predicate StatusKept(steps: seq<Step>) {
    forall i :: 0 <= i < |steps| ==> !steps[i].op.MtStatus?
  }

  /** Any run of the processor that does not write STATUS moves its status stack by
      the turns it takes, an entry for every exception and a return for every RFE. */
  lemma {:induction false} RunTakesTurns(c: Cpu, code: (Page, word) -> word, ramSize: word, steps: seq<Step>)
    requires StatusKept(steps)
    ensures Ran(c, code, ramSize, steps).status == After(c.status, Turns(c, code, ramSize, steps))
    decreases |steps|
  {
    hide Cycled, CycleTurns, After;
    if steps == [] {
      NoTurns(c.status);
    } else {
      var d := Cycled(c, code, ramSize, steps[0].irq, steps[0].op);
      CycleTakesTurns(c, code, ramSize, steps[0].irq, steps[0].op);
      RunTakesTurns(d, code, ramSize, steps[1..]);
      AfterJoin(c.status, CycleTurns(c, code, ramSize, steps[0].irq, steps[0].op), Turns(d, code, ramSize, steps[1..]));
    }
  }

  lemma NoTurns(s: Status)
    ensures After(s, []) == s
  {
  }

  /** So over any such run that returns from as many exceptions as it takes, and
      from none before taking it, mode and interrupt enable come back exactly if it
      was never more than two deep in handlers, or there was nothing to lose. */
  lemma RunRestoresMode(c: Cpu, code: (Page, word) -> word, ramSize: word, steps: seq<Step>)
    requires StatusKept(steps)
    requires var w := Turns(c, code, ramSize, steps); Nested(w) && Level(w) == 0
    ensures Ran(c, code, ramSize, steps).status.cur == c.status.cur
       <==> Deepest(Turns(c, code, ramSize, steps)) <= 2 || c.status.cur == KERNEL_OFF
  {
    hide Ran, Turns, After;
    RunTakesTurns(c, code, ramSize, steps);
    ModeRestored(c.status, Turns(c, code, ramSize, steps));
  }
}
