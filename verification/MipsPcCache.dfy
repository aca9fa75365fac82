/**
 The cached page pointers of pc and nextpc agree with translating the two
 addresses afresh, at the start of every cycle of every run: through branches,
 delay slots, page crossings, stalls, TLB writes, exceptions and returns.
 */
module MipsPcCache {
  import opened Words
  import opened MipsMmu
  import opened MipsState

  ghost predicate PcCached(c: Cpu, ramSize: word) {
    LocateIn(c, ramSize, c.pc) == Place(c.pcpage, c.pcoff)
  }

  ghost predicate NextCached(c: Cpu, ramSize: word) {
    LocateIn(c, ramSize, c.nextpc) == Place(c.nextpcpage, c.nextpcoff)
  }

  /* An RFE waits in the delay slot of the jump just taken. The place it returns
     to must not be looked up before the mode has changed. */
  predicate Deferred(c: Cpu, code: (Page, word) -> word) {
    c.jumping && Fetched(c, code) == OP_RFE && c.nextpcpage == NoPage
  }

  /* Going back to expc and carrying on from there would not fault. */
  ghost predicate Restartable(c: Cpu, ramSize: word) {
    LocateIn(c, ramSize, c.expc).Place? && LocateIn(c, ramSize, Next(c.expc)).Place?
  }

  ghost predicate WellFormed(c: Cpu, ramSize: word) {
    AlignedTlb(c.tlb) && AlignedEntry(c.entry) && ramSize > 0
  }

  /* What holds at the start of every cycle. */
  ghost predicate InStep(c: Cpu, code: (Page, word) -> word, ramSize: word) {
    WellFormed(c, ramSize) && PcCached(c, ramSize)
    && (NextCached(c, ramSize) || Deferred(c, code))
    && (if c.jumping then Restartable(c, ramSize) else c.nextpc == Next(c.pc))
  }

  /* Between instructions of straight-line code: both places cached. */
  ghost predicate Settled(c: Cpu, ramSize: word) {
    WellFormed(c, ramSize) && PcCached(c, ramSize) && NextCached(c, ramSize)
    && !c.jumping && c.nextpc == Next(c.pc)
  }

  /* The way through mx_copz to do_rfe: coprocessor 0, the bit for a real
     coprocessor operation, and operation 16. */
  predicate ReachesRfe(insn: word) {
    insn / 0x400_0000 == 16 && insn / 0x200_0000 % 2 == 1 && insn % 0x200_0000 == 16
  }

  /** The word that branches and page crossings look out for is the only one
      that decodes as RFE. */
  lemma OnlyOneRfe(insn: word)
    ensures ReachesRfe(insn) <==> insn == OP_RFE
  {
    assert insn == 0x200_0000 * (insn / 0x200_0000) + insn % 0x200_0000;
    assert insn / 0x400_0000 == insn / 0x200_0000 / 2;
  }

  /* What the decoder makes of an RFE, and only of it. */
  predicate Decodes(c: Cpu, insn: word, op: Op) {
    (insn == OP_RFE ==> if c.status.cur.user then op.Trap? else op.Rfe?)
    && (op.Rfe? ==> insn == OP_RFE)
    && (op.TlbWrite? || op.TlbRead? ==> op.ix < |c.tlb|)
  }

  /* In address space `pid` the TLB still leads from v to this page, if v goes
     through the TLB at all. */
  predicate StillMapped(tlb: seq<TlbEntry>, pid: word, ramSize: word, v: word, page: Page) {
    !Mapped(v)
    || (var ix := FirstMatch(tlb, PageOf(v), pid, 0);
        ix >= 0 && tlb[ix].valid && MapMem(tlb[ix].pfn, ramSize) == page)
  }

  predicate BothStillMapped(c: Cpu, ramSize: word, pid: word) {
    StillMapped(c.tlb, pid, ramSize, c.pc, c.pcpage) && StillMapped(c.tlb, pid, ramSize, c.nextpc, c.nextpcpage)
  }

  /* Writes to STATUS, TLBHI and the like do not look the pc up again. What they
     have to leave as it was, for the cached places to stay right: no user mode
     above the user segment, and in the new address space, whether or not it is
     the old one, the same pages under the code about to run. */
  predicate KeepsSpace(c: Cpu, ramSize: word, op: Op) {
    match op
    case MtStatus(val) => Bit(val, 2) ==> c.pc < 0x8000_0000 && c.nextpc < 0x8000_0000
    case MtTlbHi(val) => BothStillMapped(c, ramSize, WithTlbHi(c.entry, val).pid)
    case TlbRead(ix) => ix < |c.tlb| && BothStillMapped(c, ramSize, c.tlb[ix].pid)
    case _ => true
  }

  // ------------------------------------------------------------------
  // Exception entry

  /** Wherever it starts, exception entry ends in kernel mode with interrupts off
      at a hardwired vector, with both places cached and one exception counted. */
  lemma RaiseSettles(c: Cpu, ramSize: word, ex: nat, cn: nat, vaddr: word)
    requires WellFormed(c, ramSize)
    ensures var r := Raise(c, ex, cn, vaddr);
            Settled(r, ramSize) && r.status.cur == KERNEL_OFF
            && r.pc in {0xbfc0_0100, 0xbfc0_0180, 0x8000_0000, 0x8000_0080}
            && r.exceptions == c.exceptions + 1 && !r.llActive && r.report.epc == c.expc
  {
    VectorsLocated(Raise(c, ex, cn, vaddr), ramSize, UsesUtlbVector(ex, cn));
  }

  lemma TranslatedKeeps(c: Cpu, ramSize: word, vaddr: word, iswrite: bool)
    requires Settled(c, ramSize)
    ensures Settled(Translated(c, vaddr, iswrite).0, ramSize)
  {
    match Look(c, vaddr, iswrite)
    case Phys(_) =>
    case Fault(ex, utlb) => RaiseSettles(Probed(c, vaddr), ramSize, ex, if utlb then 1 else 0, vaddr);
  }

  lemma PrecomputedCaches(c: Cpu, ramSize: word)
    requires WellFormed(c, ramSize)
    ensures var r := Precomputed(c, ramSize);
            WellFormed(r.0, ramSize) && PcCached(r.0, ramSize)
            && (r.1 <==> LocateIn(c, ramSize, c.pc).Place?)
            && if r.1 then r.0 == c.(entry := r.0.entry, pcpage := r.0.pcpage, pcoff := r.0.pcoff)
                           && r.0.entry.pid == c.entry.pid
               else Settled(r.0, ramSize)
  {
    if LocateIn(c, ramSize, c.pc).Nowhere? {
      match Look(c, c.pc, false)
      case Phys(_) => RaiseSettles(Probed(c, c.pc), ramSize, EX_IBE, 0, 0);
      case Fault(ex, utlb) => RaiseSettles(Probed(c, c.pc), ramSize, ex, if utlb then 1 else 0, c.pc);
    }
  }

  lemma PrecomputedNextCaches(c: Cpu, ramSize: word)
    requires WellFormed(c, ramSize)
    ensures var r := PrecomputedNext(c, ramSize);
            WellFormed(r.0, ramSize) && NextCached(r.0, ramSize)
            && (r.1 <==> LocateIn(c, ramSize, c.nextpc).Place?)
            && if r.1 then r.0 == c.(entry := r.0.entry, nextpcpage := r.0.nextpcpage, nextpcoff := r.0.nextpcoff)
                           && r.0.entry.pid == c.entry.pid
               else Settled(r.0, ramSize)
  {
    if LocateIn(c, ramSize, c.nextpc).Nowhere? {
      match Look(c, c.nextpc, false)
      case Phys(_) => RaiseSettles(Probed(c, c.nextpc), ramSize, EX_IBE, 0, 0);
      case Fault(ex, utlb) => RaiseSettles(Probed(c, c.nextpc), ramSize, ex, if utlb then 1 else 0, c.nextpc);
    }
  }

  /** Looking both places up again settles the processor, whether they are there
      or one of them faults. */
  lemma PrecomputedBothSettles(c: Cpu, ramSize: word)
    requires WellFormed(c, ramSize) && !c.jumping && c.nextpc == Next(c.pc)
    ensures Settled(PrecomputedBoth(c, ramSize), ramSize)
  {
    PrecomputedCaches(c, ramSize);
    PrecomputedNextCaches(Precomputed(c, ramSize).0, ramSize);
  }

  // ------------------------------------------------------------------
  // One cycle

  /* After the interrupt check the instruction at pc is about to be fetched. */
  lemma BegunReady(c: Cpu, code: (Page, word) -> word, ramSize: word, irq: bool)
    requires InStep(c, code, ramSize)
    ensures var b := Begun(c, irq);
            WellFormed(b, ramSize) && PcCached(b, ramSize) && !b.jumping && Restartable(b, ramSize)
            && (NextCached(b, ramSize) || Fetched(b, code) == OP_RFE)
  {
    var d := if c.jumping then c.(jumping := false, inJumpDelay := true) else c.(expc := c.pc);
    if d.status.cur.irqon && irq {
      RaiseSettles(d, ramSize, EX_IRQ, 0, 0);
    }
  }

  lemma AdvancedSettles(b: Cpu, code: (Page, word) -> word, ramSize: word)
    requires WellFormed(b, ramSize) && !b.jumping && NextCached(b, ramSize)
    requires Fetched(b, code) != OP_RFE
    ensures Settled(Advanced(b, ramSize, Fetched(b, code)).0, ramSize)
  {
    var d := b.(pc := b.nextpc, pcoff := b.nextpcoff, pcpage := b.nextpcpage, nextpc := Next(b.nextpc));
    if d.nextpc % PAGE != 0 {
      LocateNextWord(b.tlb, b.entry.pid, b.status.cur.user, ramSize, b.nextpc);
    } else {
      PrecomputedNextCaches(d, ramSize);
    }
  }

  /* Advancing past an instruction leaves the address space and expc alone,
     unless it faults. */
  lemma AdvancedKeeps(b: Cpu, ramSize: word, insn: word)
    requires WellFormed(b, ramSize)
    ensures var a := Advanced(b, ramSize, insn);
            WellFormed(a.0, ramSize)
            && if a.1 then a.0.tlb == b.tlb && a.0.entry.pid == b.entry.pid && a.0.status == b.status
                           && a.0.expc == b.expc && a.0.jumping == b.jumping && a.0.nextpc == Next(a.0.pc)
               else Settled(a.0, ramSize)
  {
    var d := b.(pc := b.nextpc, pcoff := b.nextpcoff, pcpage := b.nextpcpage, nextpc := Next(b.nextpc));
    PrecomputedNextCaches(d, ramSize);
  }

  lemma BranchedInStep(d: Cpu, code: (Page, word) -> word, ramSize: word, target: word)
    requires Settled(d, ramSize) && Restartable(d, ramSize)
    ensures InStep(Branched(d, code, ramSize, target), code, ramSize)
  {
    if target % 4 != 0 {
      RaiseSettles(d, ramSize, EX_ADEL, 0, target);
    } else {
      PrecomputedNextCaches(d.(nextpc := target, jumping := true), ramSize);
    }
  }

  /** A stall goes back to expc, the instruction itself or the jump it is the
      delay slot of, and finds both places there: it never faults. */
  lemma StallNeverFaults(d: Cpu, ramSize: word)
    requires WellFormed(d, ramSize) && Restartable(d, ramSize)
    ensures var p := Precomputed(Restarted(d), ramSize);
            p.1 && PrecomputedNext(p.0, ramSize).1
    ensures Settled(PrecomputedBoth(Restarted(d), ramSize), ramSize)
    ensures PrecomputedBoth(Restarted(d), ramSize).pc == d.expc
  {
    PrecomputedCaches(Restarted(d), ramSize);
    PrecomputedNextCaches(Precomputed(Restarted(d), ramSize).0, ramSize);
    PrecomputedBothSettles(Restarted(d), ramSize);
  }

  lemma AccessSettles(d: Cpu, code: (Page, word) -> word, ramSize: word, op: Op)
    requires Settled(d, ramSize) && op.Access?
    ensures Settled(Executed(d, code, ramSize, op), ramSize)
  {
    TranslatedKeeps(d, ramSize, op.vaddr, op.iswrite);
    var t := Translated(d, op.vaddr, op.iswrite);
    if t.1 && op.busError { RaiseSettles(t.0, ramSize, EX_DBE, 0, 0); }
  }

  lemma TlbWriteSettles(d: Cpu, code: (Page, word) -> word, ramSize: word, op: Op)
    requires Settled(d, ramSize) && op.TlbWrite?
    ensures Settled(Executed(d, code, ramSize, op), ramSize)
  {
    if op.ix < |d.tlb| {
      PrecomputedBothSettles(d.(tlb := d.tlb[op.ix := d.entry]), ramSize);
    }
  }

  /** A write to STATUS leaves the cached places right exactly when it stays in
      kernel mode or everything about to run is in the user segment. */
  lemma StatusWriteExact(c: Cpu, ramSize: word, val: word)
    requires Settled(c, ramSize)
    ensures Settled(c.(status := StatusFrom(val)), ramSize) <==> KeepsSpace(c, ramSize, MtStatus(val))
  {
  }

  lemma StillLocated(c: Cpu, ramSize: word, e: TlbEntry, v: word, page: Page, off: word)
    requires WellFormed(c, ramSize) && LocateIn(c, ramSize, v) == Place(page, off)
    ensures LocateIn(c.(entry := e), ramSize, v) == Place(page, off) <==> StillMapped(c.tlb, e.pid, ramSize, v, page)
  {
    hide FirstMatch, MapMem;
    if Mapped(v) {
      var ix, was := FirstMatch(c.tlb, PageOf(v), e.pid, 0), FirstMatch(c.tlb, PageOf(v), c.entry.pid, 0);
      FramePlace(c.tlb[was].pfn, v % PAGE, ramSize);
      if ix >= 0 {
        FramePlace(c.tlb[ix].pfn, v % PAGE, ramSize);
      }
    }
  }

  lemma FramePlace(pfn: word, off: word, ramSize: word)
    requires pfn % PAGE == 0 && off < PAGE
    ensures MapMem(Join(pfn, off), ramSize) == MapMem(pfn, ramSize) && Join(pfn, off) % PAGE == off
  {
    MapMemByPage(Join(pfn, off), pfn, ramSize);
  }

  /** A change of TLBHI, by MTC0 or TLBR, leaves the cached places right exactly
      if the new address space maps pc and nextpc to the pages they are on. */
  lemma EntryWriteExact(c: Cpu, ramSize: word, e: TlbEntry)
    requires Settled(c, ramSize) && AlignedEntry(e)
    ensures Settled(c.(entry := e), ramSize) <==> BothStillMapped(c, ramSize, e.pid)
  {
    hide LocateIn, StillMapped;
    StillLocated(c, ramSize, e, c.pc, c.pcpage, c.pcoff);
    StillLocated(c, ramSize, e, c.nextpc, c.nextpcpage, c.nextpcoff);
  }

  lemma SameSpace(c: Cpu, ramSize: word, e: TlbEntry)
    requires Settled(c, ramSize) && AlignedEntry(e) && e.pid == c.entry.pid
    ensures Settled(c.(entry := e), ramSize)
  {
  }

  /** Every write to these registers: exactly when it may be made under way. */
  lemma RegisterWriteExact(d: Cpu, code: (Page, word) -> word, ramSize: word, op: Op)
    requires Settled(d, ramSize)
    requires op.TlbRead? || op.MtTlbLo? || op.MtTlbHi? || op.MtStatus?
    requires op.TlbRead? ==> op.ix < |d.tlb|
    ensures Settled(Executed(d, code, ramSize, op), ramSize) <==> KeepsSpace(d, ramSize, op)
  {
    hide Settled, BothStillMapped;
    match op
    case TlbRead(ix) => TlbAligned(d, ramSize, ix); EntryWriteExact(d, ramSize, d.tlb[ix]);
    case MtTlbLo(val) => EntryAligned(d, ramSize, val); SameSpace(d, ramSize, WithTlbLo(d.entry, val));
    case MtTlbHi(val) => EntryAligned(d, ramSize, val); EntryWriteExact(d, ramSize, WithTlbHi(d.entry, val));
    case MtStatus(val) => StatusWriteExact(d, ramSize, val);
  }

  lemma TlbAligned(c: Cpu, ramSize: word, ix: nat)
    requires Settled(c, ramSize) && ix < |c.tlb|
    ensures AlignedEntry(c.tlb[ix])
  {
  }

  lemma EntryAligned(c: Cpu, ramSize: word, val: word)
    requires Settled(c, ramSize)
    ensures AlignedEntry(WithTlbLo(c.entry, val)) && AlignedEntry(WithTlbHi(c.entry, val))
  {
    hide PcCached, NextCached, AlignedTlb, Bit, PageOf;
    PageOfAligned(val);
  }

  lemma PageOfAligned(v: word)
    ensures PageOf(v) % PAGE == 0
  {
  }

  lemma ExecutedInStep(d: Cpu, code: (Page, word) -> word, ramSize: word, op: Op)
    requires Settled(d, ramSize) && Restartable(d, ramSize)
    requires !op.Rfe? && KeepsSpace(d, ramSize, op)
    requires op.TlbRead? ==> op.ix < |d.tlb|
    ensures InStep(Executed(d, code, ramSize, op), code, ramSize)
  {
    match op
    case Plain =>
    case Stall => StallNeverFaults(d, ramSize);
    case Branch(target) => BranchedInStep(d, code, ramSize, target);
    case Access(_, _, _, _) => AccessSettles(d, code, ramSize, op);
    case Trap(ex, cn) => RaiseSettles(d, ramSize, ex, cn, 0);
    case TlbWrite(_) => TlbWriteSettles(d, code, ramSize, op);
    case _ => RegisterWriteExact(d, code, ramSize, op);
  }

  ghost predicate LegalCycle(c: Cpu, code: (Page, word) -> word, ramSize: word, irq: bool, op: Op) {
    var b := Begun(c, irq);
    var a := Advanced(b, ramSize, Fetched(b, code));
    Decodes(b, Fetched(b, code), op) && (a.1 ==> KeepsSpace(a.0, ramSize, op))
  }

  /* With an RFE the place of nextpc may be missing: whatever the RFE does, to
     return or to trap in user mode, looks both places up again. */
  lemma RfeSettles(d: Cpu, code: (Page, word) -> word, ramSize: word, op: Op)
    requires WellFormed(d, ramSize) && !d.jumping && d.nextpc == Next(d.pc)
    requires op.Rfe? || op.Trap?
    ensures Settled(Executed(d, code, ramSize, op), ramSize)
  {
    match op
    case Rfe => PrecomputedBothSettles(d.(status := Popped(d.status), inJumpDelay := false, expc := d.pc), ramSize);
    case Trap(ex, cn) => RaiseSettles(d, ramSize, ex, cn, 0);
  }

  lemma SlotDone(c: Cpu, code: (Page, word) -> word, ramSize: word)
    requires InStep(c, code, ramSize)
    ensures InStep(c.(inJumpDelay := false), code, ramSize)
  {
  }

  lemma CycledInStep(c: Cpu, code: (Page, word) -> word, ramSize: word, irq: bool, op: Op)
    requires InStep(c, code, ramSize) && LegalCycle(c, code, ramSize, irq, op)
    ensures InStep(Cycled(c, code, ramSize, irq, op), code, ramSize)
  {
    var b := Begun(c, irq);
    var insn := Fetched(b, code);
    var a := Advanced(b, ramSize, insn);
    BegunReady(c, code, ramSize, irq);
    AdvancedKeeps(b, ramSize, insn);
    if !a.1 {
    } else if insn == OP_RFE {
      RfeSettles(a.0, code, ramSize, op);
      SlotDone(Executed(a.0, code, ramSize, op), code, ramSize);
    } else {
      AdvancedSettles(b, code, ramSize);
      ExecutedInStep(a.0, code, ramSize, op);
      SlotDone(Executed(a.0, code, ramSize, op), code, ramSize);
    }
  }

  /** A cycle ends in step exactly if what it writes keeps the space: nothing
      narrower will do for the run theorem, and nothing wider is true. */
  lemma CycleExact(c: Cpu, code: (Page, word) -> word, ramSize: word, irq: bool, op: Op)
    requires InStep(c, code, ramSize)
    requires Decodes(Begun(c, irq), Fetched(Begun(c, irq), code), op)
    ensures InStep(Cycled(c, code, ramSize, irq, op), code, ramSize) <==> LegalCycle(c, code, ramSize, irq, op)
  {
    hide Decodes, Begun, Advanced, Executed, KeepsSpace, Settled;
    if LegalCycle(c, code, ramSize, irq, op) {
      CycledInStep(c, code, ramSize, irq, op);
    } else {
      IllegalLeavesStep(c, code, ramSize, irq, op);
    }
  }

  lemma IllegalLeavesStep(c: Cpu, code: (Page, word) -> word, ramSize: word, irq: bool, op: Op)
    requires InStep(c, code, ramSize) && !LegalCycle(c, code, ramSize, irq, op)
    requires Decodes(Begun(c, irq), Fetched(Begun(c, irq), code), op)
    ensures !InStep(Cycled(c, code, ramSize, irq, op), code, ramSize)
  {
    hide Begun, Advanced, LocateIn, StillMapped;
    var b := Begun(c, irq);
    var a := Advanced(b, ramSize, Fetched(b, code));
    BegunReady(c, code, ramSize, irq);
    AdvancedSettles(b, code, ramSize);
    RegisterWriteExact(a.0, code, ramSize, op);
    var e := Executed(a.0, code, ramSize, op);
    assert !e.jumping && !Settled(e, ramSize);
    if InStep(e.(inJumpDelay := false), code, ramSize) {
      StillInStep(e, code, ramSize);
    }
  }

  /* Clearing the delay-slot flag puts nothing in step. */
  lemma StillInStep(e: Cpu, code: (Page, word) -> word, ramSize: word)
    requires !e.jumping && InStep(e.(inJumpDelay := false), code, ramSize)
    ensures Settled(e, ramSize)
  {
  }

  // ------------------------------------------------------------------
  // What an exception reports

  /* No cycle begins in a delay slot that has been dealt with. */
  lemma SlotFlagClears(c: Cpu, code: (Page, word) -> word, ramSize: word, irq: bool, op: Op)
    requires InStep(c, code, ramSize)
    ensures !Cycled(c, code, ramSize, irq, op).inJumpDelay
  {
    var b := Begun(c, irq);
    BegunReady(c, code, ramSize, irq);
  }

  /** An instruction that is not in a delay slot reports its own address. */
  lemma EpcNamesInstruction(c: Cpu, code: (Page, word) -> word, ramSize: word, ex: nat, cn: nat)
    requires !c.jumping && !c.inJumpDelay
    requires Advanced(Begun(c, false), ramSize, Fetched(Begun(c, false), code)).1
    ensures var r := Cycled(c, code, ramSize, false, Trap(ex, cn)).report;
            r.epc == c.pc && !r.bd && r.code == ex
  {
  }

  /** One in the delay slot of a jump reports the jump, and says so; so going
      back to EPC does the jump again. */
  lemma EpcNamesJump(c: Cpu, code: (Page, word) -> word, ramSize: word, target: word, ex: nat, cn: nat)
    requires !c.jumping && !c.inJumpDelay
    requires Advanced(Begun(c, false), ramSize, Fetched(Begun(c, false), code)).1
    requires var d := Cycled(c, code, ramSize, false, Branch(target));
             d.jumping && Advanced(Begun(d, false), ramSize, Fetched(Begun(d, false), code)).1
    ensures var d := Cycled(c, code, ramSize, false, Branch(target));
            var r := Cycled(d, code, ramSize, false, Trap(ex, cn)).report;
            r.epc == c.pc && r.bd && r.code == ex
  {
    hide LocateIn;
    AdvancedInPlace(Begun(c, false), ramSize, Fetched(Begun(c, false), code));
    var d := Cycled(c, code, ramSize, false, Branch(target));
    AdvancedInPlace(Begun(d, false), ramSize, Fetched(Begun(d, false), code));
    BranchedInPlace(Advanced(Begun(c, false), ramSize, Fetched(Begun(c, false), code)).0, code, ramSize, target);
  }

  lemma AdvancedInPlace(b: Cpu, ramSize: word, insn: word)
    ensures var a := Advanced(b, ramSize, insn);
            a.1 ==> a.0.expc == b.expc && a.0.jumping == b.jumping && a.0.inJumpDelay == b.inJumpDelay
  {
  }

  lemma BranchedInPlace(d: Cpu, code: (Page, word) -> word, ramSize: word, target: word)
    ensures var r := Branched(d, code, ramSize, target);
            r.jumping ==> r.expc == d.expc
  {
  }

  // ------------------------------------------------------------------
  // Whole runs

  datatype Step = Step(irq: bool, op: Op)

  function Ran(c: Cpu, code: (Page, word) -> word, ramSize: word, steps: seq<Step>): Cpu
    decreases |steps|
  {
    if steps == [] then c
    else Ran(Cycled(c, code, ramSize, steps[0].irq, steps[0].op), code, ramSize, steps[1..])
  }

  ghost predicate LegalRun(c: Cpu, code: (Page, word) -> word, ramSize: word, steps: seq<Step>)
    decreases |steps|
  {
    steps == []
    || (LegalCycle(c, code, ramSize, steps[0].irq, steps[0].op)
        && LegalRun(Cycled(c, code, ramSize, steps[0].irq, steps[0].op), code, ramSize, steps[1..]))
  }

  lemma {:induction false} RunInStep(c: Cpu, code: (Page, word) -> word, ramSize: word, steps: seq<Step>)
    requires InStep(c, code, ramSize) && LegalRun(c, code, ramSize, steps)
    ensures InStep(Ran(c, code, ramSize, steps), code, ramSize)
    decreases |steps|
  {
    if steps != [] {
      CycledInStep(c, code, ramSize, steps[0].irq, steps[0].op);
      RunInStep(Cycled(c, code, ramSize, steps[0].irq, steps[0].op), code, ramSize, steps[1..]);
    }
  }

  /* mips_init. */
  function Reset(): Cpu {
    Cpu(0xbfc0_0000, 0xbfc0_0004, 0, NoPage, 0, NoPage, 0, false, false,
        ResetTlb(), ResetEntry(NTLB),
        Status(KERNEL_OFF, KERNEL_OFF, KERNEL_OFF, true), false,
        Report(false, 0, 0, 0, 0, 0, 0), 0)
  }

  lemma ResetInStep(code: (Page, word) -> word, ramSize: word)
    requires ramSize > 0
    ensures InStep(PrecomputedBoth(Reset(), ramSize), code, ramSize)
  {
    assert forall i: nat :: i < NTLB ==> AlignedEntry(ResetEntry(i));
    PrecomputedBothSettles(Reset(), ramSize);
  }

  /** After any run from reset, the word fetched through the cached page pointer,
      whether or not an interrupt is taken first, is the word that translating
      pc from scratch leads to. */
  lemma CachedFetchIsFullFetch(code: (Page, word) -> word, ramSize: word, steps: seq<Step>, irq: bool)
    requires ramSize > 0
    requires LegalRun(PrecomputedBoth(Reset(), ramSize), code, ramSize, steps)
    ensures var b := Begun(Ran(PrecomputedBoth(Reset(), ramSize), code, ramSize, steps), irq);
            LocateIn(b, ramSize, b.pc).Place?
            && Fetched(b, code) == code(LocateIn(b, ramSize, b.pc).page, LocateIn(b, ramSize, b.pc).off)
  {
    ResetInStep(code, ramSize);
    RunInStep(PrecomputedBoth(Reset(), ramSize), code, ramSize, steps);
    BegunReady(Ran(PrecomputedBoth(Reset(), ramSize), code, ramSize, steps), code, ramSize, irq);
  }

  /* The cached places are right at the start of every cycle, and at the end. */
  ghost predicate AlwaysInStep(c: Cpu, code: (Page, word) -> word, ramSize: word, steps: seq<Step>)
    decreases |steps|
  {
    InStep(c, code, ramSize)
    && (steps == [] || AlwaysInStep(Cycled(c, code, ramSize, steps[0].irq, steps[0].op), code, ramSize, steps[1..]))
  }

  ghost predicate DecodedRun(c: Cpu, code: (Page, word) -> word, ramSize: word, steps: seq<Step>)
    decreases |steps|
  {
    steps == []
    || (Decodes(Begun(c, steps[0].irq), Fetched(Begun(c, steps[0].irq), code), steps[0].op)
        && DecodedRun(Cycled(c, code, ramSize, steps[0].irq, steps[0].op), code, ramSize, steps[1..]))
  }

  /** A run stays in step throughout exactly if each of its cycles keeps the space. */
  lemma {:induction false} RunExact(c: Cpu, code: (Page, word) -> word, ramSize: word, steps: seq<Step>)
    requires InStep(c, code, ramSize) && DecodedRun(c, code, ramSize, steps)
    ensures AlwaysInStep(c, code, ramSize, steps) <==> LegalRun(c, code, ramSize, steps)
    decreases |steps|
  {
    hide InStep, Cycled, LegalCycle, Decodes;
    if steps != [] {
      var d := Cycled(c, code, ramSize, steps[0].irq, steps[0].op);
      CycleExact(c, code, ramSize, steps[0].irq, steps[0].op);
      if InStep(d, code, ramSize) {
        RunExact(d, code, ramSize, steps[1..]);
      }
    }
  }

  /** In particular the places go stale when the new space does not map the pc. */
  lemma TlbHiWriteLeavesStale(c: Cpu, ramSize: word, val: word)
    requires Settled(c, ramSize) && Mapped(c.pc)
    requires FirstMatch(c.tlb, PageOf(c.pc), val / 64 % 64, 0) < 0
    ensures !PcCached(c.(entry := WithTlbHi(c.entry, val)), ramSize)
  {
  }
}
