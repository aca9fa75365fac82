/**
 What a cycle of the RISC-V processor comes to, by the words of memory and the
 fields of the processor: the instruction that is decoded, where each kind of
 instruction goes, and what each trap reports.
 */
module RiscvEffects {
  import opened Words
  import opened RiscvMmu
  import opened RiscvFetch

  // ------------------------------------------------------------------
  // The instruction

  /* The halfword at an even physical address, if the memory there can be read. */
  ghost predicate Holds(m: Memory, p: word, half: nat) {
    match m.cells(p - p % 4)
    case Data(w) => half == if p % 4 == 2 then w / 0x1_0000 else w % 0x1_0000
    case BusError => true
  }

  lemma HalfHeld(m: Memory, p: word)
    requires p % 2 == 0
    ensures Holds(m, p, HalfAt(m, p / PAGE, p % PAGE))
  {
    SameRemainder(p, p / PAGE, p % PAGE);
  }

  lemma SameRemainder(p: nat, q: nat, r: nat)
    requires p == PAGE * q + r
    ensures p % 4 == r % 4 && p % 2 == r % 2
  {
    Quotient(p, 4, 1024 * q + r / 4, r % 4);
    Quotient(p, 2, 2048 * q + r / 2, r % 2);
  }

  /** The instruction decoded is in memory where the pc was found to lead: two bytes
      if its two lowest bits are not both set, none that is known if the next three
      are, and else four, the upper two from wherever the pc plus two leads. */
  lemma FetchReadsMemory(m: Memory, h: Hart, w: Mmu)
    requires Follows(m, h, w)
    ensures exists low: nat :: Holds(m, 4096 * h.page + h.pcoff, low) &&
              match FetchedFrom(m, h).1
              case Short(insn) => insn == low && low % 4 != 3
              case Illegal(bits) => low % 4 == 3 && low / 4 % 8 == 7 && bits % 0x1_0000 == low
              case Faulted => low % 4 == 3 && low / 4 % 8 != 7 && !SecondHalf(m, h).Phys?
              case Long(insn) =>
                && low % 4 == 3 && low / 4 % 8 != 7 && SecondHalf(m, h).Phys?
                && exists high: nat :: Holds(m, SecondHalf(m, h).paddr, high) && insn == low + 0x1_0000 * high
  {
    hide Lookup, Translated, Maps, Target, FetchedFrom, Holds, WordAt, HalfAt;
    var p := At(h.page, h.pcoff);
    FetchAssembles(m, h, w);
    PageAndOffset(h.page, h.pcoff);
    HalfHeld(m, p);
    var low := HalfAt(m, h.page, h.pcoff);
    assert Holds(m, 4096 * h.page + h.pcoff, low);
    LowIs(m, h.page, h.pcoff);
    if SecondHalf(m, h).Phys? {
      SecondEven(m, h, w);
      HalfHeld(m, SecondHalf(m, h).paddr);
    }
  }

  lemma LowIs(m: Memory, page: frame, off: word)
    requires off < PAGE && off % 2 == 0
    ensures off % 4 != 2 ==> WordAt(m, page, off) % 0x1_0000 == HalfAt(m, page, off)
    ensures HalfAt(m, page, off) % 0x1_0000 == HalfAt(m, page, off)
  {
  }

  lemma SecondEven(m: Memory, h: Hart, w: Mmu)
    requires Follows(m, h, w) && SecondHalf(m, h).Phys?
    ensures SecondHalf(m, h).paddr % 2 == 0
  {
    hide Lookup, Translated, Maps, Target;
    if h.pcoff + 2 < PAGE {
      SameRemainder(At(h.page, h.pcoff + 2), h.page, h.pcoff + 2);
    } else {
      SameWord(m, h.page, h.pcoff);
      CrossingOffset(m, h);
      var p := SecondHalf(m, h).paddr;
      SameRemainder(p, p / PAGE, 0);
    }
  }

  /** Instructions and page tables can be in RAM, from 0xc0000000 on, or in the boot
      ROM, from 0xffc00000 on, and nowhere else. */
  lemma MemoryIsWhere(p: word, ramSize: word, romSize: word)
    requires ramSize % PAGE == 0 && romSize % PAGE == 0
    ensures MapMem(p, ramSize, romSize) <==>
              || (0xc000_0000 <= p < 0xffc0_0000 && p - 0xc000_0000 < ramSize)
              || (0xffc0_0000 <= p < 0xffe0_0000 && p - 0xffc0_0000 < romSize)
  {
    PageWithin(p, 0xc_0000);
    PageWithin(p, 0xf_fc00);
    PageWithin(p, 0xf_fe00);
    PageWithin(p, 0xc_0000 + ramSize / PAGE);
    PageWithin(p, 0xf_fc00 + romSize / PAGE);
  }

  // ------------------------------------------------------------------
  // Where it goes

  function Onwards(v: word, n: nat): word {
    (v + n) % 0x1_0000_0000
  }

  /* r is at the trap vector of h with this to report. */
  predicate AtVector(h: Hart, r: Hart, cause: Cause, sepc: word, tval: word, spp: bool) {
    r.pc == h.stvec && r.cause == cause && r.sepc == sepc && r.tval == tval && r.spp == spp && r.mmu.super
  }

  /* r has gone to `dest`, with nothing reported. */
  predicate Went(h: Hart, r: Hart, dest: word) {
    && r.pc == dest && r.sepc == h.sepc && r.cause == h.cause && r.tval == h.tval && r.spp == h.spp
    && r.mmu.super == h.mmu.super
  }

  /* Or it has trapped because the instruction there cannot be fetched. */
  predicate Reached(h: Hart, r: Hart, dest: word) {
    || Went(h, r, dest)
    || AtVector(h, r, Exception(12), dest, dest, h.mmu.super)
    || AtVector(h, r, Exception(1), dest, dest, h.mmu.super)
  }

  /** Looking the pc up fails with an instruction page fault, code 12, if translation
      finds one, and with an instruction access fault, code 1, if it finds that or no
      memory. */
  lemma LookupReports(m: Memory, h: Hart)
    requires Sound(m, h.mmu) && h.pc % 2 == 0 && h.stvec % 2 == 0 && !h.stopped
    ensures var (r, ok) := Precomputed(m, h);
            var x := Translated(m.cells, h.mmu, h.pc, Execute).1;
            && (ok <==> x.Phys? && MapMem(x.paddr, m.ramSize, m.romSize))
            && (ok ==> 4096 * r.page + r.pcoff == x.paddr && r.pcoff < 4096)
            && (ok ==> Went(h, r, h.pc) && r.nextpc == h.nextpc && r.stvec == h.stvec && !r.stopped
                       && r.mmu == h.mmu.(cache := r.mmu.cache) && r.nextpcoff == r.pcoff)
            && (!ok && !r.stopped ==>
                  && AtVector(h, r, Exception(if x.PageFault? then 12 else 1), h.pc, h.pc, h.mmu.super)
                  && r.nextpc == r.pc && r.stvec == h.stvec && SameSpace(h.mmu, r.mmu))
  {
    hide Lookup, Translated, Maps, Trapped, MapMem;
    PrecomputedCoherent(m, h);
    SameTables(m, h.mmu, h.pc);
    if !Target(m, h).Phys? {
      TranslateKeepsSound(m, h.mmu, h.pc, Execute);
      TrapLands(m, Looked(m, h), FaultCode(Target(m, h)), h.pc);
      TrapKeepsSpace(m, Looked(m, h), FaultCode(Target(m, h)), h.pc);
    }
  }

  /* Only the mode and the cache differ. */
  predicate SameSpace(u: Mmu, v: Mmu) {
    v == u.(cache := v.cache, super := v.super)
  }

  lemma TrapKeepsSpace(m: Memory, h: Hart, cause: Cause, val: word)
    ensures SameSpace(h.mmu, Trapped(m, h, cause, val).mmu)
  {
    hide Lookup, Translated, MapMem;
    var t := h.(cause := cause, tval := val, spp := h.mmu.super, mmu := h.mmu.(super := true),
                sepc := h.pc, pc := h.stvec, nextpc := h.stvec);
    SameTables(m, t.mmu, t.pc);
  }

  lemma AtVectorStops(m: Memory, h: Hart)
    requires Sound(m, h.mmu) && h.pc == h.stvec && h.stvec % 2 == 0 && !h.stopped
    ensures Precomputed(m, h).1 || Precomputed(m, h).0.stopped
  {
    hide Lookup, Translated, Target;
  }

  lemma TrapGoes(m: Memory, f: Hart, cause: Cause, val: word)
    requires Sound(m, f.mmu) && f.stvec % 2 == 0 && !f.stopped
    ensures var r := Ended(m, Trapped(m, f, cause, val));
            r.stopped || (AtVector(f, r, cause, f.pc, val, f.mmu.super) && SameSpace(f.mmu, r.mmu))
  {
    hide Lookup, Translated, Maps, Target, Trapped, Precomputed, Sound;
    TrapLands(m, f, cause, val);
    TrapKeepsVector(m, f, cause, val);
    TrapKeepsSpace(m, f, cause, val);
    var t := Trapped(m, f, cause, val);
    if !t.stopped && t.pc % PAGE == 0 {
      LookupReports(m, t);
      AtVectorStops(m, t);
    }
  }

  lemma LookedUpEnds(m: Memory, f: Hart, dest: word)
    requires Sound(m, f.mmu) && dest % 2 == 0 && f.stvec % 2 == 0 && !f.stopped
    ensures var r := Ended(m, Jumped(m, f, dest));
            r.stopped || Reached(f, r, dest)
  {
    hide Lookup, Translated, Maps, Target, Trapped, Precomputed, Sound, MapMem;
    var d := f.(pc := dest, nextpc := dest);
    LookupReports(m, d);
    var t := Jumped(m, f, dest);
    if !t.stopped && t.pc % PAGE == 0 {
      PrecomputedCoherent(m, d);
      LookupReports(m, t);
      if t.pc == t.stvec {
        AtVectorStops(m, t);
      }
    }
  }

  /* Which of the two an instruction that goes on in sequence is. */
  function LengthOf(insn: Fetched): nat {
    if insn.Short? then 2 else 4
  }

  /* Where one instruction of the processor h leaves it, having been fetched. */
  ghost predicate Does(m: Memory, h: Hart, f: Hart, insn: Fetched, effect: Effect, r: Hart) {
    match insn
    case Faulted =>
      || AtVector(h, r, Exception(12), h.pc, Onwards(h.pc, 2), h.mmu.super)
      || AtVector(h, r, Exception(1), h.pc, Onwards(h.pc, 2), h.mmu.super)
    case Illegal(bits) => AtVector(h, r, Exception(2), h.pc, bits, h.mmu.super)
    case _ =>
      var next := Onwards(h.pc, LengthOf(insn));
      match effect
      case Goes(_) => Reached(h, r, next)
      case SetsSum(sum) => Reached(h, r, next) && r.mmu.sum == sum
      case SetsVector(vector) => Reached(h.(stvec := vector), r, next) && r.stvec == vector
      case Jumps(dest) => Reached(h, r, dest)
      case Returns(to, super) => Reached(h.(mmu := h.mmu.(super := super)), r, to)
      case Traps(_, code, val) => AtVector(h, r, Exception(code), h.pc, val, h.mmu.super)
      case WritesSatp(val) =>
        Reached(h, r, next) && r.mmu.enabled == (val >= 0x8000_0000) && r.mmu.base == val % 0x10_0000 * 4096
      case Fences =>
        if MapMem(h.mmu.base, m.ramSize, m.romSize) then Reached(h, r, next) && r.mmu.top == Table(h.mmu.base)
        else AtVector(h, r, Exception(5), h.pc, h.pc, h.mmu.super) && r.mmu.top.Unmapped?
  }

  lemma OnwardsAdd(v: word, n: nat)
    requires n <= 4
    ensures Add(v, n) == Onwards(v, n)
  {
  }

  /* Going on in sequence. */
  lemma SequenceGoes(m: Memory, g: Hart)
    requires Sound(m, g.mmu) && g.nextpc % 2 == 0 && g.stvec % 2 == 0 && !g.stopped
    ensures var r := Ended(m, g);
            r.stopped || (Reached(g, r, g.nextpc) && SameSpace(g.mmu, r.mmu) && r.stvec == g.stvec)
  {
    hide Lookup, Translated, Maps, Target, Trapped, Precomputed, Sound, MapMem;
    if g.nextpc % PAGE == 0 {
      LookupReports(m, g.(pc := g.nextpc));
    }
  }

  /* The fetch changes nothing else that a program can see. */
  lemma FetchKeeps(m: Memory, h: Hart, w: Mmu)
    requires Follows(m, h, w) && !h.stopped
    ensures var (f, insn) := FetchedFrom(m, h);
            && (insn.Short? || insn.Long? ==>
                  && Went(h, f, h.pc) && f.mmu == h.mmu.(cache := f.mmu.cache)
                  && f.nextpc == Onwards(h.pc, LengthOf(insn)) && f.stvec == h.stvec && !f.stopped && Sound(m, f.mmu))
            && (insn.Faulted? && !f.stopped ==>
                  || AtVector(h, f, Exception(12), h.pc, Onwards(h.pc, 2), h.mmu.super)
                  || AtVector(h, f, Exception(1), h.pc, Onwards(h.pc, 2), h.mmu.super))
  {
    hide Lookup, Translated, Maps, Target, Trapped, Precomputed, At, WordAt, MapMem, Sound;
    FetchLeavesReady(m, h, w);
    OnwardsAdd(h.pc, 2);
    OnwardsAdd(h.pc, 4);
    Onward(h.pc, 2);
    if h.pcoff + 2 == PAGE {
      LookupReports(m, h.(pc := Add(h.pc, 2)));
    }
  }

  /** Every instruction: fetching it, and what it does. Jumps and returns reach their
      destination or report that it cannot be fetched; traps report the instruction;
      everything else goes on to the next; and with every report goes the mode it was
      made in. */
  lemma InstructionDoes(m: Memory, h: Hart, effect: Effect, w: Mmu)
    requires Follows(m, h, w) && !h.stopped && Legal(effect)
    ensures var (f, insn) := FetchedFrom(m, h);
            var r := Executed(m, h, effect);
            r.stopped || Does(m, h, f, insn, effect, r)
  {
    hide Lookup, FetchedFrom, Ended, Jumped, Trapped, FencedOrTrapped, AllTranslated, Maps, MapMem, Sound, Target;
    FetchLeavesReady(m, h, w);
    FetchKeeps(m, h, w);
    var (f, insn) := FetchedFrom(m, h);
    if insn.Faulted? || f.stopped {
    } else if insn.Illegal? {
      TrapGoes(m, f, Exception(EX_ILLINST), insn.bits);
    } else if LooksUp(m, effect, f) {
      LookupDoes(m, f, effect);
      LookupsExecute(m, h, effect);
    } else {
      ExecutesGoneOn(m, h, effect);
      SequenceDoes(m, h, f, insn, effect);
    }
  }

  lemma SequenceDoes(m: Memory, h: Hart, f: Hart, insn: Fetched, effect: Effect)
    requires (insn.Short? || insn.Long?) && !LooksUp(m, effect, f) && Legal(effect) && h.pc % 2 == 0
    requires Went(h, f, h.pc) && f.mmu == h.mmu.(cache := f.mmu.cache) && f.stvec == h.stvec && !f.stopped
    requires f.nextpc == Onwards(h.pc, LengthOf(insn)) && Sound(m, f.mmu) && f.nextpc % 2 == 0 && f.stvec % 2 == 0
    ensures var r := Ended(m, GoneOn(m, f, effect));
            r.stopped || Does(m, h, f, insn, effect, r)
  {
    hide Lookup, Ended, AllTranslated, MapMem, Sound, GoneOn;
    GoneOnSound(m, f, effect);
    GoneOnDoes(m, f, effect);
    SequenceGoes(m, GoneOn(m, f, effect));
  }

  /** An interrupt reports itself, with its number, before the instruction at the pc. */
  lemma InterruptDoes(m: Memory, h: Hart, code: nat)
    requires Sound(m, h.mmu) && h.stvec % 2 == 0 && !h.stopped
    ensures var r := Interrupted(m, h, Irq(code));
            r.stopped || AtVector(h, r, Interrupt(code), h.pc, 0, h.mmu.super)
  {
    hide Lookup, Translated, Maps, Target, Sound;
    TrapLands(m, h, Interrupt(code), 0);
  }

  /* The registers an instruction in sequence writes. */
  lemma GoneOnDoes(m: Memory, f: Hart, effect: Effect)
    requires Sound(m, f.mmu)
    ensures var g := GoneOn(m, f, effect);
            && (effect.SetsSum? ==> g.mmu.sum == effect.sum)
            && (effect.SetsVector? ==> g.stvec == effect.vector)
            && (!effect.SetsVector? ==> g.stvec == f.stvec)
            && (effect.WritesSatp? ==> g.mmu.enabled == (effect.val >= 0x8000_0000)
                                       && g.mmu.base == effect.val % 0x10_0000 * 4096)
            && (effect.Fences? && MapMem(f.mmu.base, m.ramSize, m.romSize) ==> g.mmu.top == Table(f.mmu.base))
            && g.mmu.super == f.mmu.super
  {
    hide MapMem, AllTranslated, Sound;
    if effect.Goes? {
      AccessesKeepTables(m, f.mmu, effect.accesses);
    }
  }

  lemma LookupDoes(m: Memory, f: Hart, effect: Effect)
    requires Sound(m, f.mmu) && f.stvec % 2 == 0 && !f.stopped && Legal(effect) && LooksUp(m, effect, f)
    ensures effect.Jumps? ==> var r := Ended(m, Jumped(m, f, effect.dest)); r.stopped || Reached(f, r, effect.dest)
    ensures effect.Returns? ==>
              var g := f.(mmu := f.mmu.(super := effect.super));
              var r := Ended(m, Jumped(m, g, effect.to));
              r.stopped || Reached(g, r, effect.to)
    ensures effect.Traps? ==>
              var g := f.(mmu := AllTranslated(m.cells, f.mmu, effect.accesses));
              var r := Ended(m, Trapped(m, g, Exception(effect.code), effect.val));
              r.stopped || AtVector(f, r, Exception(effect.code), f.pc, effect.val, f.mmu.super)
    ensures effect.Fences? ==>
              var r := Ended(m, FencedOrTrapped(m, f));
              r.stopped || (AtVector(f, r, Exception(5), f.pc, f.pc, f.mmu.super) && r.mmu.top.Unmapped?)
  {
    hide Lookup, Ended, Jumped, Trapped, AllTranslated, Maps, MapMem, Sound, Target;
    match effect
    case Jumps(dest) => LookedUpEnds(m, f, dest);
    case Returns(to, super) =>
      ModeKeepsSound(m, f.mmu, super);
      LookedUpEnds(m, f.(mmu := f.mmu.(super := super)), to);
    case Traps(accesses, code, val) =>
      AccessesKeepTables(m, f.mmu, accesses);
      TrapGoes(m, f.(mmu := AllTranslated(m.cells, f.mmu, accesses)), Exception(code), val);
    case _ =>
      UnmappedSound(m, f.mmu);
      TrapGoes(m, f.(mmu := f.mmu.(top := Unmapped)), Exception(EX_LACCESS), f.pc);
  }
}
