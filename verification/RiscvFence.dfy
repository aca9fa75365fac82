/**
 What is left of a RISC-V processor after a fence that fails: the page in the
 translation cache.
 */
module RiscvFence {
  import opened Words
  import opened RiscvMmu
  import opened RiscvFetch

  /* The vector can be fetched from with no root table. */
  predicate VectorLeft(m: Memory, f: Hart) {
    if !f.mmu.enabled then MapMem(f.stvec, m.ramSize, m.romSize)
    else
      && Hits(f.mmu, f.stvec) && f.mmu.cache.executable
      && MapMem(PageOf(f.mmu.cache.ppage) + f.stvec % PAGE, m.ramSize, m.romSize)
  }

  /** A fence that fails traps. With paging on the machine survives it exactly if
      the vector is on the cached page, executable there and backed by memory, and
      the fence was not at the vector itself; and what it keeps is that page: after
      any further accesses an address is reached exactly if it is on the page and
      the cached permissions allow it, and is an access fault if it is elsewhere. */
  lemma FailedFence(m: Memory, f: Hart, accesses: seq<(word, Access)>, vaddr: word, rwx: Access)
    requires !f.stopped && !MapMem(f.mmu.base, m.ramSize, m.romSize)
    ensures var t := FencedOrTrapped(m, f);
            && (t.stopped <==> f.pc == f.stvec || !VectorLeft(m, f))
            && t.mmu.cache == f.mmu.cache && t.mmu.top == Unmapped
            && (!t.stopped ==>
                  && t.pc == f.stvec == t.nextpc && t.stvec == f.stvec
                  && t.sepc == f.pc && t.cause == Exception(EX_LACCESS) && t.tval == f.pc
                  && t.mmu == f.mmu.(top := Unmapped, super := true)
                  && (f.mmu.enabled ==>
                        var r := Translated(m.cells, AllTranslated(m.cells, t.mmu, accesses), vaddr, rwx).1;
                        && (r.Phys? <==> Hits(f.mmu, vaddr) && FromCache(f.mmu.cache, vaddr, rwx).Phys?)
                        && (!Hits(f.mmu, vaddr) ==> r == AccessFault)))
  {
    hide Translated, FromCache, MapMem, PageOf, AllTranslated;
    var t := f.(mmu := f.mmu.(top := Unmapped, super := true), pc := f.stvec);
    OnlyCachedPage(m, t.mmu, f.stvec, Execute);
    UnmappedUnchanged(m, t.mmu, accesses);
    OnlyCachedPage(m, t.mmu, vaddr, rwx);
    VectorTarget(m, t);
  }

  lemma VectorTarget(m: Memory, t: Hart)
    requires t.mmu.top.Unmapped? && t.pc == t.stvec
    ensures Target(m, t).Phys? <==> VectorLeft(m, t)
  {
    OnlyCachedPage(m, t.mmu, t.pc, Execute);
  }

  lemma {:induction false} UnmappedUnchanged(m: Memory, u: Mmu, accesses: seq<(word, Access)>)
    requires u.top.Unmapped?
    ensures AllTranslated(m.cells, u, accesses) == u
    decreases |accesses|
  {
    hide Translated;
    if accesses != [] {
      OnlyCachedPage(m, u, accesses[0].0, accesses[0].1);
      UnmappedUnchanged(m, u, accesses[1..]);
    }
  }

  // ------------------------------------------------------------------
  // Every run from there

  /* The same up to the mode and SUM. */
  predicate SameCache(u: Mmu, v: Mmu) {
    v == u.(super := v.super, sum := v.sum)
  }

  lemma LookedSame(m: Memory, h: Hart)
    requires h.mmu.top.Unmapped?
    ensures Looked(m, h) == h
  {
    OnlyCachedPage(m, h.mmu, h.pc, Execute);
  }

  lemma TrapKeepsCache(m: Memory, h: Hart, cause: Cause, val: word)
    requires h.mmu.top.Unmapped?
    ensures SameCache(h.mmu, Trapped(m, h, cause, val).mmu)
  {
    hide Looked, Target;
    LookedSame(m, h.(cause := cause, tval := val, spp := h.mmu.super, mmu := h.mmu.(super := true),
                     sepc := h.pc, pc := h.stvec, nextpc := h.stvec));
  }

  lemma PrecomputeKeepsCache(m: Memory, h: Hart)
    requires h.mmu.top.Unmapped?
    ensures SameCache(h.mmu, Precomputed(m, h).0.mmu)
  {
    hide Looked, Target, Trapped;
    LookedSame(m, h);
    if !Target(m, h).Phys? {
      TrapKeepsCache(m, h, FaultCode(Target(m, h)), h.pc);
    }
  }

  lemma FetchKeepsCache(m: Memory, h: Hart)
    requires h.mmu.top.Unmapped? && Fetchable(h)
    ensures SameCache(h.mmu, FetchedFrom(m, h).0.mmu)
  {
    hide Precomputed, WordAt;
    PrecomputeKeepsCache(m, h.(pc := Add(h.pc, 2)));
  }

  lemma EndKeepsCache(m: Memory, h: Hart)
    requires h.mmu.top.Unmapped?
    ensures SameCache(h.mmu, Ended(m, h).mmu)
  {
    hide Precomputed;
    PrecomputeKeepsCache(m, h.(pc := h.nextpc));
  }

  lemma ExecuteKeepsCache(m: Memory, h: Hart, effect: Effect)
    requires h.mmu.top.Unmapped? && Fetchable(h) && !effect.WritesSatp?
    requires !MapMem(h.mmu.base, m.ramSize, m.romSize)
    ensures SameCache(h.mmu, Executed(m, h, effect).mmu)
  {
    hide Precomputed, FetchedFrom, Trapped, Ended, AllTranslated, MapMem;
    FetchKeepsCache(m, h);
    var (f, insn) := FetchedFrom(m, h);
    if insn.Illegal? {
      TrapKeepsCache(m, f, Exception(EX_ILLINST), insn.bits);
      EndKeepsCache(m, Trapped(m, f, Exception(EX_ILLINST), insn.bits));
    } else {
      match effect
      case Goes(accesses) =>
        UnmappedUnchanged(m, f.mmu, accesses);
        EndKeepsCache(m, f);
      case SetsSum(sum) => EndKeepsCache(m, f.(mmu := f.mmu.(sum := sum)));
      case SetsVector(vector) => EndKeepsCache(m, f.(stvec := vector));
      case Jumps(dest) =>
        PrecomputeKeepsCache(m, f.(pc := dest, nextpc := dest));
        EndKeepsCache(m, Jumped(m, f, dest));
      case Returns(to, super) =>
        var g := f.(mmu := f.mmu.(super := super));
        PrecomputeKeepsCache(m, g.(pc := to, nextpc := to));
        EndKeepsCache(m, Jumped(m, g, to));
      case Traps(accesses, code, val) =>
        UnmappedUnchanged(m, f.mmu, accesses);
        TrapKeepsCache(m, f, Exception(code), val);
        EndKeepsCache(m, Trapped(m, f, Exception(code), val));
      case WritesSatp(_) =>
      case Fences =>
        assert f.mmu.(top := Unmapped) == f.mmu;
        TrapKeepsCache(m, f, Exception(EX_LACCESS), f.pc);
        EndKeepsCache(m, Trapped(m, f, Exception(EX_LACCESS), f.pc));
    }
  }

  lemma CycleKeepsCache(m: Memory, h: Hart, irq: Irq, effect: Effect)
    requires h.mmu.top.Unmapped? && Fetchable(Interrupted(m, h, irq)) && !effect.WritesSatp?
    requires !MapMem(h.mmu.base, m.ramSize, m.romSize)
    ensures SameCache(h.mmu, Cycled(m, h, irq, effect).mmu)
  {
    hide Trapped, Executed, MapMem;
    if irq.Irq? {
      TrapKeepsCache(m, h, Interrupt(irq.code), 0);
    }
    if !Interrupted(m, h, irq).stopped {
      ExecuteKeepsCache(m, Interrupted(m, h, irq), effect);
    }
  }

  lemma StuckCycle(m: Memory, h: Hart, irq: Irq, effect: Effect)
    requires Coherent(m, h) && !h.stopped && Legal(effect) && !effect.WritesSatp?
    requires h.mmu.top.Unmapped? && !MapMem(h.mmu.base, m.ramSize, m.romSize)
    ensures Fetchable(Interrupted(m, h, irq))
    ensures Cycled(m, h, irq, effect).stopped || Coherent(m, Cycled(m, h, irq, effect))
  {
    hide Trapped, Executed, MapMem, FetchedFrom, Coherent;
    CycleCoherent(m, h, irq, effect);
    if irq.Irq? {
      TrapKeepsCache(m, h, Interrupt(irq.code), 0);
    }
    FetchKeepsCache(m, Interrupted(m, h, irq));
  }

  predicate NoSatp(cycles: seq<(Irq, Effect)>) {
    forall i :: 0 <= i < |cycles| ==> !cycles[i].1.WritesSatp?
  }

  /** With paging on and no root table, until SATP is written every instruction
      of every run comes from the cached page, interrupts, traps and more failing
      fences included. */
  lemma {:induction false} StuckOnPage(m: Memory, h: Hart, cycles: seq<(Irq, Effect)>, end: Hart)
    requires h.mmu.enabled && h.mmu.top.Unmapped? && !MapMem(h.mmu.base, m.ramSize, m.romSize)
    requires (h.stopped || Coherent(m, h)) && NoSatp(cycles) && Reaches(m, h, cycles, end)
    ensures SameCache(h.mmu, end.mmu)
    ensures end.stopped || (Coherent(m, end) && Hits(h.mmu, end.pc) && end.page == h.mmu.cache.ppage / PAGE)
    decreases |cycles|
  {
    hide Cycled, Interrupted, Legal, MapMem, Coherent, PageOf;
    if cycles == [] || h.stopped {
      if !h.stopped {
        OnCachedPage(m, h);
      }
    } else {
      var (irq, effect) := cycles[0];
      StuckCycle(m, h, irq, effect);
      CycleKeepsCache(m, h, irq, effect);
      StuckOnPage(m, Cycled(m, h, irq, effect), cycles[1..], end);
    }
  }

  lemma OnCachedPage(m: Memory, h: Hart)
    requires Coherent(m, h) && h.mmu.enabled && h.mmu.top.Unmapped?
    ensures Hits(h.mmu, h.pc) && h.page == h.mmu.cache.ppage / PAGE
  {
    PageAndOffset(h.page, h.pcoff);
    Placed(h.mmu.cache.ppage / PAGE, h.pc % PAGE, PageOf(h.mmu.cache.ppage) + h.pc % PAGE);
  }

  // ------------------------------------------------------------------
  // A run from reset that gets there

  const ROOT: word := 0xc000_0000
  const ROM_FRAME: frame := 0xffc00

  /* A root table at the bottom of RAM whose last entry leads to a second table,
     whose first maps the page of the trap vector to itself, to read and to run;
     and no-operations everywhere else. */
  function ExampleCell(a: word): Cell {
    if a == 0xc000_0ffc then Data(0xc0001 * 0x400 + 0x01)
    else if a == 0xc000_1000 then Data(0xffc00 * 0x400 + 0x4b)
    else Data(0x13)
  }

  function Example(): Memory {
    Memory(ExampleCell, 0x10_0000, 0x1000)
  }

  function ReadOnlyPage(): Cache {
    Cache(ROM_BASE, ROM_BASE, true, false, true)
  }

  /* The processor `off` bytes into the boot ROM. */
  function InRom(h: Hart, off: word): Hart
    requires off < PAGE
  {
    h.(pc := ROM_BASE + off, pcoff := off, page := ROM_FRAME, nextpc := ROM_BASE + off, nextpcoff := off)
  }

  lemma ExampleLookup(v: word)
    requires PageOf(v) == ROM_BASE
    ensures Lookup(ExampleCell, Table(ROOT), v)
         == Entry(Pte(true, true, false, true, false, true, false, false, ROM_BASE), false)
  {
    assert v / PAGE == 0xffc00;
    assert v / 0x40_0000 == v / PAGE / 1024 == 1023;
    assert Decoded(0xc0001 * 0x400 + 0x01) == Pte(true, false, false, false, false, false, false, false, 0xc000_1000);
    assert Decoded(0xffc00 * 0x400 + 0x4b) == Pte(true, true, false, true, false, true, false, false, ROM_BASE);
  }

  /* The effect changes the translation state to u. */
  predicate Turns(effect: Effect, was: Mmu, u: Mmu) {
    match effect
    case Goes(accesses) => u == AllTranslated(ExampleCell, was, accesses)
    case WritesSatp(val) => u == SatpWritten(was, val)
    case Fences => (u, true) == Fenced(was, 0x10_0000, 0x1000)
    case _ => false
  }

  lemma NopWord(off: word)
    requires off % 4 == 0 && off < PAGE
    ensures WordAt(Example(), ROM_FRAME, off) == 0x13 && off / 2 % 2 == 0
  {
  }

  lemma NopFetch(h: Hart, off: word)
    requires off % 4 == 0 && off + 4 < PAGE && h.page == ROM_FRAME && h.pc == ROM_BASE + off && h.pcoff == off
    ensures Fetchable(h) && (h.pc + 4) % PAGE == off + 4
    ensures FetchedFrom(Example(), h) == (h.(nextpc := h.pc + 4, nextpcoff := off + 4), Long(0x13))
  {
    hide WordAt, Precomputed;
    NopWord(off);
    Placed(0xffc00, off + 4, ROM_BASE + off + 4);
  }

  /* A cycle on a no-operation of the ROM. */
  lemma NopCycle(h: Hart, off: word, effect: Effect, u: Mmu)
    requires off % 4 == 0 && off + 4 < PAGE && !h.stopped && h.page == ROM_FRAME
    requires h.pc == ROM_BASE + off && h.pcoff == off && Turns(effect, h.mmu, u)
    ensures Fetchable(Interrupted(Example(), h, NoIrq)) && Legal(effect)
    ensures Cycled(Example(), h, NoIrq, effect) == InRom(h.(mmu := u), off + 4)
  {
    hide AllTranslated, SatpWritten, Fenced, Maps, Lookup, FetchedFrom;
    NopFetch(h, off);
  }

  /* And the rest of a run after it. */
  lemma NopThen(h: Hart, off: word, effect: Effect, u: Mmu, rest: seq<(Irq, Effect)>, end: Hart)
    requires off % 4 == 0 && off + 4 < PAGE && !h.stopped && h.page == ROM_FRAME
    requires h.pc == ROM_BASE + off && h.pcoff == off && Turns(effect, h.mmu, u)
    requires Reaches(Example(), InRom(h.(mmu := u), off + 4), rest, end)
    ensures Reaches(Example(), h, [(NoIrq, effect)] + rest, end)
  {
    hide Cycled, Interrupted, Turns;
    NopCycle(h, off, effect, u);
    assert ([(NoIrq, effect)] + rest)[1..] == rest;
  }

  lemma EndsAtVector(m: Memory, f: Hart)
    requires !f.stopped && !MapMem(f.mmu.base, m.ramSize, m.romSize) && f.pc != f.stvec && VectorLeft(m, f)
    ensures var r := Ended(m, FencedOrTrapped(m, f));
            !r.stopped && r.pc == f.stvec && r.mmu == f.mmu.(top := Unmapped, super := true)
  {
    hide MapMem, PageOf, Translated, Looked, Target;
    FailedFence(m, f, [], 0, Read);
    var t := FencedOrTrapped(m, f);
    VectorTarget(m, t.(pc := f.stvec));
    LookedSame(m, t.(pc := f.stvec));
  }

  /* The states of the translation unit along the run. */
  function BasePut(): Mmu {
    Mmu(false, ROOT, Unmapped, true, false, Cache(INVALID_VPAGE, 0, false, false, false))
  }

  function Rooted(): Mmu {
    BasePut().(top := Table(ROOT))
  }

  function Misbased(): Mmu {
    Rooted().(enabled := true, base := 0)
  }

  lemma StatesFollow()
    ensures SatpWritten(Reset(), 0xc0000) == BasePut()
    ensures Fenced(BasePut(), 0x10_0000, 0x1000) == (Rooted(), true)
    ensures SatpWritten(Rooted(), 0x8000_0000) == Misbased()
    ensures !MapMem(Misbased().base, 0x10_0000, 0x1000)
  {
  }

  lemma ReadFills()
    ensures AllTranslated(ExampleCell, Misbased(), [(ROM_BASE, Read)]) == Misbased().(cache := ReadOnlyPage())
  {
    hide Lookup;
    ExampleLookup(ROM_BASE);
    var r := Translated(ExampleCell, Misbased(), ROM_BASE, Read).0;
    assert r == Misbased().(cache := ReadOnlyPage());
    assert [(ROM_BASE, Read)][1..] == [];
    assert AllTranslated(ExampleCell, r, []) == r;
  }

  lemma ResetState()
    ensures Precomputed(Example(), PowerOn(ROM_BASE + 0x100, ROM_BASE)).0
         == InRom(PowerOn(ROM_BASE + 0x100, ROM_BASE), 0x100).(nextpc := 0)
  {
  }

  function AtRest(off: word, u: Mmu): Hart
    requires off < PAGE
  {
    InRom(PowerOn(ROM_BASE + 0x100, ROM_BASE).(mmu := u), off)
  }

  lemma FilledSound()
    ensures Sound(Example(), Misbased().(cache := ReadOnlyPage()))
  {
    hide Lookup;
    ExampleLookup(ROM_BASE);
  }

  /* The fence that fails. */
  lemma LastCycle(h: Hart)
    requires h == AtRest(0x110, Misbased().(cache := ReadOnlyPage()))
    ensures Fetchable(Interrupted(Example(), h, NoIrq))
    ensures var end := Cycled(Example(), h, NoIrq, Fences);
            !end.stopped && end.pc == ROM_BASE && end.mmu == h.mmu.(top := Unmapped) && Coherent(Example(), end)
  {
    hide FencedOrTrapped, Ended, Sound, FetchedFrom;
    NopFetch(h, 0x110);
    var f := h.(nextpc := h.pc + 4, nextpcoff := 0x114);
    FilledSound();
    EndsAtVector(Example(), f);
    FailedFenceCoherent(Example(), f);
  }

  lemma LeftReadable(u: Mmu, vaddr: word)
    requires u == Misbased().(cache := ReadOnlyPage(), top := Unmapped)
    ensures !MapMem(u.base, 0x10_0000, 0x1000) && Walk(ExampleCell, u.top, true, false, vaddr, Read) == AccessFault
    ensures PageOf(vaddr) == ROM_BASE ==>
              && Translated(ExampleCell, u, vaddr, Read).1 == Phys(vaddr)
              && Translated(ExampleCell, u, vaddr, Execute).1 == Phys(vaddr)
    ensures PageOf(vaddr) != ROM_BASE ==> Translated(ExampleCell, u, vaddr, Read).1 == AccessFault
  {
    OnlyCachedPage(Example(), u, vaddr, Read);
    OnlyCachedPage(Example(), u, vaddr, Execute);
  }

  function ExampleRun(): seq<(Irq, Effect)> {
    [(NoIrq, WritesSatp(0xc0000)), (NoIrq, Fences), (NoIrq, WritesSatp(0x8000_0000)),
     (NoIrq, Goes([(ROM_BASE, Read)])), (NoIrq, Fences)]
  }

  /** From reset: the base of a good table is put in SATP and fenced, paging is
      turned on with a base that has no memory, the page of the vector is read,
      and a fence fails. The machine is still running, the walk finds nothing
      anywhere, and yet the page of the vector can be read and run. */
  lemma FailureReached(vaddr: word)
    ensures var m := Example();
            exists end ::
              && Reaches(m, Precomputed(m, PowerOn(ROM_BASE + 0x100, ROM_BASE)).0, ExampleRun(), end)
              && !end.stopped && end.pc == ROM_BASE && Coherent(m, end)
              && end.mmu.enabled && !MapMem(end.mmu.base, m.ramSize, m.romSize)
              && Walk(m.cells, end.mmu.top, end.mmu.super, end.mmu.sum, vaddr, Read) == AccessFault
              && (PageOf(vaddr) == ROM_BASE ==>
                    && Translated(m.cells, end.mmu, vaddr, Read).1 == Phys(vaddr)
                    && Translated(m.cells, end.mmu, vaddr, Execute).1 == Phys(vaddr))
              && (PageOf(vaddr) != ROM_BASE ==> Translated(m.cells, end.mmu, vaddr, Read).1 == AccessFault)
  {
    hide AllTranslated, SatpWritten, Fenced, Cycled, Interrupted, Precomputed, MapMem, Maps, Translated, Walk,
      Reaches;
    var m := Example();
    var start := Precomputed(m, PowerOn(ROM_BASE + 0x100, ROM_BASE)).0;
    var last := AtRest(0x110, Misbased().(cache := ReadOnlyPage()));
    LastCycle(last);
    var end := Cycled(m, last, NoIrq, Fences);
    LeftReadable(end.mmu, vaddr);
    RunsToLast(start, end);
  }

  lemma RunsToLast(start: Hart, end: Hart)
    requires start == Precomputed(Example(), PowerOn(ROM_BASE + 0x100, ROM_BASE)).0
    requires var last := AtRest(0x110, Misbased().(cache := ReadOnlyPage()));
             && Fetchable(Interrupted(Example(), last, NoIrq))
             && end == Cycled(Example(), last, NoIrq, Fences)
    ensures Reaches(Example(), start, ExampleRun(), end)
  {
    hide Cycled, Interrupted, Precomputed, Reaches, Turns;
    ResetState();
    TurnsFollow();
    var cached := Misbased().(cache := ReadOnlyPage());
    LastOnly(end);
    var c1 := [(NoIrq, Fences)];
    NopThen(AtRest(0x10c, Misbased()), 0x10c, Goes([(ROM_BASE, Read)]), cached, c1, end);
    var c2 := [(NoIrq, Goes([(ROM_BASE, Read)]))] + c1;
    NopThen(AtRest(0x108, Rooted()), 0x108, WritesSatp(0x8000_0000), Misbased(), c2, end);
    var c3 := [(NoIrq, WritesSatp(0x8000_0000))] + c2;
    NopThen(AtRest(0x104, BasePut()), 0x104, Fences, Rooted(), c3, end);
    var c4 := [(NoIrq, Fences)] + c3;
    NopThen(start, 0x100, WritesSatp(0xc0000), BasePut(), c4, end);
    assert ExampleRun() == [(NoIrq, WritesSatp(0xc0000))] + c4;
  }

  lemma TurnsFollow()
    ensures Turns(WritesSatp(0xc0000), Reset(), BasePut())
    ensures Turns(Fences, BasePut(), Rooted())
    ensures Turns(WritesSatp(0x8000_0000), Rooted(), Misbased())
    ensures Turns(Goes([(ROM_BASE, Read)]), Misbased(), Misbased().(cache := ReadOnlyPage()))
  {
    hide AllTranslated, SatpWritten, Fenced, Lookup;
    StatesFollow();
    ReadFills();
  }

  lemma LastOnly(end: Hart)
    requires var last := AtRest(0x110, Misbased().(cache := ReadOnlyPage()));
             && Fetchable(Interrupted(Example(), last, NoIrq))
             && end == Cycled(Example(), last, NoIrq, Fences)
    ensures Reaches(Example(), AtRest(0x110, Misbased().(cache := ReadOnlyPage())), [(NoIrq, Fences)], end)
  {
    hide Cycled, Interrupted;
    assert [(NoIrq, Fences)][1..] == [];
  }
}
