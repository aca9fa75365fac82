/**
 Turning RISC-V paging on: SATP is written, and then a fence maps the root table.
 Neither looks the pc up, so the code that does it runs on from the page it is
 on, whatever the translation in force says.
 */
module RiscvSwitch {
  import opened Words
  import opened RiscvMmu
  import opened RiscvFetch
  import opened RiscvFence

  /* The instruction at the pc goes on in sequence inside its page, if it is not
     one that looks the pc up. */
  predicate StaysInPage(m: Memory, h: Hart)
    requires Fetchable(h)
  {
    var (f, insn) := FetchedFrom(m, h);
    (insn.Short? || insn.Long?) && !Crosses(h, insn) && f.nextpc % PAGE != 0
  }

  function After(m: Memory, h: Hart, effect: Effect): Hart
    requires Fetchable(h)
  {
    Cycled(m, h, NoIrq, effect)
  }

  /* One write to SATP or successful fence inside a page. */
  lemma SwitchCycle(m: Memory, h: Hart, effect: Effect, w: Mmu)
    requires Fetchable(h) && Follows(m, h, w) && !h.stopped && StaysInPage(m, h)
    requires effect.WritesSatp? || (effect.Fences? && MapMem(h.mmu.base, m.ramSize, m.romSize))
    ensures var f, r := FetchedFrom(m, h).0, After(m, h, effect);
            && !r.stopped && r.pc == f.nextpc && r.page == h.page && f.mmu == h.mmu && Fetchable(r)
            && r.mmu == (match effect case WritesSatp(val) => SatpWritten(h.mmu, val)
                                      case _ => Fenced(h.mmu, m.ramSize, m.romSize).0)
            && Follows(m, r, w)
            && (Coherent(m, r) <==> Leads(m, r.mmu.enabled, r.mmu.top, r.pc, h.page))
  {
    hide Lookup, Executed, FetchedFrom, Maps, At, Sound, Leads, MapMem;
    SequenceStaysOnPage(m, h, w);
    InSequence(m, h, effect, w);
    ExecutedExact(m, h, effect, w);
    SwitchedTo(m, FetchedFrom(m, h).0, effect);
  }

  /** SATP is written and the fence follows, both on one page. In between the
      instruction at the pc comes from that page, which is where the pc leads if and
      only if the old root table says so; and after the fence if and only if the new
      one does. */
  lemma SwitchThenFence(m: Memory, h: Hart, val: word, mid: Hart, end: Hart)
    requires Fetchable(h) && Coherent(m, h) && !h.stopped && StaysInPage(m, h)
    requires mid == After(m, h, WritesSatp(val)) && Fetchable(mid) && StaysInPage(m, mid)
    requires end == After(m, mid, Fences) && MapMem(mid.mmu.base, m.ramSize, m.romSize)
    ensures !mid.stopped && mid.page == h.page && FetchedFrom(m, mid).1 == Instruction(m, mid)
    ensures Coherent(m, mid) <==> Leads(m, Bit(val, 0x8000_0000), h.mmu.top, mid.pc, h.page)
    ensures mid.mmu.base == val % 0x10_0000 * PAGE
    ensures !end.stopped && end.page == h.page
    ensures Coherent(m, end) <==> Leads(m, Bit(val, 0x8000_0000), Table(mid.mmu.base), end.pc, h.page)
  {
    hide Lookup, Executed, Cycled, After, FetchedFrom, Instruction, Maps, At, Sound, Leads, MapMem, StaysInPage;
    SwitchCycle(m, h, WritesSatp(val), h.mmu);
    FetchAssembles(m, mid, h.mmu);
    SwitchCycle(m, mid, Fences, h.mmu);
  }

  /** So with no root table mapped yet, which is so from reset to the first fence,
      turning paging on always leaves the pc with no translation at all. */
  lemma NoRootYet(m: Memory, h: Hart, val: word)
    requires Fetchable(h) && Coherent(m, h) && !h.stopped && StaysInPage(m, h)
    requires h.mmu.top.Unmapped? && Bit(val, 0x8000_0000)
    ensures var mid := After(m, h, WritesSatp(val));
            && !mid.stopped && !Coherent(m, mid)
            && forall page: frame :: !Leads(m, mid.mmu.enabled, mid.mmu.top, mid.pc, page)
  {
    hide Lookup, Executed, Cycled, FetchedFrom, Maps, At, Sound, StaysInPage;
    SwitchCycle(m, h, WritesSatp(val), h.mmu);
  }

  // ------------------------------------------------------------------
  // From reset

  function Fresh(): Hart {
    InRom(PowerOn(ROM_BASE + 0x100, ROM_BASE), 0x100).(nextpc := 0)
  }

  function PagingOn(): Mmu {
    BasePut().(enabled := true)
  }

  function Midway(): Hart {
    InRom(Fresh().(mmu := PagingOn()), 0x104)
  }

  function PagedIn(): Hart {
    InRom(Fresh().(mmu := PagingOn().(top := Table(ROOT))), 0x108)
  }

  lemma BootStates()
    ensures Precomputed(Example(), PowerOn(ROM_BASE + 0x100, ROM_BASE)).0 == Fresh()
    ensures After(Example(), Fresh(), WritesSatp(0x800c_0000)) == Midway()
    ensures After(Example(), Midway(), Fences) == PagedIn()
  {
    hide Cycled, Interrupted, Precomputed;
    ResetState();
    NopCycle(Fresh(), 0x100, WritesSatp(0x800c_0000), PagingOn());
    NopCycle(Midway(), 0x104, Fences, PagingOn().(top := Table(ROOT)));
  }

  /* The no-operations of the ROM stay in the page. */
  lemma NopStays(h: Hart, off: word)
    requires off % 4 == 0 && off + 4 < PAGE && h.page == ROM_FRAME && h.pc == ROM_BASE + off && h.pcoff == off
    requires Fetchable(h)
    ensures StaysInPage(Example(), h) && FetchedFrom(Example(), h).1 == Long(0x13)
  {
    hide FetchedFrom;
    NopFetch(h, off);
  }

  /** The ordinary way to do it, from reset: SATP is written with the mode and the
      base of a table, and a fence follows. After the write the machine runs on in a
      place that is not where the pc leads; after the fence it is. */
  lemma BootTurnsPagingOn()
    ensures var m := Example();
            && Precomputed(m, PowerOn(ROM_BASE + 0x100, ROM_BASE)).0 == Fresh() && Coherent(m, Fresh())
            && After(m, Fresh(), WritesSatp(0x800c_0000)) == Midway()
            && !Midway().stopped && !Coherent(m, Midway()) && FetchedFrom(m, Midway()).1 == Long(0x13)
            && After(m, Midway(), Fences) == PagedIn()
            && !PagedIn().stopped && Coherent(m, PagedIn()) && PagedIn().mmu.enabled
  {
    hide After, Precomputed, Coherent, Leads, StaysInPage, FetchedFrom, Lookup;
    var m := Example();
    BootStates();
    StartsCoherent(m, ROM_BASE + 0x100, ROM_BASE);
    NopStays(Fresh(), 0x100);
    NopStays(Midway(), 0x104);
    NoRootYet(m, Fresh(), 0x800c_0000);
    SwitchThenFence(m, Fresh(), 0x800c_0000, Midway(), PagedIn());
    TableLeads();
  }

  lemma TableLeads()
    ensures Leads(Example(), true, Table(ROOT), ROM_BASE + 0x108, ROM_FRAME)
  {
    hide Lookup;
    ExampleLookup(ROM_BASE + 0x108);
  }
}
