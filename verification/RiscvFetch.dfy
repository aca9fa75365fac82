/**
 RISC-V instruction fetch: two- and four-byte instructions taken a word at a
 time from the cached page of the pc, with the second half perhaps on the next
 page, and traps taken while looking for it.
 */
module RiscvFetch {
  import opened Words
  import opened RiscvMmu

  const EX_IACCESS: nat := 1
  const EX_ILLINST: nat := 2
  const EX_LACCESS: nat := 5
  const EX_IPAGE: nat := 12

  /* What scause holds: its interrupt bit and its code. */
  datatype Cause = Exception(code: nat) | Interrupt(code: nat)

  /* A physical page by its number, and a place on it. */
  type frame = x: int | 0 <= x < 0x10_0000

  function At(page: frame, off: word): word
    requires off < PAGE
  {
    PAGE * page + off
  }

  /* The part of the processor that fetching reads and writes. `page` is the
     physical page instructions come from. `stopped` is the end of the
     simulation. */
  datatype Hart = Hart(pc: word, pcoff: word, page: frame, nextpc: word, nextpcoff: word,
                       mmu: Mmu, stvec: word, sepc: word, cause: Cause, tval: word, spp: bool, stopped: bool)

  /* What is in memory, and how much RAM and boot ROM there is. */
  datatype Memory = Memory(cells: word -> Cell, ramSize: word, romSize: word)

  function Add(v: word, n: nat): word
    requires n <= 4
  {
    if v + n < TWO_32 then v + n else v + n - TWO_32
  }

  function Back2(v: word): word {
    if v >= 2 then v - 2 else v - 2 + TWO_32
  }

  /* A word of a page that is there; off is rounded down to a word. */
  function WordAt(m: Memory, page: frame, off: word): word
    requires off < PAGE
  {
    match m.cells(At(page, off - off % 4))
    case Data(w) => w
    case BusError => 0
  }

  const HALF: nat := 0x1_0000

  function HalfAt(m: Memory, page: frame, off: word): nat
    requires off < PAGE
  {
    if off % 4 == 2 then WordAt(m, page, off) / HALF else WordAt(m, page, off) % HALF
  }

  // ------------------------------------------------------------------
  // Traps and looking up the pc

  /* Does the pc lead to memory? */
  function Target(m: Memory, h: Hart): Outcome {
    var r := Translated(m.cells, h.mmu, h.pc, Execute).1;
    if r.Phys? && !MapMem(r.paddr, m.ramSize, m.romSize) then AccessFault else r
  }

  function Looked(m: Memory, h: Hart): Hart {
    h.(mmu := Translated(m.cells, h.mmu, h.pc, Execute).0)
  }

  function Landed(h: Hart, paddr: word): Hart {
    h.(page := paddr / PAGE, pcoff := paddr % PAGE, nextpcoff := paddr % PAGE)
  }

  /* A trap: the machine stops if it is at the trap vector already, and also
     if the vector cannot be fetched from, by the trap that follows from that. */
  function Trapped(m: Memory, h: Hart, cause: Cause, val: word): Hart {
    if h.pc == h.stvec then h.(stopped := true)
    else
      var t := h.(cause := cause, tval := val, spp := h.mmu.super, mmu := h.mmu.(super := true),
                  sepc := h.pc, pc := h.stvec, nextpc := h.stvec);
      match Target(m, t)
      case Phys(p) => Landed(Looked(m, t), p)
      case _ => Looked(m, t).(stopped := true)
  }

  function FaultCode(r: Outcome): Cause {
    Exception(if r.PageFault? then EX_IPAGE else EX_IACCESS)
  }

  /* sfence.vma: a root table with no memory behind it is an exception. */
  function FencedOrTrapped(m: Memory, h: Hart): Hart {
    var (u, ok) := Fenced(h.mmu, m.ramSize, m.romSize);
    if ok then h.(mmu := u) else Trapped(m, h.(mmu := u), Exception(EX_LACCESS), h.pc)
  }

  /* precompute_pc; false if it trapped. */
  function Precomputed(m: Memory, h: Hart): (Hart, bool) {
    match Target(m, h)
    case Phys(p) => (Landed(Looked(m, h), p), true)
    case r => (Trapped(m, Looked(m, h), FaultCode(r), h.pc), false)
  }

  // ------------------------------------------------------------------
  // Fetching

  datatype Fetched = Short(insn: nat) | Long(insn: nat) | Illegal(bits: word) | Faulted

  /* What cpu_cycle makes of the words at the pc, and the processor it leaves
     for the instruction to run on. When the second half is on the next page the
     pc moves there and back, and pcoff is left two short of the page. */
  function FetchedFrom(m: Memory, h: Hart): (Hart, Fetched)
    requires h.pcoff < PAGE && h.pcoff % 2 == 0
  {
    var w := WordAt(m, h.page, h.pcoff);
    var insn := if h.pcoff / 2 % 2 == 1 then w / HALF else w;
    if insn % 4 != 3 then
      (h.(nextpc := Add(h.pc, 2), nextpcoff := Add(h.pcoff, 2)), Short(insn % HALF))
    else if insn / 4 % 8 == 7 then (h, Illegal(insn))
    else if h.pcoff / 2 % 2 == 1 then
      if h.pcoff + 2 == PAGE then
        var r := Precomputed(m, h.(pc := Add(h.pc, 2)));
        if !r.1 then (r.0.(sepc := Back2(r.0.sepc)), Faulted)
        else
          var insn2 := WordAt(m, r.0.page, r.0.pcoff);
          var t := r.0.(pc := Back2(r.0.pc), pcoff := Back2(r.0.pcoff));
          (t.(nextpc := Add(t.pc, 4), nextpcoff := Add(t.pcoff, 4)), Long(insn + insn2 % HALF * HALF))
      else
        (h.(nextpc := Add(h.pc, 4), nextpcoff := Add(h.pcoff, 4)),
         Long(insn + WordAt(m, h.page, h.pcoff + 2) % HALF * HALF))
    else (h.(nextpc := Add(h.pc, 4), nextpcoff := Add(h.pcoff, 4)), Long(insn))
  }

  /* The end of the cycle: on to nextpc. */
  function Finished(m: Memory, h: Hart): (Hart, bool) {
    var t := h.(pc := h.nextpc);
    if t.pc % PAGE == 0 then Precomputed(m, t) else (t.(pcoff := t.nextpcoff), true)
  }

  /* rx_jump and sret. */
  function Jumped(m: Memory, h: Hart, dest: word): Hart {
    Precomputed(m, h.(pc := dest, nextpc := dest)).0
  }

  // ------------------------------------------------------------------
  // The processor, updated in place

  class Frontend {
    const memory: Memory

    var pc: word
    var pcoff: word
    var page: frame
    var nextpc: word
    var nextpcoff: word
    var mmu: Mmu
    var stvec: word
    var sepc: word
    var cause: Cause
    var tval: word
    var spp: bool
    var stopped: bool

    ghost function View(): Hart
      reads this
    {
      Hart(pc, pcoff, page, nextpc, nextpcoff, mmu, stvec, sepc, cause, tval, spp, stopped)
    }

    /* What a trap saves, before the handler is looked up. */
    method SaveState(why: Cause, val: word)
      modifies this
      ensures View() == var h := old(View());
                        h.(cause := why, tval := val, spp := h.mmu.super, mmu := h.mmu.(super := true),
                           sepc := h.pc, pc := h.stvec, nextpc := h.stvec)
    {
      cause, tval := why, val;
      spp := mmu.super;
      mmu := mmu.(super := true);
      sepc := pc;
      pc := stvec;
      nextpc := pc;
    }

    /** The recursion between traps and looking up the pc ends: a second trap
        finds itself at the vector and stops the machine. */
    method Trap(why: Cause, val: word)
      modifies this
      ensures View() == Trapped(memory, old(View()), why, val)
      decreases if pc == stvec then 0 else 2
    {
      hide Target, Landed, Translated;
      if pc == stvec {
        stopped := true;
        return;
      }
      SaveState(why, val);
      var _ := PrecomputePc();
    }

    method PrecomputePc() returns (ok: bool)
      modifies this
      ensures (View(), ok) == Precomputed(memory, old(View()))
      decreases if pc == stvec then 1 else 3
    {
      hide Translated, MapMem, Trapped;
      var r := Translated(memory.cells, mmu, pc, Execute);
      mmu := r.0;
      if !r.1.Phys? {
        Trap(FaultCode(r.1), pc);
        return false;
      }
      if !MapMem(r.1.paddr, memory.ramSize, memory.romSize) {
        Trap(Exception(EX_IACCESS), pc);
        return false;
      }
      page := r.1.paddr / PAGE;
      pcoff := r.1.paddr % PAGE;
      nextpcoff := pcoff;
      return true;
    }

    method TakeInterrupt(code: nat)
      modifies this
      ensures View() == Interrupted(memory, old(View()), Irq(code))
    {
      hide Trapped;
      Trap(Interrupt(code), 0);
    }

    method SfenceVma()
      modifies this
      ensures View() == FencedOrTrapped(memory, old(View()))
    {
      hide Trapped, MapMem;
      if !MapMem(mmu.base, memory.ramSize, memory.romSize) {
        mmu := mmu.(top := Unmapped);
        Trap(Exception(EX_LACCESS), pc);
        return;
      }
      mmu := mmu.(top := Table(mmu.base), cache := mmu.cache.(vpage := INVALID_VPAGE));
    }

    /* The fetch part of a cycle. */
    method Fetch() returns (f: Fetched)
      requires pcoff < PAGE && pcoff % 2 == 0
      modifies this
      ensures (View(), f) == FetchedFrom(memory, old(View()))
    {
      hide Precomputed, WordAt;
      var insn := WordAt(memory, page, pcoff);
      var second := pcoff / 2 % 2 == 1;
      if second {
        insn := insn / HALF;
      }
      if insn % 4 != 3 {
        nextpc, nextpcoff := Add(pc, 2), Add(pcoff, 2);
        return Short(insn % HALF);
      }
      if insn / 4 % 8 == 7 {
        return Illegal(insn);
      }
      if second {
        var insn2;
        if pcoff + 2 == PAGE {
          var ok, high := NextPage();
          if !ok {
            return Faulted;
          }
          insn2 := high;
        } else {
          insn2 := WordAt(memory, page, pcoff + 2);
        }
        nextpc, nextpcoff := Add(pc, 4), Add(pcoff, 4);
        return Long(insn + insn2 % HALF * HALF);
      }
      nextpc, nextpcoff := Add(pc, 4), Add(pcoff, 4);
      return Long(insn);
    }

    /* Go on to the next page for the other half, and come back. */
    method NextPage() returns (ok: bool, insn2: word)
      modifies this
      ensures ok == Precomputed(memory, old(View()).(pc := Add(old(pc), 2))).1
      ensures var r := Precomputed(memory, old(View()).(pc := Add(old(pc), 2))).0;
              if ok then r.pcoff < PAGE && insn2 == WordAt(memory, r.page, r.pcoff)
                         && View() == r.(pc := Back2(r.pc), pcoff := Back2(r.pcoff))
              else View() == r.(sepc := Back2(r.sepc))
    {
      hide Target, Trapped, WordAt;
      pc := Add(pc, 2);
      ok := PrecomputePc();
      if !ok {
        sepc := Back2(sepc);
        return false, 0;
      }
      insn2 := WordAt(memory, page, pcoff);
      pc := Back2(pc);
      pcoff := Back2(pcoff);
    }

    method Finish() returns (ok: bool)
      modifies this
      ensures (View(), ok) == Finished(memory, old(View()))
    {
      hide Precomputed;
      pc := nextpc;
      if pc % PAGE == 0 {
        ok := PrecomputePc();
      } else {
        pcoff := nextpcoff;
        ok := true;
      }
    }

    method Jump(dest: word)
      modifies this
      ensures View() == Jumped(memory, old(View()), dest)
    {
      hide Precomputed;
      pc := dest;
      nextpc := pc;
      var _ := PrecomputePc();
    }

    constructor (memory: Memory, pc: word, stvec: word)
      ensures this.memory == memory
      ensures View() == Precomputed(memory, PowerOn(pc, stvec)).0
    {
      this.memory := memory;
      this.pc, this.pcoff, this.page, this.nextpc, this.nextpcoff := pc, 0, 0, 0, 0;
      this.mmu, this.stvec, this.sepc, this.cause, this.tval := Reset(), stvec, 0, Exception(0), 0;
      this.spp, this.stopped := false, false;
      new;
      var _ := PrecomputePc();
    }
  }

  function PowerOn(pc: word, stvec: word): Hart {
    Hart(pc, 0, 0, 0, 0, Reset(), stvec, 0, Exception(0), 0, false, false)
  }

  // ------------------------------------------------------------------
  // Where addresses lead

  /* The cache is right, or there is no root table and the cache is all there is. */
  ghost predicate Sound(m: Memory, u: Mmu) {
    Current(m.cells, u) || (u.top.Unmapped? && u.cache.vpage % PAGE == 0)
  }

  /* This address leads to physical address p, whoever asks: by the tables, or
     with no root table by the cached page alone. */
  ghost predicate Maps(m: Memory, u: Mmu, vaddr: word, p: word) {
    if !u.enabled then p == vaddr
    else if u.top.Unmapped? then Hits(u, vaddr) && p == PageOf(u.cache.ppage) + vaddr % PAGE
    else
      var e := Lookup(m.cells, u.top, vaddr);
      e.Entry? && !e.pte.upper && p == e.pte.frame - e.pte.frame % Span(e.super) + vaddr % Span(e.super)
  }

  /** With no root table only the cached page is left, and nothing refills the
      cache. */
  lemma OnlyCachedPage(m: Memory, u: Mmu, vaddr: word, rwx: Access)
    requires u.top.Unmapped?
    ensures Translated(m.cells, u, vaddr, rwx).0 == u
    ensures var r := Translated(m.cells, u, vaddr, rwx).1;
            u.enabled ==> r == if Hits(u, vaddr) then FromCache(u.cache, vaddr, rwx) else AccessFault
  {
    hide PageOf;
  }

  lemma TranslateKeepsSound(m: Memory, u: Mmu, vaddr: word, rwx: Access)
    requires Sound(m, u)
    ensures Sound(m, Translated(m.cells, u, vaddr, rwx).0)
  {
    if Current(m.cells, u) {
      TranslateKeepsCurrent(m.cells, u, vaddr, rwx);
    }
  }

  lemma PhysMaps(m: Memory, u: Mmu, vaddr: word, rwx: Access)
    requires Sound(m, u) && Translated(m.cells, u, vaddr, rwx).1.Phys?
    ensures Maps(m, u, vaddr, Translated(m.cells, u, vaddr, rwx).1.paddr)
    ensures Sound(m, Translated(m.cells, u, vaddr, rwx).0)
  {
    hide Lookup, PageOf;
    TranslateKeepsSound(m, u, vaddr, rwx);
    if u.top.Unmapped? {
      OnlyCachedPage(m, u, vaddr, rwx);
    } else if u.enabled && Hits(u, vaddr) {
      HitMeans(m.cells, u, vaddr);
      WholePage(CachedPte(m.cells, u).frame);
    }
  }

  lemma WholePage(frame: word)
    requires frame % PAGE == 0
    ensures PageOf(frame) == frame
  {
  }

  /* An address keeps its offset within the page, and its neighbours on the
     page are neighbours in memory. */
  lemma MapsPage(m: Memory, u: Mmu, a: word, p: word, b: word)
    requires Maps(m, u, a, p) && a / PAGE == b / PAGE
    ensures p % PAGE == a % PAGE && Maps(m, u, b, At(p / PAGE, b % PAGE))
  {
    assert PageOf(a) == PageOf(b);
    if !u.enabled {
    } else if u.top.Unmapped? {
      Placed(u.cache.ppage / PAGE, a % PAGE, p);
    } else {
      SamePage(m.cells, u.top, a, b);
      FrameAligned(m.cells, u.top, a);
      var e := Lookup(m.cells, u.top, a);
      SpanOffset(e.pte.frame, e.super, a, b);
    }
  }

  lemma SpanPages(k: nat, a: word)
    ensures PAGE * k % 0x40_0000 == PAGE * (k % 1024)
    ensures a % 0x40_0000 == PAGE * (a / PAGE % 1024) + a % PAGE
  {
  }

  lemma SpanOffset(frame: word, super: bool, a: word, b: word)
    requires frame % PAGE == 0 && a / PAGE == b / PAGE
    ensures var p := frame - frame % Span(super) + a % Span(super);
            && p % PAGE == a % PAGE
            && At(p / PAGE, b % PAGE) == frame - frame % Span(super) + b % Span(super)
  {
    var k := frame / PAGE;
    assert frame == PAGE * k;
    if super {
      SuperOffset(k, a, b);
    } else {
      Placed(k, a % PAGE, frame + a % PAGE);
    }
  }

  lemma SuperOffset(k: frame, a: word, b: word)
    requires a / PAGE == b / PAGE
    ensures var base := PAGE * k - PAGE * k % 0x40_0000;
            && (base + a % 0x40_0000) % PAGE == a % PAGE
            && PAGE * ((base + a % 0x40_0000) / PAGE) + b % PAGE == base + b % 0x40_0000
  {
    SpanPages(k, a);
    SpanPages(k, b);
    var j := k - k % 1024 + a / PAGE % 1024;
    Placed(j, a % PAGE, PAGE * k - PAGE * k % 0x40_0000 + a % 0x40_0000);
  }

  // ------------------------------------------------------------------
  // The cached page of the pc

  /* Instructions come from where the pc led under the translation w: the one in
     force when the pc was last looked up. */
  ghost predicate Follows(m: Memory, h: Hart, w: Mmu) {
    && Sound(m, h.mmu)
    && h.pc % 2 == 0 && h.stvec % 2 == 0
    && h.pcoff == h.pc % PAGE && h.pcoff % 2 == 0
    && Maps(m, w, h.pc, At(h.page, h.pcoff))
  }

  /* Instructions come from where the pc leads. */
  ghost predicate Coherent(m: Memory, h: Hart) {
    Follows(m, h, h.mmu)
  }

  lemma EvenOffset(v: word)
    requires v % 2 == 0
    ensures v % PAGE % 2 == 0
  {
    assert v == PAGE * (v / PAGE) + v % PAGE;
  }

  lemma LandedCoherent(m: Memory, h: Hart)
    requires Sound(m, h.mmu) && h.pc % 2 == 0 && h.stvec % 2 == 0 && Target(m, h).Phys?
    ensures Coherent(m, Landed(Looked(m, h), Target(m, h).paddr))
    ensures Landed(Looked(m, h), Target(m, h).paddr).nextpcoff == h.pc % PAGE
  {
    hide Lookup, Translated;
    var p := Target(m, h).paddr;
    EvenOffset(h.pc);
    PhysMaps(m, h.mmu, h.pc, Execute);
    MapsPage(m, h.mmu, h.pc, p, h.pc);
    SameTables(m, h.mmu, h.pc);
  }

  lemma SameTables(m: Memory, u: Mmu, vaddr: word)
    ensures var v := Translated(m.cells, u, vaddr, Execute).0;
            v == u.(cache := v.cache) && (u.top.Unmapped? ==> v == u)
  {
    if u.top.Unmapped? {
      OnlyCachedPage(m, u, vaddr, Execute);
    }
  }

  /** A trap ends at the vector with the page of the vector, or stops the
      machine: exactly if it was at the vector already or the vector cannot be
      fetched from in supervisor mode. */
  lemma TrapLands(m: Memory, h: Hart, cause: Cause, val: word)
    requires Sound(m, h.mmu) && h.stvec % 2 == 0 && !h.stopped
    ensures var t := Trapped(m, h, cause, val);
            && (t.stopped <==> h.pc == h.stvec
                               || !Target(m, h.(mmu := h.mmu.(super := true), pc := h.stvec)).Phys?)
            && (!t.stopped ==>
                  && Coherent(m, t) && t.pc == h.stvec == t.nextpc && t.nextpcoff == t.pcoff && t.mmu.super
                  && t.sepc == h.pc && t.cause == cause && t.tval == val && t.spp == h.mmu.super)
  {
    hide Lookup, Translated, Maps;
    if h.pc != h.stvec {
      var t := h.(cause := cause, tval := val, spp := h.mmu.super, mmu := h.mmu.(super := true),
                  sepc := h.pc, pc := h.stvec, nextpc := h.stvec);
      assert Sound(m, t.mmu) by { SupervisorSound(m, h.mmu); }
      assert Target(m, t) == Target(m, h.(mmu := h.mmu.(super := true), pc := h.stvec));
      SameTables(m, t.mmu, t.pc);
      if Target(m, t).Phys? {
        LandedCoherent(m, t);
      }
    }
  }

  lemma SupervisorSound(m: Memory, u: Mmu)
    requires Sound(m, u)
    ensures Sound(m, u.(super := true))
  {
  }

  lemma PrecomputedCoherent(m: Memory, h: Hart)
    requires Sound(m, h.mmu) && h.pc % 2 == 0 && h.stvec % 2 == 0 && !h.stopped
    ensures var (r, ok) := Precomputed(m, h);
            && (ok <==> Target(m, h).Phys?)
            && (ok ==> Coherent(m, r) && r.pc == h.pc && r.nextpcoff == r.pcoff && !r.stopped
                       && r.page == Target(m, h).paddr / PAGE && r.pcoff == Target(m, h).paddr % PAGE
                       && r.mmu == h.mmu.(cache := r.mmu.cache) && r.stvec == h.stvec && r.nextpc == h.nextpc)
            && (!ok && !r.stopped ==>
                  Coherent(m, r) && r.pc == h.stvec && r.sepc == h.pc && r.tval == h.pc
                  && r.cause == FaultCode(Target(m, h)) && r.mmu.super && r.stvec == h.stvec
                  && r.nextpc == r.pc && r.nextpcoff == r.pcoff)
  {
    hide Lookup, Translated, Maps, Trapped;
    SameTables(m, h.mmu, h.pc);
    if Target(m, h).Phys? {
      LandedCoherent(m, h);
    } else {
      TranslateKeepsSound(m, h.mmu, h.pc, Execute);
      TrapLands(m, Looked(m, h), FaultCode(Target(m, h)), h.pc);
      TrapKeepsVector(m, Looked(m, h), FaultCode(Target(m, h)), h.pc);
    }
  }

  lemma TrapKeepsVector(m: Memory, h: Hart, cause: Cause, val: word)
    ensures Trapped(m, h, cause, val).stvec == h.stvec
  {
  }

  // ------------------------------------------------------------------
  // What is fetched

  /* Where the halfword after the one at the pc is. */
  function SecondHalf(m: Memory, h: Hart): Outcome {
    if h.pcoff + 2 < PAGE then Phys(At(h.page, h.pcoff + 2)) else Target(m, h.(pc := Add(h.pc, 2)))
  }

  lemma Placed(k: nat, off: nat, v: nat)
    requires v == PAGE * k + off && off < PAGE
    ensures v / PAGE == k && v % PAGE == off
  {
  }

  lemma OnwardEven(v: word, n: nat)
    requires v % 2 == 0 && (n == 2 || n == 4)
    ensures Add(v, n) % 2 == 0 && Back2(Add(v, 2)) == v
  {
  }

  /* The address n further on, by page and offset. */
  lemma OnwardTo(v: word, q: nat, r: nat, n: nat)
    requires v == PAGE * q + r && r < PAGE && n <= 4
    ensures r + n < PAGE ==> Add(v, n) / PAGE == q && Add(v, n) % PAGE == r + n
    ensures PAGE <= r + n ==>
              Add(v, n) / PAGE == (if q + 1 < 0x10_0000 then q + 1 else 0) && Add(v, n) % PAGE == r + n - PAGE
  {
    if r + n < PAGE {
      Placed(q, r + n, Add(v, n));
    } else {
      Placed(if q + 1 < 0x10_0000 then q + 1 else 0, r + n - PAGE, Add(v, n));
    }
  }

  lemma Onward(v: word, n: nat)
    requires v % 2 == 0 && (n == 2 || n == 4)
    ensures Add(v, n) % 2 == 0 && Back2(Add(v, 2)) == v
    ensures v % PAGE + n < PAGE ==> Add(v, n) / PAGE == v / PAGE && Add(v, n) % PAGE == v % PAGE + n
    ensures v % PAGE + n == PAGE ==> Add(v, n) % PAGE == 0
    ensures v % PAGE + 2 == PAGE ==> Add(v, 4) / PAGE == Add(v, 2) / PAGE && Add(v, 4) % PAGE == 2
  {
    hide Add, Back2;
    OnwardEven(v, n);
    OnwardTo(v, v / PAGE, v % PAGE, n);
    OnwardTo(v, v / PAGE, v % PAGE, 2);
    OnwardTo(v, v / PAGE, v % PAGE, 4);
  }

  lemma SecondHalfMaps(m: Memory, h: Hart, w: Mmu)
    requires Follows(m, h, w)
    ensures SecondHalf(m, h).Phys? ==>
              Maps(m, if h.pcoff + 2 < PAGE then w else h.mmu, Add(h.pc, 2), SecondHalf(m, h).paddr)
  {
    hide Lookup, Translated, Maps;
    Onward(h.pc, 2);
    PageAndOffset(h.page, h.pcoff);
    if h.pcoff + 2 < PAGE {
      MapsPage(m, w, h.pc, At(h.page, h.pcoff), Add(h.pc, 2));
    } else if SecondHalf(m, h).Phys? {
      PhysMaps(m, h.mmu, Add(h.pc, 2), Execute);
    }
  }

  lemma PageAndOffset(page: frame, off: word)
    requires off < PAGE
    ensures At(page, off) / PAGE == page && At(page, off) % PAGE == off
  {
  }

  /* The instruction at the pc by halfwords: two bytes, or four if the low bits
     say so, the second pair from wherever the next halfword is. */
  function Instruction(m: Memory, h: Hart): Fetched
    requires h.pcoff < PAGE
  {
    var low := HalfAt(m, h.page, h.pcoff);
    if low % 4 != 3 then Short(low)
    else if low / 4 % 8 == 7 then Illegal(if h.pcoff % 4 == 2 then low else WordAt(m, h.page, h.pcoff))
    else
      match SecondHalf(m, h)
      case Phys(p) => Long(low + HalfAt(m, p / PAGE, p % PAGE) * HALF)
      case _ => Faulted
  }

  lemma Halves(w: word)
    ensures w == w / HALF * HALF + w % HALF && w / HALF < HALF
    ensures w % HALF % 4 == w % 4 && w % HALF / 4 % 8 == w / 4 % 8
  {
    var hi, lo := w / HALF, w % HALF;
    assert w == HALF * hi + lo && lo == 4 * (lo / 4) + lo % 4 && lo / 4 == 8 * (lo / 4 / 8) + lo / 4 % 8;
    Quotient(w, 4, 0x4000 * hi + lo / 4, lo % 4);
    Quotient(w / 4, 8, 0x800 * hi + lo / 4 / 8, lo / 4 % 8);
  }

  lemma SameWord(m: Memory, page: frame, off: word)
    requires off % 2 == 0 && off < PAGE
    ensures off % 4 == 2 <==> off / 2 % 2 == 1
    ensures off % 4 == 0 ==> off + 2 < PAGE && WordAt(m, page, off + 2) == WordAt(m, page, off) && (off + 2) % 4 == 2
    ensures off % 4 == 2 ==> (off + 2) % 4 == 0 && off + 2 <= PAGE
  {
  }

  lemma CrossingOffset(m: Memory, h: Hart)
    requires Sound(m, h.mmu) && h.pc % 2 == 0 && h.pcoff == h.pc % PAGE && h.pcoff + 2 == PAGE && SecondHalf(m, h).Phys?
    ensures SecondHalf(m, h).paddr % PAGE == 0
  {
    hide Lookup, Translated, Maps;
    Onward(h.pc, 2);
    PhysMaps(m, h.mmu, Add(h.pc, 2), Execute);
    MapsPage(m, h.mmu, Add(h.pc, 2), SecondHalf(m, h).paddr, Add(h.pc, 2));
  }

  /** The words are put together right: whatever the alignment, and across word
      and page boundaries, what is decoded is the halfword where the pc leads
      and, for four bytes, the halfword where the pc plus two leads: on the page
      that is cached under the translation it was looked up with, and on the next
      under the one in force. */
  lemma FetchAssembles(m: Memory, h: Hart, w: Mmu)
    requires Follows(m, h, w)
    ensures FetchedFrom(m, h).1 == Instruction(m, h)
    ensures SecondHalf(m, h).Phys? ==>
              Maps(m, if h.pcoff + 2 < PAGE then w else h.mmu, Add(h.pc, 2), SecondHalf(m, h).paddr)
  {
    hide Lookup, Translated, Maps, Trapped, Target, Looked, WordAt, Add, Back2, At;
    SecondHalfMaps(m, h, w);
    Halves(WordAt(m, h.page, h.pcoff));
    SameWord(m, h.page, h.pcoff);
    if h.pcoff + 2 < PAGE {
      PageAndOffset(h.page, h.pcoff + 2);
    } else if SecondHalf(m, h).Phys? {
      CrossingOffset(m, h);
    }
  }

  // ------------------------------------------------------------------
  // Every cycle

  /* What the instruction does with the processor this model has: go on after
     some data accesses, change SUM or the trap vector, jump, return from a trap,
     trap after some data accesses, or write SATP or fence. */
  datatype Effect =
    | Goes(accesses: seq<(word, Access)>)
    | SetsSum(sum: bool)
    | SetsVector(vector: word)
    | Jumps(dest: word)
    | Returns(to: word, super: bool)
    | Traps(accesses: seq<(word, Access)>, code: nat, val: word)
    | WritesSatp(val: word)
    | Fences

  /* What the interrupt lines and their enables come to at the start of a cycle. */
  datatype Irq = NoIrq | Irq(code: nat)

  /* The start of a cycle: an interrupt is taken, and the cycle goes on from the
     vector. */
  function Interrupted(m: Memory, h: Hart, irq: Irq): Hart {
    match irq
    case NoIrq => h
    case Irq(code) => Trapped(m, h, Interrupt(code), 0)
  }

  predicate Fetchable(h: Hart) {
    h.pcoff < PAGE && h.pcoff % 2 == 0
  }

  /* A whole cycle. */
  function Cycled(m: Memory, h: Hart, irq: Irq, effect: Effect): Hart
    requires Fetchable(Interrupted(m, h, irq))
  {
    var b := Interrupted(m, h, irq);
    if b.stopped then b else Executed(m, b, effect)
  }

  function Executed(m: Memory, h: Hart, effect: Effect): Hart
    requires Fetchable(h)
  {
    var (f, insn) := FetchedFrom(m, h);
    if insn.Faulted? || f.stopped then f
    else if insn.Illegal? then Ended(m, Trapped(m, f, Exception(EX_ILLINST), insn.bits))
    else
      match effect
      case Goes(accesses) => Ended(m, f.(mmu := AllTranslated(m.cells, f.mmu, accesses)))
      case SetsSum(sum) => Ended(m, f.(mmu := f.mmu.(sum := sum)))
      case SetsVector(vector) => Ended(m, f.(stvec := vector))
      case Jumps(dest) => Ended(m, Jumped(m, f, dest))
      case Returns(to, super) => Ended(m, Jumped(m, f.(mmu := f.mmu.(super := super)), to))
      case Traps(accesses, code, val) =>
        Ended(m, Trapped(m, f.(mmu := AllTranslated(m.cells, f.mmu, accesses)), Exception(code), val))
      case WritesSatp(val) => Ended(m, f.(mmu := SatpWritten(f.mmu, val)))
      case Fences => Ended(m, FencedOrTrapped(m, f))
  }

  function Ended(m: Memory, h: Hart): Hart {
    if h.stopped then h else Finished(m, h).0
  }

  /* After fetching: where the next instruction in sequence is. */
  ghost predicate Ready(m: Memory, h: Hart, f: Hart, length: nat, w: Mmu)
    requires length <= 4
  {
    && Sound(m, f.mmu) && f.pc == h.pc && f.stvec == h.stvec && f.stvec % 2 == 0 && !f.stopped
    && f.nextpc == Add(h.pc, length) && f.nextpc % 2 == 0
    && (f.nextpc % PAGE != 0 ==>
          f.nextpcoff == f.nextpc % PAGE && f.nextpcoff % 2 == 0 && Maps(m, w, f.nextpc, At(f.page, f.nextpcoff)))
  }

  lemma StaysOnPage(m: Memory, h: Hart, n: nat, w: Mmu)
    requires Follows(m, h, w) && (n == 2 || n == 4) && h.pcoff + n <= PAGE && !h.stopped
    ensures Ready(m, h, h.(nextpc := Add(h.pc, n), nextpcoff := Add(h.pcoff, n)), n, w)
  {
    hide Lookup, Maps, Sound;
    Onward(h.pc, n);
    if h.pcoff + n < PAGE {
      PageAndOffset(h.page, h.pcoff);
      MapsPage(m, w, h.pc, At(h.page, h.pcoff), Add(h.pc, n));
      EvenOffset(Add(h.pc, n));
    }
  }

  lemma CrossesPage(m: Memory, h: Hart, w: Mmu)
    requires Follows(m, h, w) && h.pcoff + 2 == PAGE && SecondHalf(m, h).Phys? && !h.stopped
    ensures var r := Precomputed(m, h.(pc := Add(h.pc, 2))).0;
            Ready(m, h, r.(pc := Back2(r.pc), pcoff := Back2(r.pcoff), nextpc := Add(h.pc, 4), nextpcoff := 2), 4, r.mmu)
            && Add(Back2(r.pcoff), 4) == 2
  {
    hide Lookup, Translated, Target, Precomputed;
    Onward(h.pc, 2);
    Onward(h.pc, 4);
    PrecomputedCoherent(m, h.(pc := Add(h.pc, 2)));
    CrossingOffset(m, h);
    var r := Precomputed(m, h.(pc := Add(h.pc, 2))).0;
    PageAndOffset(r.page, r.pcoff);
    MapsPage(m, r.mmu, Add(h.pc, 2), At(r.page, r.pcoff), Add(h.pc, 4));
  }

  /* Four bytes with the second half on the next page. */
  predicate Crosses(h: Hart, insn: Fetched) {
    h.pcoff + 2 == PAGE && insn.Long?
  }

  /** After the fetch the processor is ready for the next instruction in
      sequence; and a fault on the second half reports the instruction's own
      address as the exception pc, and the half's as the faulting one. */
  lemma FetchLeavesReady(m: Memory, h: Hart, w: Mmu)
    requires Follows(m, h, w) && !h.stopped
    ensures var (f, insn) := FetchedFrom(m, h);
            && (insn.Short? ==> Ready(m, h, f, 2, w))
            && (insn.Long? ==> Ready(m, h, f, 4, if Crosses(h, insn) then f.mmu else w))
            && (insn.Illegal? ==> f == h)
            && (!insn.Faulted? && !Crosses(h, insn) ==> f.mmu == h.mmu && f.page == h.page)
            && (insn.Faulted? && !f.stopped ==>
                  Coherent(m, f) && f.pc == h.stvec && f.sepc == h.pc && f.tval == Add(h.pc, 2) && f.stvec == h.stvec)
  {
    hide Lookup, Translated, Target, Precomputed, Maps, Sound, Ready, At, WordAt;
    SameWord(m, h.page, h.pcoff);
    Onward(h.pc, 2);
    StaysOnPage(m, h, 2, w);
    if h.pcoff + 2 == PAGE {
      PrecomputedCoherent(m, h.(pc := Add(h.pc, 2)));
      if SecondHalf(m, h).Phys? {
        CrossesPage(m, h, w);
      }
    } else {
      StaysOnPage(m, h, 4, w);
    }
  }

  lemma {:induction false} AccessesKeepTables(m: Memory, u: Mmu, accesses: seq<(word, Access)>)
    requires Sound(m, u)
    ensures Sound(m, AllTranslated(m.cells, u, accesses))
    ensures AllTranslated(m.cells, u, accesses) == u.(cache := AllTranslated(m.cells, u, accesses).cache)
    ensures u.top.Unmapped? ==> AllTranslated(m.cells, u, accesses) == u
    decreases |accesses|
  {
    hide Lookup, Translated;
    if accesses != [] {
      var (vaddr, rwx) := accesses[0];
      TranslateKeepsSound(m, u, vaddr, rwx);
      OnlyCacheChanges(m, u, vaddr, rwx);
      AccessesKeepTables(m, Translated(m.cells, u, vaddr, rwx).0, accesses[1..]);
    }
  }

  lemma OnlyCacheChanges(m: Memory, u: Mmu, vaddr: word, rwx: Access)
    ensures Translated(m.cells, u, vaddr, rwx).0 == u.(cache := Translated(m.cells, u, vaddr, rwx).0.cache)
    ensures u.top.Unmapped? ==> Translated(m.cells, u, vaddr, rwx).0 == u
  {
    if u.top.Unmapped? {
      OnlyCachedPage(m, u, vaddr, rwx);
    }
  }

  /** The end of a sequential instruction: the next one is where the pc says, on
      this page by stepping the offset or on the next by looking it up. */
  lemma SequentialFollows(m: Memory, h: Hart, f: Hart, length: nat, g: Hart, w: Mmu)
    requires length <= 4 && Ready(m, h, f, length, w)
    requires g == f.(mmu := g.mmu, stvec := g.stvec) && g.stvec % 2 == 0 && Sound(m, g.mmu)
    ensures var (r, ok) := Finished(m, g);
            && (ok ==> !r.stopped && r.pc == Add(h.pc, length) && r.pcoff == r.pc % PAGE)
            && (f.nextpc % PAGE != 0 ==> ok && r.mmu == g.mmu && r.page == f.page && Follows(m, r, w))
            && (f.nextpc % PAGE == 0 && ok ==> Coherent(m, r))
            && (!ok && !r.stopped ==> Coherent(m, r) && r.pc == g.stvec && r.sepc == Add(h.pc, length))
  {
    hide Lookup, Precomputed, Target, Sound, At, Maps;
    if g.nextpc % PAGE == 0 {
      PrecomputedCoherent(m, g.(pc := g.nextpc));
    }
  }

  /* After a jump or a trap pc and nextpc are the same place, looked up. */
  lemma LandedEnds(m: Memory, g: Hart)
    requires Coherent(m, g) && g.nextpc == g.pc && g.nextpcoff == g.pcoff && !g.stopped
    ensures Ended(m, g).stopped || Coherent(m, Ended(m, g))
  {
    hide Lookup, Precomputed, Target, Sound, At, Maps;
    if g.pc % PAGE == 0 {
      PrecomputedCoherent(m, g);
    }
  }

  lemma JumpCoherent(m: Memory, f: Hart, dest: word)
    requires Sound(m, f.mmu) && dest % 2 == 0 && f.stvec % 2 == 0 && !f.stopped
    ensures Ended(m, Jumped(m, f, dest)).stopped || Coherent(m, Ended(m, Jumped(m, f, dest)))
  {
    hide Lookup, Precomputed, Target, Sound, Ended, Coherent;
    var j := f.(pc := dest, nextpc := dest);
    PrecomputedCoherent(m, j);
    if !Jumped(m, f, dest).stopped {
      LandedEnds(m, Jumped(m, f, dest));
    } else {
      StaysStopped(m, Jumped(m, f, dest));
    }
  }

  lemma StaysStopped(m: Memory, g: Hart)
    requires g.stopped
    ensures Ended(m, g).stopped
  {
  }

  lemma TrapCoherent(m: Memory, f: Hart, cause: Cause, val: word)
    requires Sound(m, f.mmu) && f.stvec % 2 == 0 && !f.stopped
    ensures Ended(m, Trapped(m, f, cause, val)).stopped || Coherent(m, Ended(m, Trapped(m, f, cause, val)))
  {
    hide Lookup, Target, Trapped, Sound, Ended, Coherent;
    TrapLands(m, f, cause, val);
    if !Trapped(m, f, cause, val).stopped {
      LandedEnds(m, Trapped(m, f, cause, val));
    } else {
      StaysStopped(m, Trapped(m, f, cause, val));
    }
  }

  predicate Legal(effect: Effect) {
    match effect
    case SetsVector(vector) => vector % 2 == 0
    case Jumps(dest) => dest % 2 == 0
    case Returns(to, _) => to % 2 == 0
    case _ => true
  }

  // ------------------------------------------------------------------
  // Changes of translation

  /* Past the cache this address leads to this physical page. */
  ghost predicate Leads(m: Memory, enabled: bool, top: Top, vaddr: word, page: frame) {
    if !enabled then page == vaddr / PAGE
    else
      match top
      case Unmapped => false
      case Table(_) =>
        var e := Lookup(m.cells, top, vaddr);
        e.Entry? && !e.pte.upper && page == (e.pte.frame - e.pte.frame % Span(e.super) + vaddr % Span(e.super)) / PAGE
  }

  lemma LeadsMaps(m: Memory, u: Mmu, vaddr: word, page: frame)
    requires u.cache.vpage == INVALID_VPAGE
    ensures Maps(m, u, vaddr, At(page, vaddr % PAGE)) <==> Leads(m, u.enabled, u.top, vaddr, page)
  {
    hide Lookup, Decoded;
    SamePage(m.cells, u.top, vaddr, vaddr);
    PageAndOffset(page, vaddr % PAGE);
    if u.enabled && u.top.Table? {
      FrameAligned(m.cells, u.top, vaddr);
      var e := Lookup(m.cells, u.top, vaddr);
      if e.Entry? {
        SpanOffset(e.pte.frame, e.super, vaddr, vaddr);
      }
    }
  }

  /* Writing SATP and fencing look nothing up: the instruction in sequence comes
     from the page that is cached. With the value written, and the root table of
     the last fence until the next one, is that where it belongs? */
  ghost predicate SatpKeeps(m: Memory, f: Hart, val: word) {
    Leads(m, Bit(val, 0x8000_0000), f.mmu.top, f.nextpc, f.page)
  }

  ghost predicate FenceKeeps(m: Memory, f: Hart) {
    Leads(m, f.mmu.enabled, Table(f.mmu.base), f.nextpc, f.page)
  }

  /* The instruction itself looks the pc up. */
  predicate LooksUp(m: Memory, effect: Effect, f: Hart) {
    || effect.Jumps? || effect.Returns? || effect.Traps?
    || (effect.Fences? && !MapMem(f.mmu.base, m.ramSize, m.romSize))
  }

  /* The translation the pc was last looked up with, after an instruction. */
  function LookedWith(m: Memory, h: Hart, effect: Effect, w: Mmu): Mmu
    requires Fetchable(h)
  {
    var (f, insn) := FetchedFrom(m, h);
    if insn.Faulted? || insn.Illegal? || LooksUp(m, effect, f) || f.nextpc % PAGE == 0 then Executed(m, h, effect).mmu
    else if Crosses(h, insn) then f.mmu
    else w
  }

  /* Whether the cached page is right after an instruction, if before it the
     answer was `right`. */
  ghost predicate StaysRight(m: Memory, h: Hart, effect: Effect, right: bool)
    requires Fetchable(h)
  {
    var (f, insn) := FetchedFrom(m, h);
    || insn.Faulted? || insn.Illegal? || LooksUp(m, effect, f) || f.nextpc % PAGE == 0
    || match effect
       case WritesSatp(val) => SatpKeeps(m, f, val)
       case Fences => FenceKeeps(m, f)
       case _ => right || Crosses(h, insn)
  }

  /* What an instruction that goes on in sequence leaves to be ended. */
  function GoneOn(m: Memory, f: Hart, effect: Effect): Hart {
    match effect
    case Goes(accesses) => f.(mmu := AllTranslated(m.cells, f.mmu, accesses))
    case SetsSum(sum) => f.(mmu := f.mmu.(sum := sum))
    case SetsVector(vector) => f.(stvec := vector)
    case WritesSatp(val) => f.(mmu := SatpWritten(f.mmu, val))
    case Fences => f.(mmu := Fenced(f.mmu, m.ramSize, m.romSize).0)
    case _ => f
  }

  predicate Switches(effect: Effect) {
    effect.WritesSatp? || effect.Fences?
  }

  /* Two translation states that lead everywhere to the same places. */
  predicate SameLeads(u: Mmu, v: Mmu) {
    u.enabled == v.enabled && u.top == v.top && (u.top.Unmapped? ==> u.cache == v.cache)
  }

  lemma GoneOnSound(m: Memory, f: Hart, effect: Effect)
    requires Sound(m, f.mmu) && f.stvec % 2 == 0 && Legal(effect) && !LooksUp(m, effect, f)
    ensures var g := GoneOn(m, f, effect);
            && Sound(m, g.mmu) && g.stvec % 2 == 0 && g == f.(mmu := g.mmu, stvec := g.stvec)
            && (!Switches(effect) ==> SameLeads(f.mmu, g.mmu))
            && (Switches(effect) ==> g.mmu.cache.vpage == INVALID_VPAGE)
  {
    hide Lookup, MapMem, AllTranslated;
    match effect
    case Goes(accesses) => AccessesKeepTables(m, f.mmu, accesses);
    case _ =>
  }

  lemma ExecutesGoneOn(m: Memory, h: Hart, effect: Effect)
    requires Fetchable(h)
    requires var (f, insn) := FetchedFrom(m, h); (insn.Short? || insn.Long?) && !f.stopped && !LooksUp(m, effect, f)
    ensures Executed(m, h, effect) == Ended(m, GoneOn(m, FetchedFrom(m, h).0, effect))
  {
    hide FetchedFrom, Ended, AllTranslated, MapMem;
  }

  lemma UnmappedSound(m: Memory, u: Mmu)
    requires Sound(m, u)
    ensures Sound(m, u.(top := Unmapped))
  {
  }

  lemma FailedFenceCoherent(m: Memory, f: Hart)
    requires Sound(m, f.mmu) && f.stvec % 2 == 0 && !f.stopped && !MapMem(f.mmu.base, m.ramSize, m.romSize)
    ensures var r := Ended(m, FencedOrTrapped(m, f));
            r.stopped || Coherent(m, r)
  {
    hide Ended, Trapped, Coherent, MapMem, Sound;
    UnmappedSound(m, f.mmu);
    TrapCoherent(m, f.(mmu := f.mmu.(top := Unmapped)), Exception(EX_LACCESS), f.pc);
  }

  lemma ModeKeepsSound(m: Memory, u: Mmu, super: bool)
    requires Sound(m, u)
    ensures Sound(m, u.(super := super))
  {
  }

  /* An instruction that looks the pc up leaves it right. */
  lemma LookupCoherent(m: Memory, f: Hart, effect: Effect)
    requires Sound(m, f.mmu) && f.stvec % 2 == 0 && !f.stopped && Legal(effect) && LooksUp(m, effect, f)
    ensures var r := match effect {
                       case Jumps(dest) => Ended(m, Jumped(m, f, dest))
                       case Returns(to, super) => Ended(m, Jumped(m, f.(mmu := f.mmu.(super := super)), to))
                       case Traps(accesses, code, val) =>
                         Ended(m, Trapped(m, f.(mmu := AllTranslated(m.cells, f.mmu, accesses)), Exception(code), val))
                       case _ => Ended(m, FencedOrTrapped(m, f)) };
            r.stopped || Coherent(m, r)
  {
    hide Ended, Jumped, Trapped, FencedOrTrapped, AllTranslated, Coherent, Sound, MapMem;
    match effect
    case Jumps(dest) => JumpCoherent(m, f, dest);
    case Returns(to, super) =>
      ModeKeepsSound(m, f.mmu, super);
      JumpCoherent(m, f.(mmu := f.mmu.(super := super)), to);
    case Traps(accesses, code, val) =>
      AccessesKeepTables(m, f.mmu, accesses);
      TrapCoherent(m, f.(mmu := AllTranslated(m.cells, f.mmu, accesses)), Exception(code), val);
    case _ => FailedFenceCoherent(m, f);
  }

  /* Where the place of one address on a page is right, all are. */
  lemma SamePageMaps(m: Memory, u: Mmu, v: Mmu, page: frame, a: word, b: word)
    requires SameLeads(u, v) && a / PAGE == b / PAGE
    ensures Maps(m, u, a, At(page, a % PAGE)) <==> Maps(m, v, b, At(page, b % PAGE))
  {
    hide Lookup, At;
    PageAndOffset(page, a % PAGE);
    PageAndOffset(page, b % PAGE);
    if Maps(m, u, a, At(page, a % PAGE)) {
      MapsPage(m, u, a, At(page, a % PAGE), b);
    }
    if Maps(m, v, b, At(page, b % PAGE)) {
      MapsPage(m, v, b, At(page, b % PAGE), a);
    }
  }

  /* An instruction that goes on in sequence. */
  lemma InSequence(m: Memory, h: Hart, effect: Effect, w: Mmu)
    requires Follows(m, h, w) && !h.stopped && Legal(effect)
    requires var (f, insn) := FetchedFrom(m, h);
             (insn.Short? || insn.Long?) && !LooksUp(m, effect, f) && f.nextpc % PAGE != 0
    ensures var (f, insn) := FetchedFrom(m, h);
            var r := Executed(m, h, effect);
            && !f.stopped && f.nextpcoff == f.nextpc % PAGE
            && !r.stopped && r.pc == f.nextpc && r.page == f.page && r.mmu == GoneOn(m, f, effect).mmu
            && Follows(m, r, if Crosses(h, insn) then f.mmu else w)
  {
    hide Lookup, FetchedFrom, Executed, Finished, GoneOn, LooksUp, Maps, At, Sound, Legal;
    FetchLeavesReady(m, h, w);
    var (f, insn) := FetchedFrom(m, h);
    var g := GoneOn(m, f, effect);
    GoneOnSound(m, f, effect);
    ExecutesGoneOn(m, h, effect);
    SequentialFollows(m, h, f, if insn.Short? then 2 else 4, g, if Crosses(h, insn) then f.mmu else w);
  }

  lemma SequenceStaysOnPage(m: Memory, h: Hart, w: Mmu)
    requires Follows(m, h, w) && !h.stopped
    ensures var (f, insn) := FetchedFrom(m, h);
            (insn.Short? || insn.Long?) && !Crosses(h, insn) && f.nextpc % PAGE != 0 ==>
              f.nextpc / PAGE == h.pc / PAGE && f.mmu == h.mmu && f.page == h.page
  {
    hide Lookup, Translated, Target, Precomputed, Maps, Sound, At, WordAt;
    SameWord(m, h.page, h.pcoff);
    Onward(h.pc, 2);
    Onward(h.pc, 4);
  }

  lemma LookupsExecute(m: Memory, h: Hart, effect: Effect)
    requires Fetchable(h)
    requires var (f, insn) := FetchedFrom(m, h); (insn.Short? || insn.Long?) && !f.stopped && LooksUp(m, effect, f)
    ensures var f := FetchedFrom(m, h).0;
            Executed(m, h, effect)
            == match effect
               case Jumps(dest) => Ended(m, Jumped(m, f, dest))
               case Returns(to, super) => Ended(m, Jumped(m, f.(mmu := f.mmu.(super := super)), to))
               case Traps(accesses, code, val) =>
                 Ended(m, Trapped(m, f.(mmu := AllTranslated(m.cells, f.mmu, accesses)), Exception(code), val))
               case _ => Ended(m, FencedOrTrapped(m, f))
  {
    hide FetchedFrom, Ended, Jumped, Trapped, FencedOrTrapped, AllTranslated;
  }

  lemma PageStartCoherent(m: Memory, h: Hart, effect: Effect, w: Mmu)
    requires Follows(m, h, w) && !h.stopped && Legal(effect)
    requires var (f, insn) := FetchedFrom(m, h);
             (insn.Short? || insn.Long?) && !f.stopped && !LooksUp(m, effect, f) && f.nextpc % PAGE == 0
    ensures Executed(m, h, effect).stopped || Coherent(m, Executed(m, h, effect))
  {
    hide Lookup, FetchedFrom, Executed, Finished, GoneOn, LooksUp, Maps, At, Sound, Legal;
    FetchLeavesReady(m, h, w);
    var (f, insn) := FetchedFrom(m, h);
    GoneOnSound(m, f, effect);
    ExecutesGoneOn(m, h, effect);
    SequentialFollows(m, h, f, if insn.Short? then 2 else 4, GoneOn(m, f, effect),
                      if Crosses(h, insn) then f.mmu else w);
  }

  /** Every instruction: the machine stops, or goes on fetching from where the pc
      led when it was last looked up. */
  lemma ExecutedFollows(m: Memory, h: Hart, effect: Effect, w: Mmu)
    requires Follows(m, h, w) && !h.stopped && Legal(effect)
    ensures var r := Executed(m, h, effect);
            r.stopped || Follows(m, r, LookedWith(m, h, effect, w))
  {
    hide Lookup, FetchedFrom, Ended, Jumped, Trapped, FencedOrTrapped, AllTranslated, SatpWritten, Fenced, Maps, At,
      MapMem, Sound, Legal, LooksUp;
    FetchLeavesReady(m, h, w);
    var (f, insn) := FetchedFrom(m, h);
    if insn.Faulted? || f.stopped {
    } else if insn.Illegal? {
      TrapCoherent(m, f, Exception(EX_ILLINST), insn.bits);
    } else if LooksUp(m, effect, f) {
      LookupsExecute(m, h, effect);
      LookupCoherent(m, f, effect);
    } else if f.nextpc % PAGE == 0 {
      PageStartCoherent(m, h, effect, w);
    } else {
      InSequence(m, h, effect, w);
    }
  }

  /** And the page it goes on with is right exactly if the instruction looked it up,
      or it was right before and stays so under what the instruction switched to. */
  lemma ExecutedExact(m: Memory, h: Hart, effect: Effect, w: Mmu)
    requires Follows(m, h, w) && !h.stopped && Legal(effect)
    ensures var r := Executed(m, h, effect);
            r.stopped || (Coherent(m, r) <==> StaysRight(m, h, effect, Coherent(m, h)))
  {
    hide Lookup, FetchedFrom, Executed, LooksUp, GoneOn, Maps, At, Sound, Legal, Leads, SameLeads;
    ExecutedFollows(m, h, effect, w);
    var (f, insn) := FetchedFrom(m, h);
    if (insn.Short? || insn.Long?) && !LooksUp(m, effect, f) && f.nextpc % PAGE != 0 {
      InSequence(m, h, effect, w);
      SequenceStaysOnPage(m, h, w);
      FetchLeavesReady(m, h, w);
      GoneOnSound(m, f, effect);
      var g := GoneOn(m, f, effect);
      if Switches(effect) {
        LeadsMaps(m, g.mmu, f.nextpc, f.page);
        SwitchedTo(m, f, effect);
      } else if Crosses(h, insn) {
        SamePageMaps(m, f.mmu, g.mmu, f.page, f.nextpc, f.nextpc);
      } else {
        SamePageMaps(m, h.mmu, g.mmu, h.page, h.pc, f.nextpc);
      }
    }
  }

  lemma SwitchedTo(m: Memory, f: Hart, effect: Effect)
    requires Switches(effect) && !LooksUp(m, effect, f)
    ensures var u := GoneOn(m, f, effect).mmu;
            Leads(m, u.enabled, u.top, f.nextpc, f.page)
            <==> match effect case WritesSatp(val) => SatpKeeps(m, f, val) case _ => FenceKeeps(m, f)
  {
    hide MapMem, Leads;
  }

  lemma InterruptedFollows(m: Memory, h: Hart, irq: Irq, w: Mmu)
    requires Follows(m, h, w) && !h.stopped
    ensures var b := Interrupted(m, h, irq);
            Fetchable(b) && (b.stopped || (if irq.NoIrq? then b == h else Coherent(m, b)))
  {
    hide Lookup, Target, Translated, Maps, At, Sound;
    match irq
    case NoIrq =>
    case Irq(code) => TrapLands(m, h, Interrupt(code), 0);
  }

  // ------------------------------------------------------------------
  // Every cycle and every run

  /* The translation of the last lookup when the instruction of a cycle begins. */
  function Before(m: Memory, h: Hart, irq: Irq, w: Mmu): Mmu {
    if irq.NoIrq? then w else Interrupted(m, h, irq).mmu
  }

  function LookedAfter(m: Memory, h: Hart, irq: Irq, effect: Effect, w: Mmu): Mmu
    requires Fetchable(Interrupted(m, h, irq))
  {
    LookedWith(m, Interrupted(m, h, irq), effect, Before(m, h, irq, w))
  }

  ghost predicate RightAfter(m: Memory, h: Hart, irq: Irq, effect: Effect, right: bool)
    requires Fetchable(Interrupted(m, h, irq))
  {
    StaysRight(m, Interrupted(m, h, irq), effect, right || irq.Irq?)
  }

  /** Every cycle, interrupted or not, and whatever the instruction does: it stops
      the machine, or goes on from where the pc led when it was last looked up; and
      then the cached page is where the pc leads now exactly as RightAfter says. */
  lemma CycleExact(m: Memory, h: Hart, irq: Irq, effect: Effect, w: Mmu)
    requires Follows(m, h, w) && !h.stopped && Legal(effect)
    ensures Fetchable(Interrupted(m, h, irq))
    ensures var r := Cycled(m, h, irq, effect);
            || r.stopped
            || (&& Follows(m, r, LookedAfter(m, h, irq, effect, w))
                && (Coherent(m, r) <==> RightAfter(m, h, irq, effect, Coherent(m, h))))
  {
    hide Interrupted, Executed, LookedWith, StaysRight, Follows;
    InterruptedFollows(m, h, irq, w);
    var b := Interrupted(m, h, irq);
    if !b.stopped {
      ExecutedFollows(m, b, effect, Before(m, h, irq, w));
      ExecutedExact(m, b, effect, Before(m, h, irq, w));
    }
  }

  /** So a cycle that begins right ends right, or with the machine stopped, unless a
      write to SATP or a fence in it puts the next instruction somewhere else. */
  lemma CycleCoherent(m: Memory, h: Hart, irq: Irq, effect: Effect)
    requires Coherent(m, h) && !h.stopped && Legal(effect)
    ensures Fetchable(Interrupted(m, h, irq))
    ensures !Switches(effect) || RightAfter(m, h, irq, effect, true) ==>
              Cycled(m, h, irq, effect).stopped || Coherent(m, Cycled(m, h, irq, effect))
  {
    hide Interrupted, Executed, LookedWith, Follows, Cycled, FetchedFrom;
    CycleExact(m, h, irq, effect, h.mmu);
  }

  ghost predicate Reaches(m: Memory, h: Hart, cycles: seq<(Irq, Effect)>, end: Hart)
    decreases |cycles|
  {
    if cycles == [] || h.stopped then end == h
    else
      var (irq, effect) := cycles[0];
      && Legal(effect) && Fetchable(Interrupted(m, h, irq))
      && Reaches(m, Cycled(m, h, irq, effect), cycles[1..], end)
  }

  /* The translation of the last lookup, at the end of a run. */
  function LastLookup(m: Memory, h: Hart, cycles: seq<(Irq, Effect)>, w: Mmu): Mmu
    decreases |cycles|
  {
    if cycles == [] || h.stopped || !Fetchable(Interrupted(m, h, cycles[0].0)) then w
    else
      var (irq, effect) := cycles[0];
      LastLookup(m, Cycled(m, h, irq, effect), cycles[1..], LookedAfter(m, h, irq, effect, w))
  }

  /* Whether the cached page is right at the end of a run. */
  ghost predicate RightAtEnd(m: Memory, h: Hart, cycles: seq<(Irq, Effect)>, right: bool)
    decreases |cycles|
  {
    if cycles == [] || h.stopped || !Fetchable(Interrupted(m, h, cycles[0].0)) then right
    else
      var (irq, effect) := cycles[0];
      RightAtEnd(m, Cycled(m, h, irq, effect), cycles[1..], RightAfter(m, h, irq, effect, right))
  }

  /** Every run at all. Instructions come from where the pc led when it was last
      looked up, and whether that is where it leads now is what the writes to SATP
      and the fences since decide. */
  lemma {:induction false} RunFollows(m: Memory, h: Hart, cycles: seq<(Irq, Effect)>, end: Hart, w: Mmu)
    requires (h.stopped || Follows(m, h, w)) && Reaches(m, h, cycles, end)
    ensures || end.stopped
            || (&& Follows(m, end, LastLookup(m, h, cycles, w))
                && (Coherent(m, end) <==> RightAtEnd(m, h, cycles, Coherent(m, h))))
    decreases |cycles|
  {
    hide Cycled, Interrupted, Legal, Follows, LookedAfter, RightAfter, Coherent;
    if cycles != [] && !h.stopped {
      var (irq, effect) := cycles[0];
      CycleExact(m, h, irq, effect, w);
      RunFollows(m, Cycled(m, h, irq, effect), cycles[1..], end, LookedAfter(m, h, irq, effect, w));
    }
  }

  /** So at the end of every run from a state that was right, the instruction that
      is decoded next, after an interrupt or not, is the one at the pc: by the
      translation of the last lookup for what is on the cached page, by the present
      one for a second half on the next page. */
  lemma RunFetchesRight(m: Memory, h: Hart, cycles: seq<(Irq, Effect)>, end: Hart, irq: Irq)
    requires Coherent(m, h) && Reaches(m, h, cycles, end) && !end.stopped
    ensures var b := Interrupted(m, end, irq);
            || b.stopped
            || (&& Follows(m, b, Before(m, end, irq, LastLookup(m, h, cycles, h.mmu)))
                && FetchedFrom(m, b).1 == Instruction(m, b)
                && (irq.Irq? || RightAtEnd(m, h, cycles, true) ==> Coherent(m, b)))
  {
    hide Interrupted, LastLookup, RightAtEnd, FetchedFrom, Instruction, Follows, Reaches;
    RunFollows(m, h, cycles, end, h.mmu);
    var w := LastLookup(m, h, cycles, h.mmu);
    InterruptedFollows(m, end, irq, w);
    var b := Interrupted(m, end, irq);
    if !b.stopped {
      FetchAssembles(m, b, Before(m, end, irq, w));
    }
  }

  /* Out of reset there is no paging, and the first instruction is in the ROM. */
  lemma StartsCoherent(m: Memory, pc: word, stvec: word)
    requires pc % 2 == 0 && stvec % 2 == 0 && MapMem(pc, m.ramSize, m.romSize)
    ensures var h := Precomputed(m, PowerOn(pc, stvec)).0;
            !h.stopped && Coherent(m, h) && h.pc == pc
  {
    hide Lookup;
    PrecomputedCoherent(m, PowerOn(pc, stvec));
  }
}
