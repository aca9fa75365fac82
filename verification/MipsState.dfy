/**
 The part of a MIPS-161 processor that decides where the next instruction
 comes from, as a value: the pc/nextpc pair with the cached page pointers
 beside it, the TLB, the status stack, and exception entry.

 The functions give each operation its effect without any recursion: `Raise`
 is exception entry in one step. MipsCpu does it the way the processor does,
 where exception entry, translation and the two precompute routines call each
 other, and proves that it comes to the same thing.
 */
module MipsState {
  import opened Words
  import opened MipsMmu

  const OP_RFE: word := 0x4200_0010

  datatype Mode = Mode(user: bool, irqon: bool)

  const KERNEL_OFF := Mode(false, false)

  /* STATUS: the three-deep stack of modes, and the boot exception vectors. */
  datatype Status = Status(cur: Mode, prev: Mode, eldest: Mode, boot: bool)

  /* What an exception reports: CAUSE (the delay-slot bit, the coprocessor
     number and the code), VADDR, EPC, and CONTEXT split into the kernel's part
     and the number of the faulting page below it. */
  datatype Report = Report(bd: bool, ce: nat, code: nat, vaddr: word, epc: word,
                           contextBase: nat, contextPage: int)

  function Pushed(s: Status): Status {
    s.(eldest := s.prev, prev := s.cur, cur := KERNEL_OFF)
  }

  function Popped(s: Status): Status {
    s.(cur := s.prev, prev := s.eldest)
  }

  datatype Cpu = Cpu(
    pc: word, nextpc: word, expc: word,
    pcpage: Page, pcoff: word, nextpcpage: Page, nextpcoff: word,
    jumping: bool, inJumpDelay: bool,
    tlb: seq<TlbEntry>, entry: TlbEntry,
    status: Status,
    llActive: bool,
    report: Report,
    exceptions: nat)

  /* What the instruction fetched this cycle does to this part of the
     processor. Register contents, and so branch targets and data addresses,
     are whatever the run says they are. */
  datatype Op =
    | Plain
    | Stall                                  // hi/lo not ready: start over
    | Branch(target: word)                   // a jump, or a branch that is taken
    | Access(vaddr: word, iswrite: bool, busError: bool, link: bool)
    | Trap(code: nat, cn: nat)
    | TlbWrite(ix: nat)
    | TlbRead(ix: nat)
    | MtTlbLo(val: word)
    | MtTlbHi(val: word)
    | MtStatus(val: word)
    | Rfe

  predicate Bit(val: word, b: nat)
    requires b > 0
  {
    val / b % 2 == 1
  }

  /* The address of the next word. */
  function Next(v: word): word {
    if v + 4 < TWO_32 then v + 4 else v + 4 - TWO_32
  }

  // ------------------------------------------------------------------
  // Exception entry

  function Vector(boot: bool, utlb: bool): word {
    if boot then if utlb then 0xbfc0_0100 else 0xbfc0_0180
    else if utlb then 0x8000_0000 else 0x8000_0080
  }

  function VectorOffset(boot: bool, utlb: bool): word {
    if boot then if utlb then 0x100 else 0x180
    else if utlb then 0 else 0x80
  }

  function VectorPage(boot: bool): Page {
    if boot then Rom(0) else Ram(0)
  }

  predicate UsesUtlbVector(code: nat, cnOrUser: nat) {
    (code == EX_TLBL || code == EX_TLBS) && cnOrUser != 0
  }

  /* What exception entry records before it jumps. */
  function Saved(c: Cpu, code: nat, cnOrUser: nat, vaddr: word): Cpu {
    c.(jumping := false, inJumpDelay := false, llActive := false,
       status := Pushed(c.status),
       report := Report(c.inJumpDelay, if code == EX_CPU then cnOrUser else 0, code, vaddr, c.expc,
                        c.report.contextBase, vaddr / PAGE % 0x8_0000),
       exceptions := c.exceptions + 1)
  }

  /* The state on entry to the handler. */
  function Raise(c: Cpu, code: nat, cnOrUser: nat, vaddr: word): Cpu {
    var utlb := UsesUtlbVector(code, cnOrUser);
    var v, off := Vector(c.status.boot, utlb), VectorOffset(c.status.boot, utlb);
    Saved(c, code, cnOrUser, vaddr)
    .(pc := v, pcpage := VectorPage(c.status.boot), pcoff := off,
      nextpc := v + 4, nextpcpage := VectorPage(c.status.boot), nextpcoff := off + 4)
  }

  // ------------------------------------------------------------------
  // Translation, and the cached places of pc and nextpc

  function Look(c: Cpu, vaddr: word, iswrite: bool): Xlat {
    Translate(c.tlb, c.entry.pid, c.status.cur.user, vaddr, iswrite)
  }

  function LocateIn(c: Cpu, ramSize: word, vaddr: word): Place {
    Locate(c.tlb, c.entry.pid, c.status.cur.user, ramSize, vaddr)
  }

  /* Looking in the TLB leaves the page looked for in TLBHI. */
  function Probed(c: Cpu, vaddr: word): Cpu {
    if ((vaddr >= 0x8000_0000 && c.status.cur.user) || vaddr % 4 != 0) || !Mapped(vaddr) then c
    else c.(entry := c.entry.(vpn := PageOf(vaddr)))
  }

  function Translated(c: Cpu, vaddr: word, iswrite: bool): (r: (Cpu, bool)) {
    match Look(c, vaddr, iswrite)
    case Phys(_) => (Probed(c, vaddr), true)
    case Fault(code, utlb) => (Raise(Probed(c, vaddr), code, if utlb then 1 else 0, vaddr), false)
  }

  function Precomputed(c: Cpu, ramSize: word): (Cpu, bool) {
    match LocateIn(c, ramSize, c.pc)
    case Place(page, off) => (Probed(c, c.pc).(pcpage := page, pcoff := off), true)
    case Nowhere =>
      var t := Translated(c, c.pc, false);
      (if t.1 then Raise(t.0, EX_IBE, 0, 0) else t.0, false)
  }

  function PrecomputedNext(c: Cpu, ramSize: word): (Cpu, bool) {
    match LocateIn(c, ramSize, c.nextpc)
    case Place(page, off) => (Probed(c, c.nextpc).(nextpcpage := page, nextpcoff := off), true)
    case Nowhere =>
      var t := Translated(c, c.nextpc, false);
      (if t.1 then Raise(t.0, EX_IBE, 0, 0) else t.0, false)
  }

  function PrecomputedBoth(c: Cpu, ramSize: word): Cpu {
    PrecomputedNext(Precomputed(c, ramSize).0, ramSize).0
  }

  /* Both vectors, and the words after them, can always be fetched. */
  lemma VectorsLocated(c: Cpu, ramSize: word, utlb: bool)
    requires ramSize > 0 && !c.status.cur.user
    ensures var v, off := Vector(c.status.boot, utlb), VectorOffset(c.status.boot, utlb);
            LocateIn(c, ramSize, v) == Place(VectorPage(c.status.boot), off)
            && LocateIn(c, ramSize, v + 4) == Place(VectorPage(c.status.boot), off + 4)
            && Probed(c, v) == c && Probed(c, v + 4) == c
  {
  }

  // ------------------------------------------------------------------
  // One cycle

  function Begun(c: Cpu, irq: bool): Cpu {
    var d := if c.jumping then c.(jumping := false, inJumpDelay := true) else c.(expc := c.pc);
    if d.status.cur.irqon && irq then
      var e := Raise(d, EX_IRQ, 0, 0);
      e.(expc := e.pc)
    else d
  }

  /* Moving on to nextpc after fetching `insn`; false if that took an exception. */
  function Advanced(c: Cpu, ramSize: word, insn: word): (Cpu, bool) {
    var d := c.(pc := c.nextpc, pcoff := c.nextpcoff, pcpage := c.nextpcpage, nextpc := Next(c.nextpc));
    if d.nextpc % PAGE != 0 then (d.(nextpcoff := Next(d.nextpcoff)), true)
    else if insn == OP_RFE then (d.(nextpcpage := NoPage, nextpcoff := 0), true)
    else PrecomputedNext(d, ramSize)
  }

  function Branched(c: Cpu, code: (Page, word) -> word, ramSize: word, target: word): Cpu {
    if target % 4 != 0 then Raise(c, EX_ADEL, 0, target)
    else
      var d := c.(nextpc := target, jumping := true);
      if code(d.pcpage, d.pcoff) == OP_RFE then d.(nextpcpage := NoPage, nextpcoff := 0)
      else PrecomputedNext(d, ramSize).0
  }

  function Returned(c: Cpu, ramSize: word): Cpu {
    PrecomputedBoth(c.(status := Popped(c.status), inJumpDelay := false, expc := c.pc), ramSize)
  }

  function Restarted(c: Cpu): Cpu {
    c.(jumping := false, inJumpDelay := false, pc := c.expc, nextpc := Next(c.expc))
  }

  function StatusFrom(val: word): Status {
    Status(Mode(Bit(val, 2), Bit(val, 1)), Mode(Bit(val, 8), Bit(val, 4)),
           Mode(Bit(val, 0x20), Bit(val, 0x10)), Bit(val, 0x40_0000))
  }

  function WithTlbLo(e: TlbEntry, val: word): TlbEntry {
    e.(global := Bit(val, 0x100), valid := Bit(val, 0x200), dirty := Bit(val, 0x400),
       nocache := Bit(val, 0x800), pfn := PageOf(val))
  }

  function WithTlbHi(e: TlbEntry, val: word): TlbEntry {
    e.(vpn := PageOf(val), pid := val / 64 % 64)
  }

  function Executed(c: Cpu, code: (Page, word) -> word, ramSize: word, op: Op): Cpu {
    match op
    case Plain => c
    case Stall => PrecomputedBoth(Restarted(c), ramSize)
    case Branch(target) => Branched(c, code, ramSize, target)
    case Access(vaddr, iswrite, busError, link) =>
      var t := Translated(c, vaddr, iswrite);
      if !t.1 then t.0
      else if busError then Raise(t.0, EX_DBE, 0, 0)
      else t.0.(llActive := t.0.llActive || link)
    case Trap(ex, cn) => Raise(c, ex, cn, 0)
    case TlbWrite(ix) =>
      if ix < |c.tlb| then PrecomputedBoth(c.(tlb := c.tlb[ix := c.entry]), ramSize) else c
    case TlbRead(ix) => if ix < |c.tlb| then c.(entry := c.tlb[ix]) else c
    case MtTlbLo(val) => c.(entry := WithTlbLo(c.entry, val))
    case MtTlbHi(val) => c.(entry := WithTlbHi(c.entry, val))
    case MtStatus(val) => c.(status := StatusFrom(val))
    case Rfe => Returned(c, ramSize)
  }

  function Fetched(c: Cpu, code: (Page, word) -> word): word {
    code(c.pcpage, c.pcoff)
  }

  function Cycled(c: Cpu, code: (Page, word) -> word, ramSize: word, irq: bool, op: Op): Cpu {
    var b := Begun(c, irq);
    var a := Advanced(b, ramSize, Fetched(b, code));
    if !a.1 then a.0 else Executed(a.0, code, ramSize, op).(inJumpDelay := false)
  }
}
