/**
 What translation, exception entry, and the writes to the TLB and to STATUS come
 to, in the numbers of the architecture: the physical address of every access,
 what each refusal reports, and where every cycle goes next.
 */
module MipsEffects {
  import opened Words
  import opened MipsMmu
  import opened MipsState
  import opened MipsPcCache

  // ------------------------------------------------------------------
  // Translation

  predicate ThroughTlb(v: word) {
    v < 0x8000_0000 || v >= 0xc000_0000
  }

  predicate Refused(c: Cpu, v: word) {
    v % 4 != 0 || (v >= 0x8000_0000 && c.status.cur.user)
  }

  predicate Fits(e: TlbEntry, v: word, pid: word) {
    e.vpn == v - v % 4096 && (e.pid == pid || e.global)
  }

  /* Entry i is the first for this address. */
  ghost predicate Serves(tlb: seq<TlbEntry>, i: nat, v: word, pid: word) {
    i < |tlb| && Fits(tlb[i], v, pid) && forall j :: 0 <= j < i ==> !Fits(tlb[j], v, pid)
  }

  ghost predicate Missed(tlb: seq<TlbEntry>, v: word, pid: word) {
    forall j :: 0 <= j < |tlb| ==> !Fits(tlb[j], v, pid)
  }

  /* d is at the start of the handler of an exception that c took, with this code
     and about this address. */
  predicate Entered(c: Cpu, d: Cpu, code: nat, v: word, utlb: bool) {
    && d.exceptions == c.exceptions + 1 && !d.llActive && !d.jumping && !d.inJumpDelay
    && d.report.code == code && d.report.ce == 0 && d.report.vaddr == v
    && d.report.epc == c.expc && d.report.bd == c.inJumpDelay
    && d.report.contextBase == c.report.contextBase && d.report.contextPage == v / 4096 % 0x8_0000
    && d.status == Status(Mode(false, false), c.status.cur, c.status.prev, c.status.boot)
    && d.pc == (if c.status.boot then 0xbfc0_0100 else 0x8000_0000) + (if utlb then 0 else 0x80)
    && d.nextpc == d.pc + 4 && d.expc == c.expc && d.tlb == c.tlb
  }

  /* The processor c asked for this address and is now d, with the physical
     address or not. */
  ghost predicate Translates(c: Cpu, v: word, iswrite: bool, d: Cpu, ok: bool, paddr: word) {
    if Refused(c, v) then !ok && d.entry == c.entry && Entered(c, d, if iswrite then 5 else 4, v, false)
    else if !ThroughTlb(v) then ok && paddr == v % 0x2000_0000 && d == c
    else
      var probed := c.entry.(vpn := v - v % 4096);
      && d.entry == probed
      && (Missed(c.tlb, v, c.entry.pid) ==> !ok && Entered(c, d, if iswrite then 3 else 2, v, v < 0x8000_0000))
      && forall i: nat :: Serves(c.tlb, i, v, c.entry.pid) ==>
           if !c.tlb[i].valid then !ok && Entered(c, d, if iswrite then 3 else 2, v, false)
           else if iswrite && !c.tlb[i].dirty then !ok && Entered(c, d, 1, v, false)
           else ok && paddr == c.tlb[i].pfn - c.tlb[i].pfn % 4096 + v % 4096 && d == c.(entry := probed)
  }

  function PhysOf(x: Xlat): word {
    match x
    case Phys(p) => p
    case Fault(_, _) => 0
  }

  lemma RaiseEnters(c: Cpu, code: nat, utlb: bool, v: word)
    requires utlb ==> code == EX_TLBL || code == EX_TLBS
    requires code != EX_CPU
    ensures Entered(c, Raise(c, code, if utlb then 1 else 0, v), code, v, utlb)
    ensures Raise(c, code, if utlb then 1 else 0, v).entry == c.entry
  {
  }

  lemma ServesFirst(tlb: seq<TlbEntry>, v: word, pid: word)
    ensures var ix := FirstMatch(tlb, PageOf(v), pid, 0);
            && (ix < 0 <==> Missed(tlb, v, pid))
            && forall i: nat :: Serves(tlb, i, v, pid) <==> i == ix
  {
    var ix := FirstMatch(tlb, PageOf(v), pid, 0);
    forall j | 0 <= j < |tlb|
      ensures Fits(tlb[j], v, pid) <==> Matches(tlb[j], PageOf(v), pid)
    {
    }
    if ix >= 0 {
      assert Fits(tlb[ix], v, pid);
    }
  }

  lemma DirectIsLow(v: word)
    requires !Mapped(v)
    ensures Direct(v) == v % 0x2000_0000
  {
  }

  /** Every translation: the address is the one the segment or the first matching
      entry gives, loads and stores alike, and each refusal is the exception the
      architecture names, at its vector, about this address. */
  lemma TranslationMeans(c: Cpu, v: word, iswrite: bool)
    ensures var t := Translated(c, v, iswrite);
            Translates(c, v, iswrite, t.0, t.1, PhysOf(Look(c, v, iswrite)))
  {
    hide FirstMatch, Raise, Entered;
    if Refused(c, v) {
      RaiseEnters(c, if iswrite then EX_ADES else EX_ADEL, false, v);
    } else if ThroughTlb(v) {
      ServesFirst(c.tlb, v, c.entry.pid);
      var p := Probed(c, v);
      var miss := if iswrite then EX_TLBS else EX_TLBL;
      RaiseEnters(p, miss, true, v);
      RaiseEnters(p, miss, false, v);
      RaiseEnters(p, EX_MOD, false, v);
      EnteredFrom(c, p, v);
    } else {
      DirectIsLow(v);
    }
  }

  /* What is left in TLBHI makes no difference to what an exception does. */
  lemma EnteredFrom(c: Cpu, p: Cpu, v: word)
    requires p == c.(entry := p.entry)
    ensures forall d, code, utlb :: Entered(p, d, code, v, utlb) ==> Entered(c, d, code, v, utlb)
  {
  }

  // ------------------------------------------------------------------
  // Physical memory

  /* Where byte o of RAM is: past the boot ROM and the devices, if it would be
     among them or after. */
  function RamAddress(o: nat): nat {
    if o < 0x1fc0_0000 then o else o + 0x40_0000
  }

  /** Every page of RAM is at one physical address and no other; the ROM is at
      0x1fc00000; and nothing is fetched from the devices. */
  lemma RamOnce(p: word, o: word, ramSize: word)
    requires o % PAGE == 0 && o < ramSize <= 0xffc0_0000
    ensures MapMem(p, ramSize) == Ram(o) <==> p - p % 4096 == RamAddress(o)
    ensures MapMem(p, ramSize) == Rom(0) <==> 0x1fc0_0000 <= p < 0x1fc0_1000
    ensures 0x1fc0_1000 <= p < 0x2000_0000 ==> MapMem(p, ramSize) == NoPage
  {
    PageWithin(p, 0x1_fc00);
    PageWithin(p, 0x1_fc01);
    PageWithin(p, 0x1_fe00);
    PageWithin(p, 0x2_0000);
  }

  /** The place that is cached for an address is where its physical address is: the
      page of RAM or ROM it is on, and the offset it has there. */
  lemma PlacesMean(c: Cpu, ramSize: word, v: word)
    requires LocateIn(c, ramSize, v).Place?
    ensures var p, place := PhysOf(Look(c, v, false)), LocateIn(c, ramSize, v);
            && Translated(c, v, false).1 && place.off == p % 4096
            && match place.page
               case Ram(base) => RamAddress(base) + place.off == p && base < ramSize
               case Rom(base) => 0x1fc0_0000 + base + place.off == p && base < 4096
               case NoPage => false
  {
    hide FirstMatch;
    var p := PhysOf(Look(c, v, false));
    PageWithin(p, 0x1_fc00);
    PageWithin(p, 0x1_fe00);
    PageWithin(p, 0x2_0000);
  }

  // ------------------------------------------------------------------
  // The TLB and its registers

  /* TLBLO and TLBHI, as they read. */
  function LoWord(e: TlbEntry): nat {
    e.pfn + (if e.global then 0x100 else 0) + (if e.valid then 0x200 else 0)
    + (if e.dirty then 0x400 else 0) + (if e.nocache then 0x800 else 0)
  }

  function HiWord(e: TlbEntry): nat {
    e.vpn + 64 * e.pid
  }

  /* The bits of a word above the lowest eight. */
  lemma UpperBits(v: word, w: nat)
    requires w == v / 0x100
    ensures v / 0x200 == w / 2 && v / 0x400 == w / 4 && v / 0x800 == w / 8 && v / 0x1000 == w / 16
    ensures v % 0x1000 == 0x100 * (w % 16) + v % 0x100
  {
    DivideTwice(v, 0x100, 2, w, w / 2, v % 0x100);
    DivideTwice(v, 0x100, 4, w, w / 4, v % 0x100);
    DivideTwice(v, 0x100, 8, w, w / 8, v % 0x100);
    DivideTwice(v, 0x100, 16, w, w / 16, v % 0x100);
  }

  /** What is written to TLBLO and TLBHI reads back, without the bits that are not
      there. */
  lemma TlbRegistersReadBack(e: TlbEntry, val: word)
    ensures LoWord(WithTlbLo(e, val)) == val - val % 0x100
    ensures HiWord(WithTlbHi(e, val)) == val - val % 0x40
    ensures HiWord(WithTlbLo(e, val)) == HiWord(e) && LoWord(WithTlbHi(e, val)) == LoWord(e)
  {
    UpperBits(val, val / 0x100);
    FourBits(val / 0x100);
    SpaceBits(val);
  }

  lemma SpaceBits(val: word)
    ensures val % 4096 == 64 * (val / 64 % 64) + val % 64
  {
    DivideTwice(val, 64, 64, val / 64, val / 64 / 64, val % 64);
  }

  lemma TranslatedTlb(c: Cpu, v: word)
    ensures Translated(c, v, false).0.tlb == c.tlb
  {
  }

  lemma BothKeepTlb(c: Cpu, ramSize: word)
    ensures PrecomputedBoth(c, ramSize).tlb == c.tlb
  {
    PrecomputedTlb(c, ramSize);
    PrecomputedNextTlb(Precomputed(c, ramSize).0, ramSize);
  }

  lemma PrecomputedTlb(c: Cpu, ramSize: word)
    ensures Precomputed(c, ramSize).0.tlb == c.tlb
  {
    TranslatedTlb(c, c.pc);
  }

  lemma PrecomputedNextTlb(c: Cpu, ramSize: word)
    ensures PrecomputedNext(c, ramSize).0.tlb == c.tlb
  {
    TranslatedTlb(c, c.nextpc);
  }

  /* TLBHI and TLBLO written, and then the entry. */
  function MappingWritten(c: Cpu, code: (Page, word) -> word, ramSize: word, hi: word, lo: word, ix: nat): Cpu {
    var d := Executed(Executed(c, code, ramSize, MtTlbHi(hi)), code, ramSize, MtTlbLo(lo));
    Executed(d, code, ramSize, TlbWrite(ix))
  }

  lemma MappingStored(c: Cpu, code: (Page, word) -> word, ramSize: word, hi: word, lo: word, ix: nat)
    requires ix < |c.tlb|
    ensures MappingWritten(c, code, ramSize, hi, lo, ix).tlb == c.tlb[ix := WithTlbLo(WithTlbHi(c.entry, hi), lo)]
  {
    hide PrecomputedBoth, WithTlbLo, WithTlbHi;
    var e := WithTlbLo(WithTlbHi(c.entry, hi), lo);
    BothKeepTlb(c.(entry := e, tlb := c.tlb[ix := e]), ramSize);
  }

  /* What the mapping of the page of hi to the page of lo gives in address space `pid`. */
  predicate Gives(x: Xlat, hi: word, lo: word, v: word, pid: word, iswrite: bool) {
    if pid != hi / 64 % 64 && lo / 0x100 % 2 == 0 then x == Fault(if iswrite then 3 else 2, v < 0x8000_0000)
    else if lo / 0x200 % 2 == 0 then x == Fault(if iswrite then 3 else 2, false)
    else if iswrite && lo / 0x400 % 2 == 0 then x == Fault(1, false)
    else x.Phys? && x.paddr == lo - lo % 4096 + v % 4096
  }

  /** A mapping that is written is the mapping that is used: with no other entry for
      the page, an address on the page of hi, in its address space or with the global
      bit in any, goes to the page of lo if the valid bit is set and, for a store, the
      dirty bit; and in any other space it misses. */
  lemma MappingIsUsed(c: Cpu, code: (Page, word) -> word, ramSize: word, hi: word, lo: word, ix: nat,
                      v: word, pid: word, user: bool, iswrite: bool)
    requires ix < |c.tlb| && v % 4 == 0 && v / 4096 == hi / 4096 && ThroughTlb(v) && !(user && v >= 0x8000_0000)
    requires forall j :: 0 <= j < |c.tlb| && j != ix ==> !Fits(c.tlb[j], v, pid)
    ensures Gives(Translate(MappingWritten(c, code, ramSize, hi, lo, ix).tlb, pid, user, v, iswrite),
                  hi, lo, v, pid, iswrite)
  {
    hide FirstMatch, MappingWritten;
    MappingStored(c, code, ramSize, hi, lo, ix);
    var e := WithTlbLo(WithTlbHi(c.entry, hi), lo);
    var tlb := c.tlb[ix := e];
    ServesFirst(tlb, v, pid);
    assert forall j :: 0 <= j < |tlb| && j != ix ==> tlb[j] == c.tlb[j];
    assert Fits(e, v, pid) <==> Serves(tlb, ix, v, pid);
    PageAligned(lo);
  }

  lemma PageAligned(v: word)
    ensures PageOf(PageOf(v)) == PageOf(v)
  {
  }

  /** Out of reset nothing is mapped: every address that goes through the TLB misses. */
  lemma NothingMapped(pid: word, user: bool, v: word, iswrite: bool)
    requires ThroughTlb(v) && v % 4 == 0 && !(user && v >= 0x8000_0000)
    ensures Missed(ResetTlb(), v, pid)
    ensures Translate(ResetTlb(), pid, user, v, iswrite) == Fault(if iswrite then 3 else 2, v < 0x8000_0000)
  {
    hide FirstMatch;
    ServesFirst(ResetTlb(), v, pid);
    PageWithin(v, 0x8_0000);
    PageWithin(v, 0xc_0000);
  }

  // ------------------------------------------------------------------
  // STATUS

  function Bits(m: Mode): nat {
    (if m.irqon then 1 else 0) + (if m.user then 2 else 0)
  }

  /* The low bits of STATUS as they read: three modes, the present one lowest. */
  function ModeBits(s: Status): nat {
    Bits(s.cur) + 4 * Bits(s.prev) + 16 * Bits(s.eldest)
  }

  /** STATUS reads back what was written; an exception shifts its modes up by two
      bits, with zeros coming in, and RFE shifts them down, the eldest staying. */
  lemma StatusShifts(s: Status, val: word)
    ensures ModeBits(StatusFrom(val)) == val % 64
    ensures StatusFrom(val).boot <==> val / 0x40_0000 % 2 == 1
    ensures ModeBits(Pushed(s)) == ModeBits(s) % 16 * 4 && Pushed(s).boot == s.boot
    ensures ModeBits(Popped(s)) == ModeBits(s) / 16 * 16 + ModeBits(s) / 4 && Popped(s).boot == s.boot
  {
    hide ModeBits, StatusFrom, Pushed, Popped;
    StatusReads(val);
    ModesShift(s);
  }

  lemma ModesShift(s: Status)
    ensures ModeBits(Pushed(s)) == ModeBits(s) % 16 * 4 && Pushed(s).boot == s.boot
    ensures ModeBits(Popped(s)) == ModeBits(s) / 16 * 16 + ModeBits(s) / 4 && Popped(s).boot == s.boot
  {
    hide Bits;
    var low := Bits(s.cur) + 4 * Bits(s.prev);
    Small(s.cur);
    Small(s.prev);
    Small(s.eldest);
    Quotient(ModeBits(s), 16, Bits(s.eldest), low);
    Quotient(ModeBits(s), 4, Bits(s.prev) + 4 * Bits(s.eldest), Bits(s.cur));
    assert Bits(KERNEL_OFF) == 0 by { Zeros(); }
  }

  lemma Small(m: Mode)
    ensures Bits(m) < 4
  {
  }

  lemma Zeros()
    ensures Bits(KERNEL_OFF) == 0
  {
  }

  lemma StatusReads(val: word)
    ensures ModeBits(StatusFrom(val)) == val % 64
    ensures StatusFrom(val).boot <==> val / 0x40_0000 % 2 == 1
  {
    hide Bit;
    SixBits(val);
    BitsAre(val);
  }

  lemma BitsAre(val: word)
    ensures Bit(val, 1) == (val % 2 == 1) && Bit(val, 2) == (val / 2 % 2 == 1) && Bit(val, 4) == (val / 4 % 2 == 1)
    ensures Bit(val, 8) == (val / 8 % 2 == 1) && Bit(val, 0x10) == (val / 16 % 2 == 1)
    ensures Bit(val, 0x20) == (val / 32 % 2 == 1) && Bit(val, 0x40_0000) == (val / 0x40_0000 % 2 == 1)
  {
  }

  lemma SixBits(val: word)
    ensures val % 64 == val % 2 + 2 * (val / 2 % 2) + 4 * (val / 4 % 2) + 8 * (val / 8 % 2)
                        + 16 * (val / 16 % 2) + 32 * (val / 32 % 2)
  {
    Halved(val);
    var a, b, c, d, e, f := val / 2, val / 4, val / 8, val / 16, val / 32, val / 64;
    assert val == 2 * a + val % 2 && a == 2 * b + a % 2 && b == 2 * c + b % 2 && c == 2 * d + c % 2;
    assert d == 2 * e + d % 2 && e == 2 * f + e % 2;
  }

  // ------------------------------------------------------------------
  // Where a cycle goes

  function Following(v: word): word {
    (v + 4) % 0x1_0000_0000
  }

  lemma BegunGoes(c: Cpu, irq: bool)
    ensures var b := Begun(c, irq);
            && (!(c.status.cur.irqon && irq) ==>
                  && b.exceptions == c.exceptions && b.status == c.status && b.pc == c.pc && b.nextpc == c.nextpc
                  && b.expc == (if c.jumping then c.expc else c.pc) && !b.jumping
                  && b.tlb == c.tlb && b.entry == c.entry)
            && (c.status.cur.irqon && irq ==> b.exceptions == c.exceptions + 1)
  {
  }

  lemma NextGoes(d: Cpu, ramSize: word)
    ensures var r := PrecomputedNext(d, ramSize);
            && r.0.exceptions == d.exceptions + (if r.1 then 0 else 1)
            && (r.1 ==> r.0 == d.(entry := r.0.entry, nextpcpage := r.0.nextpcpage, nextpcoff := r.0.nextpcoff))
            && (r.1 ==> r.0.entry == d.entry.(vpn := r.0.entry.vpn))
  {
  }

  lemma HereGoes(d: Cpu, ramSize: word)
    ensures var r := Precomputed(d, ramSize);
            && r.0.exceptions == d.exceptions + (if r.1 then 0 else 1)
            && (r.1 ==> r.0 == d.(entry := r.0.entry, pcpage := r.0.pcpage, pcoff := r.0.pcoff))
  {
  }

  lemma BothGo(d: Cpu, ramSize: word)
    ensures var r := PrecomputedBoth(d, ramSize);
            && r.exceptions >= d.exceptions
            && (r.exceptions == d.exceptions ==>
                  && r.pc == d.pc && r.nextpc == d.nextpc && r.jumping == d.jumping && r.status == d.status
                  && r.expc == d.expc && r.tlb == d.tlb)
  {
    hide Precomputed, PrecomputedNext;
    HereGoes(d, ramSize);
    NextGoes(Precomputed(d, ramSize).0, ramSize);
  }

  lemma AdvancedGoes(b: Cpu, ramSize: word, insn: word)
    ensures var a := Advanced(b, ramSize, insn);
            && a.0.exceptions == b.exceptions + (if a.1 then 0 else 1)
            && (a.1 ==> a.0.pc == b.nextpc && a.0.nextpc == Following(b.nextpc) && a.0.expc == b.expc
                        && a.0.jumping == b.jumping && a.0.status == b.status && a.0.tlb == b.tlb)
  {
    hide PrecomputedNext;
    NextGoes(b.(pc := b.nextpc, pcoff := b.nextpcoff, pcpage := b.nextpcpage, nextpc := Next(b.nextpc)), ramSize);
  }

  /* Where an instruction that takes no exception leaves the processor, when a has
     been advanced to the word after it. */
  predicate Goes(a: Cpu, r: Cpu, op: Op) {
    match op
    case Branch(target) =>
      target % 4 == 0 && r.pc == a.pc && r.nextpc == target && r.jumping && r.expc == a.expc && r.status == a.status
    case Stall =>
      r.pc == a.expc && r.nextpc == Following(a.expc) && !r.jumping && r.expc == a.expc && r.status == a.status
    case Rfe =>
      && r.pc == a.pc && r.nextpc == a.nextpc && r.expc == a.pc
      && r.status == Status(a.status.prev, a.status.eldest, a.status.eldest, a.status.boot)
    case MtStatus(val) => r.pc == a.pc && r.nextpc == a.nextpc && r.expc == a.expc && r.status == StatusFrom(val)
    case TlbWrite(ix) =>
      && r.pc == a.pc && r.nextpc == a.nextpc && r.expc == a.expc && r.status == a.status
      && r.tlb == if ix < |a.tlb| then a.tlb[ix := a.entry] else a.tlb
    case TlbRead(ix) =>
      && r.pc == a.pc && r.nextpc == a.nextpc && r.expc == a.expc && r.status == a.status
      && r.entry == if ix < |a.tlb| then a.tlb[ix] else a.entry
    case Trap(_, _) => false
    case _ => r.pc == a.pc && r.nextpc == a.nextpc && r.expc == a.expc && r.status == a.status
  }

  lemma ExecutedGoes(a: Cpu, code: (Page, word) -> word, ramSize: word, op: Op)
    requires Executed(a, code, ramSize, op).exceptions == a.exceptions
    ensures Goes(a, Executed(a, code, ramSize, op), op)
  {
    hide PrecomputedBoth, PrecomputedNext, StatusFrom, Translated;
    match op
    case Stall => BothGo(Restarted(a), ramSize);
    case Branch(target) => NextGoes(a.(nextpc := target, jumping := true), ramSize);
    case Access(v, iswrite, _, _) => AccessGoes(a, v, iswrite);
    case TlbWrite(ix) =>
      if ix < |a.tlb| {
        BothGo(a.(tlb := a.tlb[ix := a.entry]), ramSize);
      }
    case Rfe => BothGo(a.(status := Popped(a.status), inJumpDelay := false, expc := a.pc), ramSize);
    case _ =>
  }

  lemma AccessGoes(a: Cpu, v: word, iswrite: bool)
    ensures var t := Translated(a, v, iswrite);
            && t.0.exceptions == a.exceptions + (if t.1 then 0 else 1)
            && (t.1 ==> t.0 == a.(entry := t.0.entry))
  {
  }

  /** Every cycle that takes no exception: the delay slot of a jump comes before its
      target, a stall starts over where the instruction is, or the jump before it, and
      everything else goes on to the word after next. */
  lemma CycleGoes(c: Cpu, code: (Page, word) -> word, ramSize: word, irq: bool, op: Op)
    requires Cycled(c, code, ramSize, irq, op).exceptions == c.exceptions
    ensures var r := Cycled(c, code, ramSize, irq, op);
            var expc := if c.jumping then c.expc else c.pc;
            && !(c.status.cur.irqon && irq) && !op.Trap?
            && (match op
                case Branch(target) => r.pc == c.nextpc && r.nextpc == target && r.jumping
                case Stall => r.pc == expc && r.nextpc == Following(expc)
                case _ => r.pc == c.nextpc && r.nextpc == Following(c.nextpc))
            && (r.expc == if op.Rfe? then c.nextpc else expc)
            && (r.status == match op
                            case Rfe => Status(c.status.prev, c.status.eldest, c.status.eldest, c.status.boot)
                            case MtStatus(val) => StatusFrom(val)
                            case _ => c.status)
  {
    hide Begun, Advanced, Executed, StatusFrom, Fetched;
    var b := Begun(c, irq);
    var a := Advanced(b, ramSize, Fetched(b, code));
    BegunGoes(c, irq);
    AdvancedGoes(b, ramSize, Fetched(b, code));
    ExecutedCounts(a.0, code, ramSize, op);
    if a.1 && Executed(a.0, code, ramSize, op).exceptions == a.0.exceptions {
      ExecutedGoes(a.0, code, ramSize, op);
    }
  }

  lemma ExecutedCounts(a: Cpu, code: (Page, word) -> word, ramSize: word, op: Op)
    ensures Executed(a, code, ramSize, op).exceptions >= a.exceptions
  {
    hide PrecomputedBoth, PrecomputedNext, StatusFrom, Translated;
    match op
    case Stall => BothGo(Restarted(a), ramSize);
    case Branch(target) => NextGoes(a.(nextpc := target, jumping := true), ramSize);
    case Access(v, iswrite, _, _) => AccessGoes(a, v, iswrite);
    case TlbWrite(ix) =>
      if ix < |a.tlb| {
        BothGo(a.(tlb := a.tlb[ix := a.entry]), ramSize);
      }
    case Rfe => BothGo(a.(status := Popped(a.status), inJumpDelay := false, expc := a.pc), ramSize);
    case _ =>
  }

  // ------------------------------------------------------------------
  // What exceptions there are

  /** The other exceptions, by code: an interrupt, taken exactly if one is there and
      interrupts are on; a misaligned jump, about its target; a bus error on data; a
      bus error on an instruction that translates but has no memory; and traps. */
  lemma ExceptionsMean(c: Cpu, code: (Page, word) -> word, ramSize: word, irq: bool, op: Op)
    ensures var d := if c.jumping then c.(jumping := false, inJumpDelay := true) else c.(expc := c.pc);
            var b := Begun(c, irq);
            if c.status.cur.irqon && irq then Entered(d, b.(expc := d.expc), 0, 0, false) && b.expc == b.pc
            else b == d
    ensures op.Branch? && op.target % 4 != 0 ==> Entered(c, Executed(c, code, ramSize, op), 4, op.target, false)
    ensures op.Access? && op.busError && Translated(c, op.vaddr, op.iswrite).1 ==>
              Entered(Translated(c, op.vaddr, op.iswrite).0, Executed(c, code, ramSize, op), 7, 0, false)
    ensures op.Trap? && op.code !in {2, 3, 11} ==> Entered(c, Executed(c, code, ramSize, op), op.code, 0, false)
    ensures op.Trap? && op.code == 11 ==> Executed(c, code, ramSize, op).report.ce == op.cn
    ensures Translated(c, c.pc, false).1 && !Precomputed(c, ramSize).1 ==>
              Entered(Translated(c, c.pc, false).0, Precomputed(c, ramSize).0, 6, 0, false)
    ensures Translated(c, c.nextpc, false).1 && !PrecomputedNext(c, ramSize).1 ==>
              Entered(Translated(c, c.nextpc, false).0, PrecomputedNext(c, ramSize).0, 6, 0, false)
  {
    hide Translated, Entered, Raise, Look, Probed;
    var d := if c.jumping then c.(jumping := false, inJumpDelay := true) else c.(expc := c.pc);
    RaiseEnters(d, EX_IRQ, false, 0);
    InterruptEntered(c, d, irq);
    if op.Branch? {
      RaiseEnters(c, EX_ADEL, false, op.target);
    }
    if op.Access? {
      RaiseEnters(Translated(c, op.vaddr, op.iswrite).0, EX_DBE, false, 0);
    }
    if op.Trap? && op.code !in {2, 3, 11} {
      TrapEnters(c, op.code, op.cn);
    }
    if op.Trap? && op.code == 11 {
      TrapNames(c, op.cn);
    }
    RaiseEnters(Translated(c, c.pc, false).0, EX_IBE, false, 0);
    RaiseEnters(Translated(c, c.nextpc, false).0, EX_IBE, false, 0);
  }

  lemma InterruptEntered(c: Cpu, d: Cpu, irq: bool)
    requires d == if c.jumping then c.(jumping := false, inJumpDelay := true) else c.(expc := c.pc)
    ensures var b := Begun(c, irq);
            if c.status.cur.irqon && irq then Entered(d, b.(expc := d.expc), 0, 0, false) && b.expc == b.pc else b == d
  {
  }

  lemma TrapEnters(c: Cpu, ex: nat, cn: nat)
    requires ex !in {2, 3, 11}
    ensures Entered(c, Raise(c, ex, cn, 0), ex, 0, false)
  {
  }

  lemma TrapNames(c: Cpu, cn: nat)
    ensures Raise(c, EX_CPU, cn, 0).report.ce == cn
  {
  }
}
