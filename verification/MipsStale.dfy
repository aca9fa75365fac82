/**
 Runs from reset that change address space under mapped code. After one program
 a TLBHI write or a TLBR leaves the cached places stale; after the same program
 with a global mapping the same instructions are harmless.
 */
module MipsStale {
  import opened Words
  import opened MipsMmu
  import opened MipsState
  import opened MipsPcCache

  /* What the code is does not matter, as long as none of it is an RFE. */
  function NoRfe(page: Page, off: word): word {
    0
  }

  const HIGH: word := 0xc000_0000
  const BOOT: word := 0xbfc0_0000

  /* Straight-line code in the boot ROM, k instructions in. */
  function Booting(k: nat, expc: word, entry: TlbEntry, tlb: seq<TlbEntry>): Cpu
    requires k < 16
  {
    Reset().(pc := BOOT + 4 * k, nextpc := BOOT + 4 * k + 4, expc := expc,
             pcpage := Rom(0), pcoff := 4 * k, nextpcpage := Rom(0), nextpcoff := 4 * k + 4,
             entry := entry, tlb := tlb)
  }

  lemma RomPlace(c: Cpu, ramSize: word, off: word)
    requires off < 0x100 && off % 4 == 0 && !c.status.cur.user
    ensures LocateIn(c, ramSize, BOOT + off) == Place(Rom(0), off) && Probed(c, BOOT + off) == c
  {
  }

  lemma ResetBoots(ramSize: word)
    ensures PrecomputedBoth(Reset(), ramSize) == Booting(0, 0, ResetEntry(NTLB), ResetTlb())
  {
    RomPlace(Reset(), ramSize, 0);
    RomPlace(Precomputed(Reset(), ramSize).0, ramSize, 4);
  }

  /* The fetch there, and the step to the next instruction. */
  lemma BootAdvances(k: nat, expc: word, entry: TlbEntry, tlb: seq<TlbEntry>, ramSize: word)
    requires k < 8
    ensures var b := Begun(Booting(k, expc, entry, tlb), false);
            && Fetched(b, NoRfe) == 0 && !b.status.cur.user
            && Advanced(b, ramSize, 0) == (Booting(k + 1, BOOT + 4 * k, entry, tlb), true)
  {
    hide PrecomputedNext;
  }

  /* Looking both places up again changes nothing. */
  lemma BootLookup(k: nat, expc: word, entry: TlbEntry, tlb: seq<TlbEntry>, ramSize: word)
    requires k < 9
    ensures PrecomputedBoth(Booting(k, expc, entry, tlb), ramSize) == Booting(k, expc, entry, tlb)
  {
    hide LocateIn, Probed;
    RomPlace(Booting(k, expc, entry, tlb), ramSize, 4 * k);
    RomPlace(Booting(k, expc, entry, tlb), ramSize, 4 * k + 4);
  }

  /* One register write there. */
  lemma BootRegister(k: nat, expc: word, entry: TlbEntry, tlb: seq<TlbEntry>, ramSize: word, op: Op)
    requires k < 8 && |tlb| == NTLB && (op.MtTlbHi? || op.MtTlbLo?)
    ensures var e := if op.MtTlbHi? then WithTlbHi(entry, op.val) else WithTlbLo(entry, op.val);
            && LegalCycle(Booting(k, expc, entry, tlb), NoRfe, ramSize, false, op)
            && Cycled(Booting(k, expc, entry, tlb), NoRfe, ramSize, false, op) == Booting(k + 1, BOOT + 4 * k, e, tlb)
  {
    hide Begun, Advanced, WithTlbHi, WithTlbLo, FirstMatch;
    BootAdvances(k, expc, entry, tlb, ramSize);
  }

  /* One TLB write. */
  lemma BootTlbWrite(k: nat, expc: word, entry: TlbEntry, tlb: seq<TlbEntry>, ramSize: word, ix: nat)
    requires k < 8 && |tlb| == NTLB && ix < NTLB
    ensures LegalCycle(Booting(k, expc, entry, tlb), NoRfe, ramSize, false, TlbWrite(ix))
    ensures Cycled(Booting(k, expc, entry, tlb), NoRfe, ramSize, false, TlbWrite(ix))
         == Booting(k + 1, BOOT + 4 * k, entry, tlb[ix := entry])
  {
    hide Begun, Advanced, PrecomputedBoth;
    BootAdvances(k, expc, entry, tlb, ramSize);
    BootLookup(k + 1, BOOT + 4 * k, entry, tlb[ix := entry], ramSize);
    BootBegins(k, expc, entry, tlb);
  }

  lemma BootBegins(k: nat, expc: word, entry: TlbEntry, tlb: seq<TlbEntry>)
    requires k < 8
    ensures Begun(Booting(k, expc, entry, tlb), false).tlb == tlb
  {
  }

  /* The TLB words: a valid mapping of physical page 0, global or not. */
  function Lo(global: bool): word {
    if global then 0x300 else 0x200
  }

  const OTHER: word := 0x1040    // some page, in address space 1

  function OtherEntry(): TlbEntry {
    WithTlbHi(ResetEntry(NTLB), OTHER)
  }

  function HighEntry(global: bool): TlbEntry {
    WithTlbLo(WithTlbHi(OtherEntry(), HIGH), Lo(global))
  }

  function Tlb(global: bool): (t: seq<TlbEntry>)
    ensures |t| == NTLB
  {
    ResetTlb()[1 := OtherEntry()][0 := HighEntry(global)]
  }

  lemma HighEntryIs(global: bool)
    ensures HighEntry(global) == TlbEntry(global, true, false, false, 0, HIGH, 0)
    ensures OtherEntry().vpn == 0x1000 && OtherEntry().pid == 1
  {
  }

  lemma OnlyEntryZero(global: bool, pid: word)
    ensures FirstMatch(Tlb(global), HIGH, pid, 0) == if global || pid == 0 then 0 else -1
  {
    HighEntryIs(global);
    assert Matches(Tlb(global)[0], HIGH, pid) <==> global || pid == 0;
    assert forall i :: 1 < i < NTLB ==> Tlb(global)[i] == ResetEntry(i);
    assert forall i :: 0 < i < NTLB ==> !Matches(Tlb(global)[i], HIGH, pid);
  }

  lemma HighPlace(c: Cpu, ramSize: word, global: bool, off: word)
    requires ramSize > 0 && off < 0x100 && off % 4 == 0 && !c.status.cur.user
    requires c.tlb == Tlb(global) && c.entry.pid == 0 && c.entry.vpn == HIGH
    ensures LocateIn(c, ramSize, HIGH + off) == Place(Ram(0), off) && Probed(c, HIGH + off) == c
  {
    hide FirstMatch;
    HighEntryIs(global);
    OnlyEntryZero(global, 0);
    assert PageOf(HIGH + off) == HIGH;
  }

  /* Fill the TLB, jump to the mapped page, and run the delay slot. */
  function Program(global: bool): seq<Step> {
    [Step(false, MtTlbHi(OTHER)), Step(false, TlbWrite(1)), Step(false, MtTlbHi(HIGH)),
     Step(false, MtTlbLo(Lo(global))), Step(false, TlbWrite(0)), Step(false, Branch(HIGH)), Step(false, Plain)]
  }

  function Jumping(global: bool): Cpu {
    Reset().(pc := BOOT + 24, nextpc := HIGH, expc := BOOT + 20, pcpage := Rom(0), pcoff := 24,
             nextpcpage := Ram(0), nextpcoff := 0, jumping := true, entry := HighEntry(global), tlb := Tlb(global))
  }

  function RunningHigh(global: bool): Cpu {
    Reset().(pc := HIGH, nextpc := HIGH + 4, expc := BOOT + 20, pcpage := Ram(0), pcoff := 0,
             nextpcpage := Ram(0), nextpcoff := 4, entry := HighEntry(global), tlb := Tlb(global))
  }

  lemma JumpCycle(ramSize: word, global: bool)
    requires ramSize > 0
    ensures var c := Booting(5, BOOT + 16, HighEntry(global), Tlb(global));
            && LegalCycle(c, NoRfe, ramSize, false, Branch(HIGH))
            && Cycled(c, NoRfe, ramSize, false, Branch(HIGH)) == Jumping(global)
  {
    hide LocateIn, Probed, HighEntry, Tlb;
    HighEntryIs(global);
    var d := Booting(6, BOOT + 20, HighEntry(global), Tlb(global)).(nextpc := HIGH, jumping := true);
    HighPlace(d, ramSize, global, 0);
  }

  lemma SlotCycle(ramSize: word, global: bool)
    requires ramSize > 0
    ensures LegalCycle(Jumping(global), NoRfe, ramSize, false, Plain)
    ensures Cycled(Jumping(global), NoRfe, ramSize, false, Plain) == RunningHigh(global)
  {
    hide LocateIn, Probed, HighEntry, Tlb;
  }

  lemma OneStep(c: Cpu, ramSize: word, steps: seq<Step>, next: Cpu, rest: seq<Step>)
    requires steps != [] && rest == steps[1..]
    requires LegalCycle(c, NoRfe, ramSize, steps[0].irq, steps[0].op)
    requires next == Cycled(c, NoRfe, ramSize, steps[0].irq, steps[0].op)
    requires LegalRun(next, NoRfe, ramSize, rest)
    ensures LegalRun(c, NoRfe, ramSize, steps)
    ensures Ran(c, NoRfe, ramSize, steps) == Ran(next, NoRfe, ramSize, rest)
  {
    hide LegalCycle, Cycled;
  }

  /** The program runs from reset, in step, to mapped code. */
  lemma ProgramRuns(ramSize: word, global: bool)
    requires ramSize > 0
    ensures var c := PrecomputedBoth(Reset(), ramSize);
            && LegalRun(c, NoRfe, ramSize, Program(global))
            && Ran(c, NoRfe, ramSize, Program(global)) == RunningHigh(global)
  {
    hide LegalCycle, Cycled, Booting, LegalRun, Ran, PrecomputedBoth, WithTlbHi, WithTlbLo;
    var p := Program(global);
    var t1, e1 := ResetTlb(), OtherEntry();
    var t2, e2 := t1[1 := e1], WithTlbHi(e1, HIGH);
    ResetBoots(ramSize);
    BootRegister(0, 0, ResetEntry(NTLB), t1, ramSize, MtTlbHi(OTHER));
    BootTlbWrite(1, BOOT, e1, t1, ramSize, 1);
    BootRegister(2, BOOT + 4, e1, t2, ramSize, MtTlbHi(HIGH));
    BootRegister(3, BOOT + 8, e2, t2, ramSize, MtTlbLo(Lo(global)));
    BootTlbWrite(4, BOOT + 12, HighEntry(global), t2, ramSize, 0);
    JumpCycle(ramSize, global);
    SlotCycle(ramSize, global);
    NoMore(RunningHigh(global), ramSize);
    var s5, s6 := Booting(5, BOOT + 16, HighEntry(global), Tlb(global)), Jumping(global);
    var s4, s3 := Booting(4, BOOT + 12, HighEntry(global), t2), Booting(3, BOOT + 8, e2, t2);
    var s2, s1, s0 := Booting(2, BOOT + 4, e1, t2), Booting(1, BOOT, e1, t1), Booting(0, 0, ResetEntry(NTLB), t1);
    OneStep(s6, ramSize, p[6..], RunningHigh(global), []);
    OneStep(s5, ramSize, p[5..], s6, p[6..]);
    OneStep(s4, ramSize, p[4..], s5, p[5..]);
    OneStep(s3, ramSize, p[3..], s4, p[4..]);
    OneStep(s2, ramSize, p[2..], s3, p[3..]);
    OneStep(s1, ramSize, p[1..], s2, p[2..]);
    OneStep(s0, ramSize, p, s1, p[1..]);
  }

  lemma NoMore(c: Cpu, ramSize: word)
    ensures LegalRun(c, NoRfe, ramSize, []) && Ran(c, NoRfe, ramSize, []) == c
  {
  }

  /** The next instruction takes the processor to address space 1, by MTC0 to
      TLBHI or by TLBR. Afterwards the cached places are right exactly if the
      page is mapped globally. */
  lemma SwitchUnderMappedCode(ramSize: word, global: bool, op: Op)
    requires ramSize > 0 && (op == MtTlbHi(HIGH + 0x40) || op == TlbRead(1))
    ensures var c := Ran(PrecomputedBoth(Reset(), ramSize), NoRfe, ramSize, Program(global));
            && InStep(c, NoRfe, ramSize)
            && Decodes(Begun(c, false), Fetched(Begun(c, false), NoRfe), op)
            && (InStep(Cycled(c, NoRfe, ramSize, false, op), NoRfe, ramSize) <==> global)
  {
    hide InStep, Cycled, PrecomputedBoth, Ran, LegalRun;
    ProgramRuns(ramSize, global);
    ResetInStep(NoRfe, ramSize);
    RunInStep(PrecomputedBoth(Reset(), ramSize), NoRfe, ramSize, Program(global));
    CycleExact(RunningHigh(global), NoRfe, ramSize, false, op);
    SwitchLegal(ramSize, global, op);
  }

  lemma SwitchLegal(ramSize: word, global: bool, op: Op)
    requires ramSize > 0 && (op == MtTlbHi(HIGH + 0x40) || op == TlbRead(1))
    ensures LegalCycle(RunningHigh(global), NoRfe, ramSize, false, op) <==> global
  {
    hide FirstMatch;
    HighEntryIs(global);
    OnlyEntryZero(global, 1);
    assert PageOf(HIGH + 4) == HIGH && PageOf(HIGH + 8) == HIGH;
  }

  /** The first instruction out of reset writes STATUS. Afterwards the cached places
      are right exactly if the processor is still in kernel mode: in user mode the
      boot ROM it runs on in is out of bounds. */
  lemma StatusUnderBootRom(ramSize: word, val: word)
    requires ramSize > 0
    ensures var c := PrecomputedBoth(Reset(), ramSize);
            && InStep(c, NoRfe, ramSize)
            && Decodes(Begun(c, false), Fetched(Begun(c, false), NoRfe), MtStatus(val))
            && (InStep(Cycled(c, NoRfe, ramSize, false, MtStatus(val)), NoRfe, ramSize) <==> !Bit(val, 2))
  {
    hide InStep, Cycled, PrecomputedBoth, Bit;
    ResetInStep(NoRfe, ramSize);
    ResetBoots(ramSize);
    CycleExact(PrecomputedBoth(Reset(), ramSize), NoRfe, ramSize, false, MtStatus(val));
  }
}
