/**
 The MIPS-161 memory map: the hardwired segments, the software-managed TLB,
 and the physical pages instructions can be fetched from.

 Everything here reads the processor and changes nothing; MipsCpu holds the
 code that does.
 */
module MipsMmu {
  import opened Words

  const NTLB: nat := 64
  const ROM_BYTES: word := 4096

  /* Exception codes (mips-ex.h). */
  const EX_IRQ: nat := 0
  const EX_MOD: nat := 1
  const EX_TLBL: nat := 2
  const EX_TLBS: nat := 3
  const EX_ADEL: nat := 4
  const EX_ADES: nat := 5
  const EX_IBE: nat := 6
  const EX_DBE: nat := 7
  const EX_CPU: nat := 11

  datatype TlbEntry = TlbEntry(global: bool, valid: bool, dirty: bool, nocache: bool,
                               pfn: word, vpn: word, pid: word)

  /* A page pointer as kept for instruction fetch: nothing, or the start of a
     page of RAM or of the boot ROM. */
  datatype Page = NoPage | Ram(base: word) | Rom(base: word)

  /* What translating one address comes to. */
  datatype Xlat = Phys(paddr: word) | Fault(code: nat, utlb: bool)

  function ResetEntry(index: nat): TlbEntry
    requires index <= NTLB
  {
    TlbEntry(false, false, false, false, 0, 0x8100_0000 + index * PAGE, 0)
  }

  predicate Matches(e: TlbEntry, vpage: word, pid: word) {
    e.vpn == vpage && (e.pid == pid || e.global)
  }

  /* The first entry from `from` on that matches, or -1. */
  function FirstMatch(tlb: seq<TlbEntry>, vpage: word, pid: word, from: nat): (r: int)
    requires from <= |tlb|
    ensures -1 <= r < |tlb|
    ensures r >= 0 ==> from <= r && Matches(tlb[r], vpage, pid)
                       && forall j :: from <= j < r ==> !Matches(tlb[j], vpage, pid)
    ensures r < 0 ==> forall j :: from <= j < |tlb| ==> !Matches(tlb[j], vpage, pid)
    decreases |tlb| - from
  {
    if from == |tlb| then -1
    else if Matches(tlb[from], vpage, pid) then from
    else FirstMatch(tlb, vpage, pid, from + 1)
  }

  function Translate(tlb: seq<TlbEntry>, pid: word, user: bool, vaddr: word, iswrite: bool): Xlat {
    if (vaddr >= 0x8000_0000 && user) || vaddr % 4 != 0 then
      Fault(if iswrite then EX_ADES else EX_ADEL, false)
    else if !Mapped(vaddr) then
      Phys(Direct(vaddr))
    else
      var ix := FirstMatch(tlb, PageOf(vaddr), pid, 0);
      if ix < 0 then Fault(if iswrite then EX_TLBS else EX_TLBL, vaddr < 0x8000_0000)
      else if !tlb[ix].valid then Fault(if iswrite then EX_TLBS else EX_TLBL, false)
      else if iswrite && !tlb[ix].dirty then Fault(EX_MOD, false)
      else Phys(Join(tlb[ix].pfn, vaddr % PAGE))
  }

  /* Does translating this address go through the TLB, and so disturb TLBHI? */
  predicate Mapped(vaddr: word) {
    !(0x8000_0000 <= vaddr < 0xc000_0000)
  }

  /* The direct-mapped segments kseg0 and kseg1 keep the low 29 bits. */
  function Direct(vaddr: word): word
    requires !Mapped(vaddr)
  {
    if vaddr < 0xa000_0000 then vaddr - 0x8000_0000 else vaddr - 0xa000_0000
  }

  /* A page frame or-ed with an offset into the page; the frame has no bits
     below the page size. */
  function Join(pfn: word, off: word): word
    requires off < PAGE
  {
    PageOf(pfn) + off
  }

  function RamPage(offset: word, ramSize: word): Page {
    if offset >= ramSize then NoPage else Ram(offset)
  }

  function MapMem(paddr: word, ramSize: word): Page {
    var p := PageOf(paddr);
    if p < 0x1fc0_0000 then RamPage(p, ramSize)
    else if p < 0x1fe0_0000 then
      if p - 0x1fc0_0000 >= ROM_BYTES then NoPage else Rom(p - 0x1fc0_0000)
    else if p < 0x2000_0000 then NoPage
    else RamPage(p - 0x0040_0000, ramSize)
  }

  /* The page and page offset an instruction fetch from `vaddr` uses when
     nothing is cached, if there is one. */
  datatype Place = Nowhere | Place(page: Page, off: word)

  function Locate(tlb: seq<TlbEntry>, pid: word, user: bool, ramSize: word, vaddr: word): Place {
    match Translate(tlb, pid, user, vaddr, false)
    case Fault(_, _) => Nowhere
    case Phys(p) =>
      if MapMem(p, ramSize).NoPage? then Nowhere else Place(MapMem(p, ramSize), p % PAGE)
  }

  predicate AlignedEntry(e: TlbEntry) {
    e.pfn % PAGE == 0 && e.vpn % PAGE == 0
  }

  ghost predicate AlignedTlb(tlb: seq<TlbEntry>) {
    |tlb| == NTLB && forall i :: 0 <= i < NTLB ==> AlignedEntry(tlb[i])
  }

  // ------------------------------------------------------------------
  // Stepping within a page

  lemma SamePage(v: word)
    requires v % 4 == 0 && v + 4 < TWO_32 && (v + 4) % PAGE != 0
    ensures (v + 4) % 4 == 0
    ensures (v + 4) % PAGE == v % PAGE + 4
    ensures PageOf(v + 4) == PageOf(v)
  {
  }

  /* A boundary at a multiple of the page size is not crossed within a page. */
  lemma SameSide(v: word, k: nat)
    requires v % 4 == 0 && v + 4 < TWO_32 && (v + 4) % PAGE != 0
    ensures v < k * PAGE <==> v + 4 < k * PAGE
  {
    SamePage(v);
    var q := v / PAGE;
    assert v == PAGE * q + v % PAGE && v + 4 < PAGE * q + PAGE;
    if q < k { assert PAGE * (q + 1) <= PAGE * k; } else { assert PAGE * k <= PAGE * q; }
  }

  lemma SameSegment(v: word)
    requires v % 4 == 0 && v + 4 < TWO_32 && (v + 4) % PAGE != 0
    ensures Mapped(v + 4) <==> Mapped(v)
    ensures v + 4 >= 0x8000_0000 <==> v >= 0x8000_0000
  {
    SameSide(v, 0x8_0000);
    SameSide(v, 0xc_0000);
  }

  lemma SameDirectPage(v: word)
    requires v % 4 == 0 && v + 4 < TWO_32 && (v + 4) % PAGE != 0
    requires !Mapped(v)
    ensures !Mapped(v + 4) && Direct(v + 4) == Direct(v) + 4
    ensures Direct(v) % PAGE == v % PAGE
  {
    SameSide(v, 0xa_0000);
    SameSegment(v);
    assert v % PAGE == (v - 0x8_0000 * PAGE) % PAGE == (v - 0xa_0000 * PAGE) % PAGE;
  }

  lemma MapMemByPage(p: word, q: word, ramSize: word)
    requires PageOf(p) == PageOf(q)
    ensures MapMem(p, ramSize) == MapMem(q, ramSize)
  {
  }

  lemma TranslateNextWord(tlb: seq<TlbEntry>, pid: word, user: bool, v: word)
    requires AlignedTlb(tlb)
    requires v + 4 < TWO_32 && (v + 4) % PAGE != 0
    requires Translate(tlb, pid, user, v, false).Phys?
    ensures var p := Translate(tlb, pid, user, v, false).paddr;
            p % PAGE == v % PAGE && p + 4 < TWO_32
            && Translate(tlb, pid, user, v + 4, false) == Phys(p + 4)
  {
    SamePage(v);
    SameSegment(v);
    if !Mapped(v) {
      SameDirectPage(v);
    }
  }

  /** Fetching from the next word of the same page uses the same page pointer
      and an offset four higher: why the fetch loop may step the cached offset
      instead of translating again. */
  lemma LocateNextWord(tlb: seq<TlbEntry>, pid: word, user: bool, ramSize: word, v: word)
    requires AlignedTlb(tlb)
    requires v + 4 < TWO_32 && (v + 4) % PAGE != 0
    requires Locate(tlb, pid, user, ramSize, v).Place?
    ensures Locate(tlb, pid, user, ramSize, v + 4)
         == Place(Locate(tlb, pid, user, ramSize, v).page, Locate(tlb, pid, user, ramSize, v).off + 4)
  {
    var p := Translate(tlb, pid, user, v, false).paddr;
    TranslateNextWord(tlb, pid, user, v);
    SamePage(v);
    assert (p + 4) % PAGE == p % PAGE + 4;
    MapMemByPage(p, p + 4, ramSize);
  }

  // ------------------------------------------------------------------
  // At most one translation per page and address space

  predicate CouldBothMatch(a: TlbEntry, b: TlbEntry) {
    a.vpn == b.vpn && (a.global || b.global || a.pid == b.pid)
  }

  ghost predicate Unambiguous(tlb: seq<TlbEntry>) {
    forall i, j :: 0 <= i < j < |tlb| ==> !CouldBothMatch(tlb[i], tlb[j])
  }

  /* check_tlb_dups: the first other entry that clashes with entry `newix`,
     or -1. Finding one stops the machine. */
  method CheckTlbDups(tlb: array<TlbEntry>, newix: nat) returns (dup: int)
    requires newix < tlb.Length
    ensures -1 <= dup < tlb.Length
    ensures dup >= 0 ==> dup != newix && CouldBothMatch(tlb[newix], tlb[dup])
    ensures dup < 0 <==> forall i :: 0 <= i < tlb.Length && i != newix ==> !CouldBothMatch(tlb[newix], tlb[i])
  {
    var i := 0;
    while i < tlb.Length
      invariant i <= tlb.Length
      invariant forall j :: 0 <= j < i && j != newix ==> !CouldBothMatch(tlb[newix], tlb[j])
    {
      if i != newix && tlb[newix].vpn == tlb[i].vpn
         && (tlb[newix].global || tlb[i].global || tlb[newix].pid == tlb[i].pid) {
        return i;
      }
      i := i + 1;
    }
    return -1;
  }

  /* A sequence of TLB writes, each at an index. */
  datatype Write = Write(ix: nat, entry: TlbEntry)

  /* Nothing clashes with the entry just written: CheckTlbDups returns -1. */
  predicate Clean(tlb: seq<TlbEntry>, ix: nat)
    requires ix < |tlb|
  {
    forall i :: 0 <= i < |tlb| && i != ix ==> !CouldBothMatch(tlb[ix], tlb[i])
  }

  function ResetTlb(): (tlb: seq<TlbEntry>)
    ensures |tlb| == NTLB
  {
    seq(NTLB, i requires 0 <= i < NTLB => ResetEntry(i))
  }

  /* The TLB after the writes, if the machine is still running: a clash stops it. */
  function WriteAll(tlb: seq<TlbEntry>, ws: seq<Write>): (r: (bool, seq<TlbEntry>))
    requires |tlb| == NTLB
    requires forall k :: 0 <= k < |ws| ==> ws[k].ix < NTLB
    decreases |ws|
  {
    if ws == [] then (true, tlb)
    else
      var next := tlb[ws[0].ix := ws[0].entry];
      if Clean(next, ws[0].ix) then WriteAll(next, ws[1..]) else (false, next)
  }

  lemma ResetUnambiguous()
    ensures Unambiguous(ResetTlb())
  {
  }

  /** Starting from reset, while the clash check reports nothing no page of any
      address space can match two entries: the first match is the only match. */
  lemma {:induction false} WritesStayUnambiguous(tlb: seq<TlbEntry>, ws: seq<Write>)
    requires |tlb| == NTLB && Unambiguous(tlb)
    requires forall k :: 0 <= k < |ws| ==> ws[k].ix < NTLB
    requires WriteAll(tlb, ws).0
    ensures |WriteAll(tlb, ws).1| == NTLB && Unambiguous(WriteAll(tlb, ws).1)
    decreases |ws|
  {
    if ws != [] {
      WritesStayUnambiguous(tlb[ws[0].ix := ws[0].entry], ws[1..]);
    }
  }

  lemma AtMostOneMatch(tlb: seq<TlbEntry>, i: nat, j: nat, vpage: word, pid: word)
    requires Unambiguous(tlb) && i < |tlb| && j < |tlb|
    requires Matches(tlb[i], vpage, pid) && Matches(tlb[j], vpage, pid)
    ensures i == j
  {
    if i != j {
      assert CouldBothMatch(tlb[i], tlb[j]) && CouldBothMatch(tlb[j], tlb[i]);
    }
  }

  lemma OnlyMatch(ws: seq<Write>, vpage: word, pid: word)
    requires forall k :: 0 <= k < |ws| ==> ws[k].ix < NTLB
    requires WriteAll(ResetTlb(), ws).0
    ensures var tlb := WriteAll(ResetTlb(), ws).1;
            |tlb| == NTLB
            && forall i :: 0 <= i < NTLB ==> (Matches(tlb[i], vpage, pid) <==> i == FirstMatch(tlb, vpage, pid, 0))
  {
    ResetUnambiguous();
    WritesStayUnambiguous(ResetTlb(), ws);
    var tlb := WriteAll(ResetTlb(), ws).1;
    var first := FirstMatch(tlb, vpage, pid, 0);
    forall i | 0 <= i < NTLB && Matches(tlb[i], vpage, pid)
      ensures i == first
    {
      AtMostOneMatch(tlb, first, i, vpage, pid);
    }
  }

  /* Two entries that would both translate one page of one address space. */
  ghost predicate Ambiguous(tlb: seq<TlbEntry>, vpage: word, pid: word) {
    exists i, j :: 0 <= i < j < |tlb| && Matches(tlb[i], vpage, pid) && Matches(tlb[j], vpage, pid)
  }

  /** The check misses nothing and never cries wolf: in a TLB that was
      unambiguous, a write is reported exactly when it leaves some page of some
      address space with two translations. */
  lemma ReportedExactlyWhenAmbiguous(tlb: seq<TlbEntry>, ix: nat, e: TlbEntry, next: seq<TlbEntry>)
    requires |tlb| == NTLB && Unambiguous(tlb) && ix < NTLB && next == tlb[ix := e]
    ensures !Clean(next, ix) <==> exists vpage, pid :: Ambiguous(next, vpage, pid)
  {
    if !Clean(next, ix) {
      var k :| 0 <= k < NTLB && k != ix && CouldBothMatch(next[ix], next[k]);
      var pid := if next[ix].global then next[k].pid else next[ix].pid;
      assert Matches(next[ix], next[ix].vpn, pid) && Matches(next[k], next[ix].vpn, pid);
      assert Ambiguous(next, next[ix].vpn, pid);
    }
    assert forall i, j :: 0 <= i < j < NTLB && i != ix && j != ix ==> !CouldBothMatch(next[i], next[j]);
    if vpage, pid :| Ambiguous(next, vpage, pid) {
      var i: nat, j: nat :| i < j < NTLB && Matches(next[i], vpage, pid) && Matches(next[j], vpage, pid);
      assert CouldBothMatch(next[i], next[j]);
      assert CouldBothMatch(next[ix], next[if i == ix then j else i]);
    }
  }
}
