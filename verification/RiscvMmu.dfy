/**
 RISC-V address translation: the two-level Sv32 walk of section 4.3 of the
 RISC-V Instruction Set Manual, Volume II, and the one-entry cache in front
 of it.
 */
module RiscvMmu {
  import opened Words

  datatype Access = Read | Write | Execute

  /* A read of physical memory. */
  datatype Cell = Data(val: word) | BusError

  /* A page table entry. `upper` is set if the page number has bits above the
     32-bit physical addresses that are supported. */
  datatype Pte = Pte(v: bool, r: bool, w: bool, x: bool, u: bool, a: bool, d: bool, upper: bool, frame: word)

  datatype Outcome = Phys(paddr: word) | PageFault | AccessFault

  const INVALID_VPAGE: word := 0xffff_ffff

  datatype Cache = Cache(vpage: word, ppage: word, readable: bool, writeable: bool, executable: bool)

  const RAM_BASE: word := 0xc000_0000
  const ROM_BASE: word := 0xffc0_0000
  const BUS_BASE: word := 0xffe0_0000

  predicate Bit(w: word, n: nat)
    requires n > 0
  {
    w / n % 2 == 1
  }

  function Decoded(w: word): Pte {
    Pte(Bit(w, 1), Bit(w, 2), Bit(w, 4), Bit(w, 8), Bit(w, 0x10), Bit(w, 0x40), Bit(w, 0x80),
        w / 0x4000_0000 != 0, w / 0x400 % 0x10_0000 * PAGE)
  }

  predicate Leaf(p: Pte) {
    p.r || p.w || p.x
  }

  predicate Permits(p: Pte, rwx: Access) {
    match rwx
    case Read => p.r
    case Write => p.w
    case Execute => p.x
  }

  /* Supervisor code never runs user pages and reaches them only with SUM set;
     user code reaches nothing else. */
  predicate Privileged(user: bool, super: bool, sum: bool, rwx: Access) {
    if super && user then !rwx.Execute? && sum else super || user
  }

  /* The physical page instructions or page tables can be read from directly. */
  predicate MapMem(paddr: word, ramSize: word, romSize: word) {
    var p := PageOf(paddr);
    if p < RAM_BASE then false
    else if p < ROM_BASE then p - RAM_BASE < ramSize
    else if p < BUS_BASE then p - ROM_BASE < romSize
    else false
  }

  /* Where a walk has got to: a leaf, or a fault. */
  datatype Leaves = Entry(pte: Pte, super: bool) | NotFound(access: bool)

  /* The two lookups. `top` is the page of the root table, if it is mapped. */
  function Lookup(mem: word -> Cell, top: Top, vaddr: word): Leaves {
    match top
    case Unmapped => NotFound(true)
    case Table(base) =>
      match EntryAt(mem, base, vaddr / 0x40_0000)
      case BusError => NotFound(true)
      case Data(w) =>
        var p := Decoded(w);
        if !p.v then NotFound(false)
        else if Leaf(p) then (if p.frame % 0x40_0000 != 0 then NotFound(false) else Entry(p, true))
        else if p.upper then NotFound(true)
        else
          match EntryAt(mem, p.frame, vaddr / PAGE % 1024)
          case BusError => NotFound(true)
          case Data(w2) =>
            var q := Decoded(w2);
            if !q.v then NotFound(false) else if q.upper then NotFound(true) else Entry(q, false)
  }

  datatype Top = Unmapped | Table(base: word)

  function EntryAt(mem: word -> Cell, table: word, index: nat): Cell
    requires index < 1024
  {
    var a := PageOf(table) + 4 * index;
    mem(a)
  }

  /* The checks on a leaf, in the order of the architecture's priorities. */
  function Checked(e: Leaves, super: bool, sum: bool, rwx: Access, vaddr: word): Outcome
    requires e.Entry?
  {
    var p := e.pte;
    if !Privileged(p.u, super, sum, rwx) then PageFault
    else if !Permits(p, rwx) then PageFault
    else if rwx.Write? && !p.d then PageFault
    else if !p.a then PageFault
    else if p.upper then AccessFault
    else Phys(p.frame - p.frame % Span(e.super) + vaddr % Span(e.super))
  }

  function Span(super: bool): nat {
    if super then 0x40_0000 else PAGE
  }

  /** What translation means: no cache. */
  function Walk(mem: word -> Cell, top: Top, super: bool, sum: bool, vaddr: word, rwx: Access): Outcome {
    var e := Lookup(mem, top, vaddr);
    if e.Entry? then Checked(e, super, sum, rwx, vaddr)
    else if e.access then AccessFault else PageFault
  }

  function Filled(vaddr: word, p: Pte): Cache {
    Cache(PageOf(vaddr), p.frame, p.r, p.w && p.d, p.x)
  }

  /* The part of the processor that translation reads and writes. */
  datatype Mmu = Mmu(enabled: bool, base: word, top: Top, super: bool, sum: bool, cache: Cache)

  predicate Hits(m: Mmu, vaddr: word) {
    PageOf(vaddr) == m.cache.vpage
  }

  function FromCache(c: Cache, vaddr: word, rwx: Access): Outcome {
    if match rwx case Read => c.readable case Write => c.writeable case Execute => c.executable
    then Phys(PageOf(c.ppage) + vaddr % PAGE)
    else PageFault
  }

  /* translatemem. */
  function Translated(mem: word -> Cell, m: Mmu, vaddr: word, rwx: Access): (Mmu, Outcome) {
    if !m.enabled then (m, Phys(vaddr))
    else if Hits(m, vaddr) then (m, FromCache(m.cache, vaddr, rwx))
    else
      var r := Walk(mem, m.top, m.super, m.sum, vaddr, rwx);
      var e := Lookup(mem, m.top, vaddr);
      if r.Phys? && e.Entry? && !e.super then (m.(cache := Filled(vaddr, e.pte)), r) else (m, r)
  }

  /* write_csr_satp. The root table itself is not mapped until the next fence. */
  function SatpWritten(m: Mmu, val: word): Mmu {
    m.(enabled := Bit(val, 0x8000_0000), base := val % 0x10_0000 * PAGE,
       cache := m.cache.(vpage := INVALID_VPAGE))
  }

  /* sfence.vma; false if the root table has no memory behind it, which takes
     an exception. */
  function Fenced(m: Mmu, ramSize: word, romSize: word): (Mmu, bool) {
    if MapMem(m.base, ramSize, romSize) then
      (m.(top := Table(m.base), cache := m.cache.(vpage := INVALID_VPAGE)), true)
    else (m.(top := Unmapped), false)
  }

  // ------------------------------------------------------------------
  // The walk, word by word

  /* What the bits of a leaf grant: R, W and X are 2, 4 and 8, U is 16, A is 64 and
     D is 128. */
  predicate Allows(w: word, super: bool, sum: bool, rwx: Access) {
    && (if w / 16 % 2 == 0 then super else !super || (sum && !rwx.Execute?))
    && (match rwx
        case Read => w / 2 % 2 == 1
        case Write => w / 4 % 2 == 1 && w / 128 % 2 == 1
        case Execute => w / 8 % 2 == 1)
    && w / 64 % 2 == 1
  }

  /* The page a table word names, and whether its number goes past 32-bit addresses. */
  function Named(w: word): word {
    w / 0x400 % 0x10_0000 * 4096
  }

  predicate TooHigh(w: word) {
    w / 0x4000_0000 != 0
  }

  /* The outcome is the one that the words of the tables at `base` give. */
  ghost predicate Walks(mem: word -> Cell, base: word, super: bool, sum: bool, vaddr: word, rwx: Access, r: Outcome) {
    match mem(base - base % 4096 + 4 * (vaddr / 0x40_0000))
    case BusError => r == AccessFault
    case Data(w1) =>
      if w1 % 2 == 0 then r == PageFault
      else if w1 / 2 % 8 != 0 then
        // A leaf already: 4 MB.
        if w1 / 0x400 % 0x400 != 0 || !Allows(w1, super, sum, rwx) then r == PageFault
        else if TooHigh(w1) then r == AccessFault
        else r == Phys(Named(w1) + vaddr % 0x40_0000)
      else if TooHigh(w1) then r == AccessFault
      else
        match mem(Named(w1) + 4 * (vaddr / 4096 % 1024))
        case BusError => r == AccessFault
        case Data(w2) =>
          if w2 % 2 == 0 then r == PageFault
          else if TooHigh(w2) then r == AccessFault
          else if !Allows(w2, super, sum, rwx) then r == PageFault
          else r == Phys(Named(w2) + vaddr % 4096)
  }

  lemma SuperAligned(w: word)
    ensures Named(w) % 0x40_0000 == 4096 * (w / 0x400 % 0x400)
    ensures Named(w) % 4096 == 0 && PageOf(Named(w)) == Named(w)
  {
    var k, q := w / 0x400 % 0x10_0000, w / 0x400 / 0x10_0000;
    assert w / 0x400 == 0x10_0000 * q + k && k == 0x400 * (k / 0x400) + k % 0x400;
    Quotient(w / 0x400, 0x400, 0x400 * q + k / 0x400, k % 0x400);
    Quotient(k * 4096, 0x40_0000, k / 0x400, 4096 * (k % 0x400));
    Quotient(k * 4096, 4096, k, 0);
  }

  lemma LeafBits(w: word)
    ensures w / 2 % 8 != 0 <==> w / 2 % 2 == 1 || w / 4 % 2 == 1 || w / 8 % 2 == 1
  {
    var a, b, c, d := w / 2, w / 4, w / 8, w / 16;
    Halved(w);
    assert a == 2 * b + a % 2 && b == 2 * c + b % 2 && c == 2 * d + c % 2;
    Quotient(a, 8, d, a % 2 + 2 * (b % 2) + 4 * (c % 2));
  }

  lemma CheckedAllows(w: word, big: bool, super: bool, sum: bool, rwx: Access, vaddr: word)
    requires big ==> Named(w) % 0x40_0000 == 0
    ensures Checked(Entry(Decoded(w), big), super, sum, rwx, vaddr)
         == if !Allows(w, super, sum, rwx) then PageFault
            else if TooHigh(w) then AccessFault
            else Phys(Named(w) + vaddr % Span(big))
  {
    hide PageOf;
    SuperAligned(w);
  }

  /** The walk reads the root word that the top ten bits of the address choose and,
      unless that is a leaf, the word of the table it names that the next ten bits
      choose; and what it makes of them is what their bits say. */
  lemma WalkMeans(mem: word -> Cell, base: word, super: bool, sum: bool, vaddr: word, rwx: Access)
    ensures Walks(mem, base, super, sum, vaddr, rwx, Walk(mem, Table(base), super, sum, vaddr, rwx))
  {
    hide Checked, Allows, Named, Decoded, Leaf, TooHigh;
    match EntryAt(mem, base, vaddr / 0x40_0000)
    case BusError =>
    case Data(w) =>
      SuperAligned(w);
      LeafBits(w);
      DecodedIs(w);
      if w / 2 % 8 != 0 {
        if w / 0x400 % 0x400 == 0 {
          CheckedAllows(w, true, super, sum, rwx, vaddr);
        }
      } else {
        match EntryAt(mem, Named(w), vaddr / PAGE % 1024)
        case BusError =>
        case Data(w2) => DecodedIs(w2); CheckedAllows(w2, false, super, sum, rwx, vaddr);
      }
  }

  lemma DecodedIs(w: word)
    ensures var p := Decoded(w);
            && p.frame == Named(w) && p.upper == TooHigh(w) && p.v == (w % 2 == 1)
            && (Leaf(p) <==> w / 2 % 2 == 1 || w / 4 % 2 == 1 || w / 8 % 2 == 1)
  {
  }

  // ------------------------------------------------------------------
  // The translation unit, updated in place

  class TranslationUnit {
    const mem: word -> Cell
    const ramSize: word
    const romSize: word

    var enabled: bool
    var base: word
    var top: Top
    var super: bool
    var sum: bool
    var cache: Cache

    ghost function View(): Mmu
      reads this
    {
      Mmu(enabled, base, top, super, sum, cache)
    }

    constructor (mem: word -> Cell, ramSize: word, romSize: word)
      ensures View() == Reset() && this.mem == mem && this.ramSize == ramSize && this.romSize == romSize
    {
      this.mem, this.ramSize, this.romSize := mem, ramSize, romSize;
      enabled, base, top, super, sum := false, 0, Unmapped, true, false;
      cache := Cache(INVALID_VPAGE, 0, false, false, false);
    }

    method TranslateMem(vaddr: word, rwx: Access) returns (r: Outcome)
      modifies this`cache
      ensures (View(), r) == Translated(mem, old(View()), vaddr, rwx)
    {
      if !enabled {
        return Phys(vaddr);
      }
      var vpage := vaddr - vaddr % PAGE;
      if vpage == cache.vpage {
        var ok := match rwx { case Read => cache.readable case Write => cache.writeable case Execute => cache.executable };
        if !ok {
          return PageFault;
        }
        return Phys(PageOf(cache.ppage) + vaddr % PAGE);
      }
      r := WalkTables(vaddr, rwx);
    }

    method WalkTables(vaddr: word, rwx: Access) returns (r: Outcome)
      requires enabled && !Hits(View(), vaddr)
      modifies this`cache
      ensures (View(), r) == Translated(mem, old(View()), vaddr, rwx)
      ensures if top.Unmapped? then r == AccessFault else Walks(mem, top.base, super, sum, vaddr, rwx, r)
    {
      hide Decoded, Walks;
      if top.Unmapped? {
        return AccessFault;
      }
      WalkMeans(mem, top.base, super, sum, vaddr, rwx);
      var cell := EntryAt(mem, top.base, vaddr / 0x40_0000);
      if cell.BusError? {
        return AccessFault;
      }
      var pte := Decoded(cell.val);
      if !pte.v {
        return PageFault;
      }
      var superpage := Leaf(pte);
      if superpage {
        if pte.frame % 0x40_0000 != 0 {
          return PageFault;
        }
      } else {
        if pte.upper {
          return AccessFault;
        }
        cell := EntryAt(mem, pte.frame, vaddr / PAGE % 1024);
        if cell.BusError? {
          return AccessFault;
        }
        pte := Decoded(cell.val);
        if !pte.v {
          return PageFault;
        }
        if pte.upper {
          return AccessFault;
        }
      }
      r := Check(pte, superpage, vaddr, rwx);
      if r.Phys? && !superpage {
        cache := Cache(vaddr - vaddr % PAGE, pte.frame, pte.r, pte.w && pte.d, pte.x);
      }
    }

    method Check(pte: Pte, superpage: bool, vaddr: word, rwx: Access) returns (r: Outcome)
      ensures r == Checked(Entry(pte, superpage), super, sum, rwx, vaddr)
    {
      if super && pte.u {
        if rwx.Execute? || !sum {
          return PageFault;
        }
      } else if !super && !pte.u {
        return PageFault;
      }
      if !Permits(pte, rwx) {
        return PageFault;
      }
      if rwx.Write? && !pte.d {
        return PageFault;
      }
      if !pte.a {
        return PageFault;
      }
      if pte.upper {
        return AccessFault;
      }
      return Phys(pte.frame - pte.frame % Span(superpage) + vaddr % Span(superpage));
    }

    method WriteSatp(val: word)
      modifies this`enabled, this`base, this`cache
      ensures View() == SatpWritten(old(View()), val)
      ensures enabled <==> val >= 0x8000_0000
      ensures base == val % 0x10_0000 * 4096 && cache.vpage == 0xffff_ffff
    {
      enabled := val / 0x8000_0000 % 2 == 1;
      base := val % 0x10_0000 * PAGE;
      cache := cache.(vpage := INVALID_VPAGE);
    }

    method SfenceVma() returns (ok: bool)
      modifies this`top, this`cache
      ensures (View(), ok) == Fenced(old(View()), ramSize, romSize)
    {
      if !MapMem(base, ramSize, romSize) {
        top := Unmapped;
        return false;
      }
      top := Table(base);
      cache := cache.(vpage := INVALID_VPAGE);
      return true;
    }
  }

  function Reset(): Mmu {
    Mmu(false, 0, Unmapped, true, false, Cache(INVALID_VPAGE, 0, false, false, false))
  }

  // ------------------------------------------------------------------
  // The cache and the tables

  /* The cache is empty, or holds what the tables say about its page. */
  ghost predicate Current(mem: word -> Cell, m: Mmu) {
    m.cache.vpage == INVALID_VPAGE
    || (m.cache.vpage % PAGE == 0
        && var e := Lookup(mem, m.top, m.cache.vpage);
           e.Entry? && !e.super && e.pte.a && !e.pte.upper && m.cache == Filled(m.cache.vpage, e.pte))
  }

  /* All addresses of a page lead to the same leaf, and a page is never the
     invalid one. */
  lemma SamePage(mem: word -> Cell, top: Top, a: word, b: word)
    requires PageOf(a) == PageOf(b)
    ensures Lookup(mem, top, a) == Lookup(mem, top, b)
    ensures PageOf(a) != INVALID_VPAGE && PageOf(PageOf(a)) == PageOf(a) && PageOf(a) % PAGE == 0
  {
    hide Decoded;
    assert a / PAGE == b / PAGE;
    assert a / 0x40_0000 == a / PAGE / 1024;
    assert b / 0x40_0000 == b / PAGE / 1024;
  }

  lemma FrameAligned(mem: word -> Cell, top: Top, vaddr: word)
    ensures Lookup(mem, top, vaddr).Entry? ==> Lookup(mem, top, vaddr).pte.frame % PAGE == 0
  {
  }

  /* The leaf the cache was filled from. */
  function CachedPte(mem: word -> Cell, m: Mmu): Pte
    requires Current(mem, m) && m.cache.vpage != INVALID_VPAGE
  {
    Lookup(mem, m.top, m.cache.vpage).pte
  }

  lemma HitMeans(mem: word -> Cell, m: Mmu, vaddr: word)
    requires Current(mem, m) && m.enabled && Hits(m, vaddr)
    ensures m.cache.vpage != INVALID_VPAGE
    ensures Lookup(mem, m.top, vaddr) == Entry(CachedPte(mem, m), false)
    ensures CachedPte(mem, m).frame % PAGE == 0
  {
    hide Lookup, PageOf, FromCache;
    SamePage(mem, m.top, m.cache.vpage, m.cache.vpage);
    SamePage(mem, m.top, vaddr, vaddr);
    SamePage(mem, m.top, vaddr, PageOf(vaddr));
    FrameAligned(mem, m.top, vaddr);
  }

  /** A hit gives what the walk would give exactly when the page may be reached
      in the present mode, or the access is one the page forbids anyway. */
  lemma HitAgreesExactly(mem: word -> Cell, m: Mmu, vaddr: word, rwx: Access)
    requires Current(mem, m) && m.enabled && Hits(m, vaddr)
    ensures m.cache.vpage != INVALID_VPAGE
    ensures Translated(mem, m, vaddr, rwx).1 == Walk(mem, m.top, m.super, m.sum, vaddr, rwx)
       <==> Privileged(CachedPte(mem, m).u, m.super, m.sum, rwx) || FromCache(m.cache, vaddr, rwx).PageFault?
  {
    HitMeans(mem, m, vaddr);
  }

  lemma TranslateKeepsCurrent(mem: word -> Cell, m: Mmu, vaddr: word, rwx: Access)
    requires Current(mem, m)
    ensures Current(mem, Translated(mem, m, vaddr, rwx).0)
  {
    hide Lookup, PageOf, FromCache;
    SamePage(mem, m.top, vaddr, vaddr);
    SamePage(mem, m.top, vaddr, PageOf(vaddr));
  }

  /* Some access in the present mode and with the present SUM may use the page. */
  ghost predicate FilledInMode(mem: word -> Cell, m: Mmu)
    requires Current(mem, m)
  {
    m.cache.vpage == INVALID_VPAGE
    || exists rwx :: Privileged(CachedPte(mem, m).u, m.super, m.sum, rwx)
  }

  lemma TranslateKeepsMode(mem: word -> Cell, m: Mmu, vaddr: word, rwx: Access)
    requires Current(mem, m) && FilledInMode(mem, m)
    ensures Current(mem, Translated(mem, m, vaddr, rwx).0)
    ensures FilledInMode(mem, Translated(mem, m, vaddr, rwx).0)
  {
    hide Lookup, PageOf, FromCache;
    TranslateKeepsCurrent(mem, m, vaddr, rwx);
    SamePage(mem, m.top, vaddr, vaddr);
    SamePage(mem, m.top, vaddr, PageOf(vaddr));
    var t := Translated(mem, m, vaddr, rwx).0;
    if t.cache != m.cache {
      assert Privileged(CachedPte(mem, t).u, t.super, t.sum, rwx);
    }
  }

  function AllTranslated(mem: word -> Cell, m: Mmu, accesses: seq<(word, Access)>): Mmu
    decreases |accesses|
  {
    if accesses == [] then m
    else AllTranslated(mem, Translated(mem, m, accesses[0].0, accesses[0].1).0, accesses[1..])
  }

  lemma {:induction false} AccessesKeepMode(mem: word -> Cell, m: Mmu, accesses: seq<(word, Access)>)
    requires Current(mem, m) && FilledInMode(mem, m)
    ensures var r := AllTranslated(mem, m, accesses);
            Current(mem, r) && FilledInMode(mem, r) && r == m.(cache := r.cache)
    decreases |accesses|
  {
    if accesses != [] {
      TranslateKeepsMode(mem, m, accesses[0].0, accesses[0].1);
      AccessesKeepMode(mem, Translated(mem, m, accesses[0].0, accesses[0].1).0, accesses[1..]);
    }
  }

  /* A supervisor fetch from an executable user page that is in the cache. */
  predicate UserFetch(mem: word -> Cell, m: Mmu, vaddr: word, rwx: Access) {
    && Hits(m, vaddr) && m.super && rwx.Execute?
    && Lookup(mem, m.top, vaddr).Entry? && Lookup(mem, m.top, vaddr).pte.u && Lookup(mem, m.top, vaddr).pte.x
  }

  /** From an empty cache, after any accesses with the root, the tables, the mode
      and SUM as they are: the cache changes no answer but one. Whether through
      the cache or past it a translation is what the walk says, except exactly
      for a supervisor fetch from a user page, which the cache lets through. */
  lemma CacheIsTransparent(mem: word -> Cell, m: Mmu, accesses: seq<(word, Access)>, vaddr: word, rwx: Access)
    requires m.cache.vpage == INVALID_VPAGE && m.enabled
    ensures Translated(mem, AllTranslated(mem, m, accesses), vaddr, rwx).1
         == Walk(mem, m.top, m.super, m.sum, vaddr, rwx)
       <==> !UserFetch(mem, AllTranslated(mem, m, accesses), vaddr, rwx)
    ensures var r := AllTranslated(mem, m, accesses);
            UserFetch(mem, r, vaddr, rwx) ==>
              Translated(mem, r, vaddr, rwx).1 == Phys(PageOf(Lookup(mem, r.top, vaddr).pte.frame) + vaddr % PAGE)
  {
    AccessesKeepMode(mem, m, accesses);
    var r := AllTranslated(mem, m, accesses);
    if Hits(r, vaddr) {
      HitMeans(mem, r, vaddr);
      HitAgreesExactly(mem, r, vaddr, rwx);
    }
  }

  /** A write to SATP and a successful fence empty the cache; a fence that fails
      does not. */
  lemma OnlySuccessEmpties(m: Mmu, val: word, ramSize: word, romSize: word)
    ensures SatpWritten(m, val).cache.vpage == INVALID_VPAGE
    ensures Fenced(m, ramSize, romSize).1 <==> MapMem(m.base, ramSize, romSize)
    ensures Fenced(m, ramSize, romSize).1 ==> Fenced(m, ramSize, romSize).0.cache.vpage == INVALID_VPAGE
    ensures !Fenced(m, ramSize, romSize).1 ==> Fenced(m, ramSize, romSize).0.cache == m.cache
  {
  }

  /** So after a failed fence, where no walk can start, an access still succeeds
      exactly if it is one the cached page allows. */
  lemma FailedFenceLeavesAccess(mem: word -> Cell, m: Mmu, ramSize: word, romSize: word, vaddr: word, rwx: Access)
    requires m.enabled && !MapMem(m.base, ramSize, romSize)
    ensures var f := Fenced(m, ramSize, romSize).0;
            && Walk(mem, f.top, f.super, f.sum, vaddr, rwx) == AccessFault
            && (Translated(mem, f, vaddr, rwx).1.Phys? <==> Hits(m, vaddr) && FromCache(m.cache, vaddr, rwx).Phys?)
  {
    hide MapMem;
  }

  /** Whatever the order of the checks: the walk grants an access exactly when it
      finds a leaf within the supported addresses that the mode may use and the
      page permits, marked accessed and, for a write, dirty. */
  lemma WalkGrantsExactly(mem: word -> Cell, top: Top, super: bool, sum: bool, vaddr: word, rwx: Access)
    ensures Walk(mem, top, super, sum, vaddr, rwx).Phys? <==>
              var e := Lookup(mem, top, vaddr);
              && e.Entry? && !e.pte.upper && e.pte.a
              && (if super then !e.pte.u || (sum && !rwx.Execute?) else e.pte.u)
              && (match rwx case Read => e.pte.r case Write => e.pte.w && e.pte.d case Execute => e.pte.x)
  {
    hide Lookup;
  }

  // ------------------------------------------------------------------
  // The debugger's copy

  datatype Peek = Found(paddr: int) | Refused

  /* debug_translatemem: the same walk without the checks on the mode, leaving
     the cache alone. */
  function Peeked(mem: word -> Cell, m: Mmu, vaddr: word, rwx: Access): Peek {
    if vaddr % 4 != 0 then Refused
    else if !m.enabled then Found(vaddr)
    else if Hits(m, vaddr) then
      var r := FromCache(m.cache, vaddr, rwx);
      if r.Phys? then Found(r.paddr) else Refused
    else
      var e := Lookup(mem, m.top, vaddr);
      if e.Entry? && Permits(e.pte, rwx) && (rwx.Write? ==> e.pte.d) && e.pte.a && !e.pte.upper then
        Found(e.pte.frame - e.pte.frame % Span(e.super) + vaddr % Span(e.super))
      else Refused
  }

  /** The two copies agree: on a word address the processor gets what the
      debugger gets, or a fault because of its mode. */
  lemma DebuggerSeesTheSame(mem: word -> Cell, m: Mmu, vaddr: word, rwx: Access)
    requires vaddr % 4 == 0
    ensures var r, p := Translated(mem, m, vaddr, rwx).1, Peeked(mem, m, vaddr, rwx);
            && (r.Phys? ==> p == Found(r.paddr))
            && (!r.Phys? && p.Found? ==>
                  && !Hits(m, vaddr) && Lookup(mem, m.top, vaddr).Entry?
                  && !Privileged(Lookup(mem, m.top, vaddr).pte.u, m.super, m.sum, rwx))
  {
    hide Lookup;
  }
}
