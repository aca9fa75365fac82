/**
 Sub-word memory access. The bus moves aligned 32-bit words; bytes, halfwords
 and unaligned words are read, and merged into words that are read and written
 back, so that memory looks like a big-endian array of bytes.
 */
module SubWord {
  import opened Words

  datatype Style = SByte | UByte | SHalf | UHalf | WordL | WordR

  const B1: nat := 0x100
  const B2: nat := 0x1_0000
  const B3: nat := 0x100_0000

  function Join4(b0: byte, b1: byte, b2: byte, b3: byte): word {
    B3 * b0 + B2 * b1 + B1 * b2 + b3
  }

  /* Byte k of a word, the most significant first. */
  function Byte(w: word, k: nat): byte
    requires k < 4
  {
    if k == 0 then w / B3
    else if k == 1 then w / B2 % B1
    else if k == 2 then w / B1 % B1
    else w % B1
  }

  lemma Div1(q: nat, r: nat)
    requires r < B1
    ensures (B1 * q + r) / B1 == q && (B1 * q + r) % B1 == r
  {
  }

  lemma Div2(q: nat, r: nat)
    requires r < B2
    ensures (B2 * q + r) / B2 == q && (B2 * q + r) % B2 == r
  {
  }

  lemma Div3(q: nat, r: nat)
    requires r < B3
    ensures (B3 * q + r) / B3 == q && (B3 * q + r) % B3 == r
  {
  }

  /* Cutting a word of four given bytes anywhere. */
  lemma Cuts(b0: byte, b1: byte, b2: byte, b3: byte, w: word)
    requires w == B3 * b0 + B2 * b1 + B1 * b2 + b3
    ensures w / B1 == B2 * b0 + B1 * b1 + b2 && w % B1 == b3
    ensures w / B2 == B1 * b0 + b1 && w % B2 == B1 * b2 + b3
    ensures w / B3 == b0 && w % B3 == B2 * b1 + B1 * b2 + b3
  {
    Div1(B2 * b0 + B1 * b1 + b2, b3);
    Div2(B1 * b0 + b1, B1 * b2 + b3);
    Div3(b0, B2 * b1 + B1 * b2 + b3);
  }

  lemma WordOfBytes(b0: byte, b1: byte, b2: byte, b3: byte, w: word)
    requires w == B3 * b0 + B2 * b1 + B1 * b2 + b3
    ensures Byte(w, 0) == b0 && Byte(w, 1) == b1 && Byte(w, 2) == b2 && Byte(w, 3) == b3
  {
    Cuts(b0, b1, b2, b3, w);
    Div1(b0, b1);
    Div1(B1 * b0 + b1, b2);
  }

  lemma BytesOfWord(w: word)
    ensures w == B3 * Byte(w, 0) + B2 * Byte(w, 1) + B1 * Byte(w, 2) + Byte(w, 3)
  {
    var w1 := w / B1;
    var w2 := w1 / B1;
    assert w == B1 * w1 + w % B1 && w1 == B1 * w2 + w1 % B1 && w2 == B1 * (w2 / B1) + w2 % B1;
    Div2(w2, B1 * (w1 % B1) + w % B1);
    Div3(w2 / B1, B2 * (w2 % B1) + B1 * (w1 % B1) + w % B1);
  }

  /* val << 8k and val >> 8k, in 32 bits. */
  function ShiftedLeft(w: word, k: nat): word
    requires k < 4
  {
    if k == 0 then w
    else if k == 1 then w % B3 * B1
    else if k == 2 then w % B2 * B2
    else w % B1 * B3
  }

  function ShiftedRight(w: word, k: nat): word
    requires k < 4
  {
    if k == 0 then w else if k == 1 then w / B1 else if k == 2 then w / B2 else w / B3
  }

  function Signed8(b: byte): word {
    if b < 0x80 then b else TWO_32 - B1 + b
  }

  function Signed16(h: nat): word
    requires h < B2
  {
    if h < 0x8000 then h else TWO_32 - B2 + h
  }

  /* A word, and the low n bits of one, as numbers with a sign. */
  function Value32(w: word): int {
    if w < 0x8000_0000 then w else w - 0x1_0000_0000
  }

  /** Extending keeps the signed value of a byte or a halfword, which is the one
      number in its range with those low bits. */
  lemma SignExtends(b: byte, h: nat)
    requires h < B2
    ensures -128 <= Value32(Signed8(b)) < 128 && Signed8(b) % 0x100 == b
    ensures -32768 <= Value32(Signed16(h)) < 32768 && Signed16(h) % 0x1_0000 == h
  {
  }

  // ------------------------------------------------------------------
  // The byte array behind the words

  function Bytes(m: seq<word>): (r: seq<byte>)
    ensures |r| == 4 * |m|
  {
    if m == [] then [] else WordBytes(m[0]) + Bytes(m[1..])
  }

  /* The bytes one access covers: WORDL from its address to the end of the word,
     WORDR from the start of the word to its address. */
  function Start(ms: Style, a: word): word {
    if ms.WordR? then a - a % 4 else a
  }

  function Length(ms: Style, a: word): nat {
    match ms
    case SByte => 1
    case UByte => 1
    case SHalf => 2
    case UHalf => 2
    case WordL => 4 - a % 4
    case WordR => a % 4 + 1
  }

  /* The low-order bytes of a word, as a string. */
  function LowBytes(w: word, n: nat): seq<byte>
    requires n <= 4
  {
    [Byte(w, 0), Byte(w, 1), Byte(w, 2), Byte(w, 3)][4 - n..]
  }

  function HighBytes(w: word, n: nat): seq<byte>
    requires n <= 4
  {
    [Byte(w, 0), Byte(w, 1), Byte(w, 2), Byte(w, 3)][..n]
  }

  /* What a load leaves in the register: the bytes themselves, extended, or for
     the two halves of an unaligned load put in beside what was there. */
  function LoadedFrom(s: seq<byte>, ms: Style, res: word): word
    requires |s| == match ms case SByte => 1 case UByte => 1 case SHalf => 2 case UHalf => 2 case _ => |s|
    requires |s| <= 4
  {
    match ms
    case SByte => Signed8(s[0])
    case UByte => s[0]
    case SHalf => Signed16(s[0] * B1 + s[1])
    case UHalf => s[0] * B1 + s[1]
    case WordL => Spelled(s + LowBytes(res, 4 - |s|))
    case WordR => Spelled(HighBytes(res, 4 - |s|) + s)
  }

  function Spelled(s: seq<byte>): word
    requires |s| == 4
  {
    Join4(s[0], s[1], s[2], s[3])
  }

  /* The bytes a store writes: the low end of the register, or the high end for WORDL. */
  function StoredBytes(ms: Style, a: word, val: word): (r: seq<byte>)
    ensures |r| == Length(ms, a)
  {
    if ms.WordL? then HighBytes(val, Length(ms, a)) else LowBytes(val, Length(ms, a))
  }

  function Spliced(b: seq<byte>, i: nat, t: seq<byte>): (r: seq<byte>)
    requires i + |t| <= |b|
    ensures |r| == |b|
  {
    b[..i] + t + b[i + |t|..]
  }

  // ------------------------------------------------------------------
  // The masking and shifting, one word at a time

  function WordBytes(w: word): (r: seq<byte>)
    ensures |r| == 4
  {
    [Byte(w, 0), Byte(w, 1), Byte(w, 2), Byte(w, 3)]
  }

  function Power(k: nat): nat
    requires k <= 4
  {
    if k == 0 then 1 else if k == 1 then B1 else if k == 2 then B2 else if k == 3 then B3 else TWO_32
  }

  /* (res & ~mask) | (val & mask), where the mask is all but the low k bytes. */
  function AboveLow(k: nat, res: word, val: word): word
    requires k < 4
  {
    res % Power(k) + (val - val % Power(k))
  }

  /* The same where the mask is the low k bytes. */
  function BelowHigh(k: nat, res: word, val: word): word
    requires 0 < k <= 4
  {
    res - res % Power(k) + val % Power(k)
  }

  function HalfOf(val: word, a: word): nat {
    if a / 2 % 2 == 0 then val / B2 else val % B2
  }

  lemma CutsOf(w: word)
    ensures w == B3 * Byte(w, 0) + B2 * Byte(w, 1) + B1 * Byte(w, 2) + Byte(w, 3)
    ensures w / B1 == B2 * Byte(w, 0) + B1 * Byte(w, 1) + Byte(w, 2) && w % B1 == Byte(w, 3)
    ensures w / B2 == B1 * Byte(w, 0) + Byte(w, 1) && w % B2 == B1 * Byte(w, 2) + Byte(w, 3)
    ensures w / B3 == Byte(w, 0) && w % B3 == B2 * Byte(w, 1) + B1 * Byte(w, 2) + Byte(w, 3)
  {
    BytesOfWord(w);
    Cuts(Byte(w, 0), Byte(w, 1), Byte(w, 2), Byte(w, 3), w);
  }

  lemma Joined(t: seq<byte>)
    requires |t| == 4
    ensures Spelled(t) == B3 * t[0] + B2 * t[1] + B1 * t[2] + t[3]
  {
  }

  lemma Kept(k: nat, res: word, x: word)
    requires 0 < k <= 4 && x < Power(k)
    ensures BelowHigh(k, res, x) == res - res % Power(k) + x
  {
  }

  lemma WordLLoad(val: word, res: word, k: nat)
    requires k < 4
    ensures AboveLow(k, res, ShiftedLeft(val, k)) == Spelled(WordBytes(val)[k..] + LowBytes(res, k))
  {
    hide Byte;
    CutsOf(val);
    CutsOf(res);
    Cuts(Byte(val, 1), Byte(val, 2), Byte(val, 3), 0, val % B3 * B1);
    Cuts(Byte(val, 2), Byte(val, 3), 0, 0, val % B2 * B2);
    Cuts(Byte(val, 3), 0, 0, 0, val % B1 * B3);
  }

  lemma WordRLoad(val: word, res: word, k: nat)
    requires k < 4
    ensures BelowHigh(k + 1, res, ShiftedRight(val, 3 - k)) == Spelled(HighBytes(res, 3 - k) + WordBytes(val)[..k + 1])
  {
    hide Byte, Join4, BelowHigh;
    var bytes := HighBytes(res, 3 - k) + WordBytes(val)[..k + 1];
    CutsOf(res);
    CutsOf(val);
    if k == 0 {
      assert bytes == [Byte(res, 0), Byte(res, 1), Byte(res, 2), Byte(val, 0)];
      Kept(1, res, val / B3);
    } else if k == 1 {
      assert bytes == [Byte(res, 0), Byte(res, 1), Byte(val, 0), Byte(val, 1)];
      Kept(2, res, val / B2);
    } else if k == 2 {
      assert bytes == [Byte(res, 0), Byte(val, 0), Byte(val, 1), Byte(val, 2)];
      Kept(3, res, val / B1);
    } else {
      assert bytes == WordBytes(val);
      Kept(4, res, val);
    }
    Joined(bytes);
  }

  lemma HalfLoad(val: word, a: word)
    requires a % 2 == 0
    ensures var x := a % 4;
            HalfOf(val, a) == WordBytes(val)[x] * B1 + WordBytes(val)[x + 1] && HalfOf(val, a) < B2
  {
    hide Byte;
    CutsOf(val);
  }

  lemma BytesOfSpelled(t: seq<byte>)
    requires |t| == 4
    ensures WordBytes(Spelled(t)) == t
  {
    Joined(t);
    WordOfBytes(t[0], t[1], t[2], t[3], Spelled(t));
  }

  /* What doload makes of the aligned word it read. */
  function LoadWord(val: word, ms: Style, a: word, res: word): word
    requires ms.SHalf? || ms.UHalf? ==> a % 2 == 0
  {
    match ms
    case SByte => Signed8(Byte(val, a % 4))
    case UByte => Byte(val, a % 4)
    case SHalf => HalfLoad(val, a); Signed16(HalfOf(val, a))
    case UHalf => HalfOf(val, a)
    case WordL => AboveLow(a % 4, res, ShiftedLeft(val, a % 4))
    case WordR => BelowHigh(a % 4 + 1, res, ShiftedRight(val, 3 - a % 4))
  }

  /* What dostore writes back in place of the aligned word it read. */
  function StoreWord(wval: word, ms: Style, a: word, val: word): word
    requires ms.UByte? || ms.UHalf? || ms.WordL? || ms.WordR?
  {
    var k := a % 4;
    match ms
    case UByte => WithByte(wval, k, val % B1)
    case UHalf =>
      if a / 2 % 2 == 0 then BelowHigh(2, val % B2 * B2, wval) else BelowHigh(2, wval, val % B2)
    case WordL => BelowHigh(4 - k, wval, ShiftedRight(val, k))
    case WordR => AboveLow(3 - k, wval, ShiftedLeft(val, 3 - k))
    case _ => wval
  }

  function WithByte(w: word, k: nat, b: byte): word
    requires k < 4
  {
    if k == 0 then B3 * b + w % B3
    else if k == 1 then w / B3 * B3 + B2 * b + w % B2
    else if k == 2 then w / B2 * B2 + B1 * b + w % B1
    else w / B1 * B1 + b
  }

  lemma Extent(ms: Style, a: word)
    requires ms.SHalf? || ms.UHalf? ==> a % 2 == 0
    ensures Start(ms, a) % 4 == if ms.WordR? then 0 else a % 4
    ensures Start(ms, a) / 4 == a / 4
    ensures Start(ms, a) % 4 + Length(ms, a) <= 4
  {
    hide Length;
    Quarters(a, a / 4, a % 4);
    Lengths(ms, a);
    if ms.WordR? {
      Quarters(Start(ms, a), a / 4, 0);
    }
  }

  lemma Lengths(ms: Style, a: word)
    ensures Length(ms, a) == match ms
                             case SByte => 1 case UByte => 1 case SHalf => 2 case UHalf => 2
                             case WordL => 4 - a % 4 case WordR => a % 4 + 1
  {
  }

  /* A number by its quotient and remainder, and whether it is even. */
  lemma Quarters(v: nat, q: nat, r: nat)
    requires v == 4 * q + r && r < 4
    ensures v / 4 == q && v % 4 == r
    ensures v % 2 == 0 <==> r == 0 || r == 2
    ensures v / 2 % 2 == if r < 2 then 0 else 1
  {
    Div4(q, r);
    Div2By2(2 * q + r / 2, r % 2);
    Div2By2(q, r / 2);
  }

  lemma Div2By2(q: nat, r: nat)
    requires r < 2
    ensures (2 * q + r) / 2 == q && (2 * q + r) % 2 == r
  {
  }

  lemma Div4(q: nat, r: nat)
    requires r < 4
    ensures (4 * q + r) / 4 == q && (4 * q + r) % 4 == r
  {
  }

  /** A load extracts the bytes of its address and no others. */
  lemma LoadIsBytes(val: word, ms: Style, a: word, res: word)
    requires ms.SHalf? || ms.UHalf? ==> a % 2 == 0
    ensures Start(ms, a) % 4 + Length(ms, a) <= 4
    ensures LoadWord(val, ms, a, res)
         == LoadedFrom(WordBytes(val)[Start(ms, a) % 4..Start(ms, a) % 4 + Length(ms, a)], ms, res)
  {
    hide Byte, AboveLow, BelowHigh, HalfOf, Spelled, Start, LowBytes, HighBytes;
    Extent(ms, a);
    var k := a % 4;
    match ms
    case WordL =>
      WordLLoad(val, res, k);
      assert WordBytes(val)[k..4] == WordBytes(val)[k..];
    case WordR =>
      WordRLoad(val, res, k);
      assert WordBytes(val)[0..k + 1] == WordBytes(val)[..k + 1];
    case SHalf => HalfLoad(val, a);
    case UHalf => HalfLoad(val, a);
    case _ =>
  }

  lemma ByteStore(w: word, k: nat, b: byte)
    requires k < 4
    ensures WithByte(w, k, b) == Spelled(WordBytes(w)[k := b])
  {
    hide Byte, Join4, Spelled;
    CutsOf(w);
    Joined(WordBytes(w)[k := b]);
  }

  lemma HalfStore(w: word, val: word, a: word)
    requires a % 2 == 0
    ensures StoreWord(w, UHalf, a, val) == Spelled(Spliced(WordBytes(w), a % 4, LowBytes(val, 2)))
  {
    hide Byte, Join4, Spelled, BelowHigh;
    CutsOf(w);
    CutsOf(val);
    var t := Spliced(WordBytes(w), a % 4, LowBytes(val, 2));
    Joined(t);
    if a % 4 == 0 {
      assert t == [Byte(val, 2), Byte(val, 3), Byte(w, 2), Byte(w, 3)];
      Cuts(Byte(val, 2), Byte(val, 3), 0, 0, val % B2 * B2);
      KeptLow(val % B2 * B2, w);
    } else {
      assert t == [Byte(w, 0), Byte(w, 1), Byte(val, 2), Byte(val, 3)];
      Kept(2, w, val % B2);
    }
  }

  lemma KeptLow(x: word, w: word)
    ensures BelowHigh(2, x, w) == x - x % B2 + w % B2
  {
  }

  lemma StoreLeft(w: word, a: word, val: word)
    ensures StoreWord(w, WordL, a, val) == Spelled(Spliced(WordBytes(w), a % 4, HighBytes(val, 4 - a % 4)))
  {
    hide Byte, BelowHigh, Spelled;
    var k := a % 4;
    WordRLoad(val, w, 3 - k);
    assert Spliced(WordBytes(w), k, HighBytes(val, 4 - k)) == HighBytes(w, k) + WordBytes(val)[..4 - k];
  }

  lemma StoreRight(w: word, a: word, val: word)
    ensures StoreWord(w, WordR, a, val) == Spelled(Spliced(WordBytes(w), 0, LowBytes(val, a % 4 + 1)))
  {
    hide Byte, AboveLow, Spelled;
    var k := a % 4;
    WordLLoad(val, w, 3 - k);
    assert Spliced(WordBytes(w), 0, LowBytes(val, k + 1)) == WordBytes(val)[3 - k..] + LowBytes(w, 3 - k);
  }

  lemma StoreByte(w: word, a: word, val: word)
    ensures StoreWord(w, UByte, a, val) == Spelled(Spliced(WordBytes(w), a % 4, LowBytes(val, 1)))
  {
    hide Byte, WithByte, Spelled;
    ByteStore(w, a % 4, val % B1);
    CutsOf(val);
    assert Spliced(WordBytes(w), a % 4, LowBytes(val, 1)) == WordBytes(w)[a % 4 := val % B1];
  }

  /** A store replaces the bytes of its address and keeps the others. */
  lemma StoreIsBytes(w: word, ms: Style, a: word, val: word)
    requires ms.UByte? || ms.UHalf? || ms.WordL? || ms.WordR?
    requires ms.UHalf? ==> a % 2 == 0
    ensures Start(ms, a) % 4 + Length(ms, a) <= 4
    ensures WordBytes(StoreWord(w, ms, a, val))
         == Spliced(WordBytes(w), Start(ms, a) % 4, StoredBytes(ms, a, val))
  {
    hide Byte, StoreWord, Spelled, Start, Spliced, WordBytes, LowBytes, HighBytes;
    Extent(ms, a);
    BytesOfSpelled(Spliced(WordBytes(w), Start(ms, a) % 4, StoredBytes(ms, a, val)));
    match ms
    case UByte => StoreByte(w, a, val);
    case UHalf => HalfStore(w, val, a);
    case WordL => StoreLeft(w, a, val);
    case WordR => StoreRight(w, a, val);
  }

  // ------------------------------------------------------------------
  // The whole memory

  lemma {:induction false} BytesAround(m: seq<word>, i: nat)
    requires i < |m|
    ensures Bytes(m) == Bytes(m[..i]) + WordBytes(m[i]) + Bytes(m[i + 1..])
  {
    if i == 0 {
      assert m[..0] == [];
    } else {
      BytesAround(m[1..], i - 1);
      assert m[..i][0] == m[0] && m[..i][1..] == m[1..][..i - 1];
      assert m[1..][i..] == m[i + 1..];
    }
  }

  lemma SliceOf(b: seq<byte>, p: seq<byte>, w: seq<byte>, q: seq<byte>, x: nat, n: nat, lo: nat, hi: nat)
    requires x + n <= |w| && b == p + w + q && lo == |p| + x && hi == lo + n
    ensures b[lo..hi] == w[x..x + n]
  {
  }

  lemma SpliceMiddle(p: seq<byte>, w: seq<byte>, q: seq<byte>, x: nat, t: seq<byte>)
    requires x + |t| <= |w|
    ensures Spliced(p + w + q, |p| + x, t) == p + Spliced(w, x, t) + q
  {
  }

  lemma InWord(m: seq<word>, i: nat, x: nat, n: nat, lo: nat, hi: nat)
    requires i < |m| && x + n <= 4 && lo == 4 * i + x && hi == lo + n
    ensures hi <= |Bytes(m)| && Bytes(m)[lo..hi] == WordBytes(m[i])[x..x + n]
  {
    hide WordBytes, Bytes;
    BytesAround(m, i);
    SliceOf(Bytes(m), Bytes(m[..i]), WordBytes(m[i]), Bytes(m[i + 1..]), x, n, lo, hi);
  }

  lemma WordReplaced(m: seq<word>, i: nat, w: word, x: nat, t: seq<byte>, after: seq<word>)
    requires i < |m| && x + |t| <= 4 && after == m[i := w]
    requires WordBytes(w) == Spliced(WordBytes(m[i]), x, t)
    ensures Bytes(after) == Spliced(Bytes(m), 4 * i + x, t)
  {
    hide WordBytes, Bytes, Spliced;
    BytesAround(m, i);
    BytesAround(after, i);
    assert after[..i] == m[..i] && after[i + 1..] == m[i + 1..];
    SpliceMiddle(Bytes(m[..i]), WordBytes(m[i]), Bytes(m[i + 1..]), x, t);
  }

  /* Word-organised memory behind the bus. A word in `clean` cannot be accessed
     for writing, because of its page; one in `rom` refuses to be written. */
  class WordMemory {
    const mem: array<word>
    const clean: set<nat>
    const rom: set<nat>

    constructor (size: nat, clean: set<nat>, rom: set<nat>)
      ensures fresh(mem) && mem.Length == size && this.clean == clean && this.rom == rom
      ensures forall i :: 0 <= i < size ==> mem[i] == 0
    {
      mem := new word[size](_ => 0);
      this.clean, this.rom := clean, rom;
    }

    predicate Loadable(a: word) {
      a % 4 == 0 && a / 4 < mem.Length
    }

    predicate Storable(a: word) {
      Loadable(a) && a / 4 !in clean && a / 4 !in rom
    }

    /* domem. Not ok is an exception. */
    method DoMem(a: word, val: word, iswrite: bool, willWrite: bool) returns (ok: bool, out: word)
      requires iswrite ==> willWrite
      modifies mem
      ensures ok <==> Loadable(a) && (willWrite ==> a / 4 !in clean) && (iswrite ==> a / 4 !in rom)
      ensures ok && !iswrite ==> out == mem[a / 4]
      ensures mem[..] == if ok && iswrite then old(mem[..])[a / 4 := val] else old(mem[..])
    {
      out := val;
      ok := a % 4 == 0 && a / 4 < mem.Length && !(willWrite && a / 4 in clean) && !(iswrite && a / 4 in rom);
      if ok {
        if iswrite {
          mem[a / 4] := val;
        } else {
          out := mem[a / 4];
        }
      }
    }

    /* The aligned address an access goes to; an odd halfword address stays
       odd, and so raises an address error. */
    function Target(ms: Style, a: word): word {
      if ms.SHalf? || ms.UHalf? then a - a / 2 % 2 * 2 else a - a % 4
    }

    lemma TargetAligned(ms: Style, a: word)
      ensures Target(ms, a) % 4 == 0 <==> (ms.SHalf? || ms.UHalf? ==> a % 2 == 0)
      ensures Target(ms, a) % 4 == 0 ==> Target(ms, a) / 4 == a / 4
    {
      Quarters(a, a / 4, a % 4);
      Quarters(Target(ms, a), a / 4, if (ms.SHalf? || ms.UHalf?) && a % 2 == 1 then 1 else 0);
    }

    /* doload. */
    method DoLoad(ms: Style, a: word, res: word) returns (ok: bool, out: word)
      modifies mem
      ensures mem[..] == old(mem[..])
      ensures ok <==> (ms.SHalf? || ms.UHalf? ==> a % 2 == 0) && a / 4 < mem.Length
      ensures !ok ==> out == res
      ensures ok ==> Start(ms, a) + Length(ms, a) <= |Bytes(mem[..])|
                     && out == LoadedFrom(Bytes(mem[..])[Start(ms, a)..Start(ms, a) + Length(ms, a)], ms, res)
    {
      hide Byte, Bytes, LoadWord, LoadedFrom, Start, Length, Target;
      TargetAligned(ms, a);
      var val;
      ok, val := DoMem(Target(ms, a), 0, false, false);
      out := res;
      if ok {
        out := LoadWord(val, ms, a, res);
        Extent(ms, a);
        LoadIsBytes(val, ms, a, res);
        InWord(mem[..], a / 4, Start(ms, a) % 4, Length(ms, a), Start(ms, a), Start(ms, a) + Length(ms, a));
      }
    }

    /* dostore: read, merge, write back. If either access is refused nothing changes. */
    method DoStore(ms: Style, a: word, val: word) returns (ok: bool)
      requires ms.UByte? || ms.UHalf? || ms.WordL? || ms.WordR?
      modifies mem
      ensures ok <==> (ms.UHalf? ==> a % 2 == 0) && Storable(a - a % 4)
      ensures !ok ==> mem[..] == old(mem[..])
      ensures ok ==> Start(ms, a) + Length(ms, a) <= |Bytes(old(mem[..]))|
                     && Bytes(mem[..]) == Spliced(Bytes(old(mem[..])), Start(ms, a), StoredBytes(ms, a, val))
    {
      hide Byte, Bytes, StoreWord, Spliced, Start, Length, Target, StoredBytes;
      TargetAligned(ms, a);
      var wval;
      ok, wval := DoMem(Target(ms, a), 0, false, true);
      if !ok {
        return;
      }
      ghost var was := mem[..];
      Extent(ms, a);
      StoreIsBytes(wval, ms, a, val);
      wval := StoreWord(wval, ms, a, val);
      var unused;
      ok, unused := DoMem(Target(ms, a), wval, true, true);
      if ok {
        WordReplaced(was, a / 4, wval, Start(ms, a) % 4, StoredBytes(ms, a, val), mem[..]);
      }
    }
  }

  // ------------------------------------------------------------------
  // What programs rely on

  /** LWL a then LWR a + 3 loads the four bytes at any address. */
  lemma UnalignedLoad(b: seq<byte>, a: word, res: word)
    requires |b| % 4 == 0 && a + 4 <= |b| <= TWO_32
    ensures var left := LoadedFrom(b[Start(WordL, a)..Start(WordL, a) + Length(WordL, a)], WordL, res);
            Start(WordR, a + 3) + Length(WordR, a + 3) <= |b| &&
            LoadedFrom(b[Start(WordR, a + 3)..Start(WordR, a + 3) + Length(WordR, a + 3)], WordR, left)
            == Spelled(b[a..a + 4])
  {
    hide Byte, Spelled;
    var k := a % 4;
    Boundary(a);
    var s := b[a..a + 4 - k] + LowBytes(res, k);
    BytesOfSpelled(s);
    if k == 0 {
      assert HighBytes(Spelled(s), 0) + b[a..a + 4] == b[a..a + 4];
    } else {
      assert HighBytes(Spelled(s), 4 - k) + b[a + 4 - k..a + 4] == b[a..a + 4];
    }
  }

  /** SWL a then SWR a + 3 stores the word there, and changes no other byte. */
  lemma UnalignedStore(b: seq<byte>, a: word, val: word)
    requires |b| % 4 == 0 && a + 4 <= |b| <= TWO_32
    ensures Start(WordL, a) + Length(WordL, a) <= |b| && Start(WordR, a + 3) + Length(WordR, a + 3) <= |b|
    ensures var left := Spliced(b, Start(WordL, a), StoredBytes(WordL, a, val));
            Spliced(left, Start(WordR, a + 3), StoredBytes(WordR, a + 3, val)) == Spliced(b, a, WordBytes(val))
  {
    hide Byte;
    Boundary(a);
  }

  lemma Boundary(a: word)
    requires a + 3 < TWO_32
    ensures Start(WordL, a) == a && Length(WordL, a) == 4 - a % 4
    ensures a % 4 == 0 ==> Start(WordR, a + 3) == a && Length(WordR, a + 3) == 4
    ensures a % 4 != 0 ==> Start(WordR, a + 3) == a + 4 - a % 4 && Length(WordR, a + 3) == a % 4
  {
    if a % 4 == 0 {
      Div4(a / 4, 3);
    } else {
      Div4(a / 4 + 1, a % 4 - 1);
    }
  }

  /** Store, then load from the same place: a byte or halfword comes back, as it
      was or with its sign, and a word that was stored in two halves comes back
      whole. */
  lemma StoreThenLoad(b: seq<byte>, a: word, val: word, res: word)
    ensures a + 1 <= |b| ==>
              var s := Spliced(b, a, StoredBytes(UByte, a, val))[a..a + 1];
              LoadedFrom(s, UByte, res) == val % B1 && LoadedFrom(s, SByte, res) == Signed8(val % B1)
    ensures a + 2 <= |b| ==>
              var s := Spliced(b, a, StoredBytes(UHalf, a, val))[a..a + 2];
              LoadedFrom(s, UHalf, res) == val % B2 && LoadedFrom(s, SHalf, res) == Signed16(val % B2)
    ensures a + 4 <= |b| ==> Spelled(Spliced(b, a, WordBytes(val))[a..a + 4]) == val
    ensures a + 1 <= |b| ==>
              var r := LoadedFrom(Spliced(b, a, StoredBytes(UByte, a, val))[a..a + 1], SByte, res);
              -128 <= Value32(r) < 128 && r % 0x100 == val % 0x100
    ensures a + 2 <= |b| ==>
              var r := LoadedFrom(Spliced(b, a, StoredBytes(UHalf, a, val))[a..a + 2], SHalf, res);
              -32768 <= Value32(r) < 32768 && r % 0x1_0000 == val % 0x1_0000
  {
    hide Byte, Signed8, Signed16;
    SignExtends(val % B1, val % B2);
    CutsOf(val);
    if a + 4 <= |b| {
      assert Spliced(b, a, WordBytes(val))[a..a + 4] == WordBytes(val);
    }
  }
}
