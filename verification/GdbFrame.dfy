/**
 The debugger's packets: `$payload#cc`, cut out of a stream that arrives in
 pieces through a fixed buffer, and the checksum by which one is taken.

 Characters are signed, as they are where this is built.
 */
module GdbFrame {

  type schar = x: int | -128 <= x < 128

  const DOLLAR: schar := 36
  const HASH: schar := 35
  const BUFLEN: nat := 1024

  /* memchr, from position `from`: where the character first is, or the end. */
  function Find(s: seq<schar>, c: schar, from: nat): (r: nat)
    requires from <= |s|
    ensures from <= r <= |s|
    ensures r < |s| ==> s[r] == c
    ensures forall i :: from <= i < r ==> s[i] != c
    decreases |s| - from
  {
    if from == |s| then from else if s[from] == c then from else Find(s, c, from + 1)
  }

  /* Where the first packet ends, or 0 if there is none yet. */
  function PacketEnd(s: seq<schar>): (r: nat)
    ensures r <= |s| && (r > 0 ==> Find(s, DOLLAR, 0) + 4 <= r)
  {
    var start := Find(s, DOLLAR, 0);
    if start == |s| then 0
    else
      var hash := Find(s, HASH, start);
      if hash == |s| || hash + 3 > |s| then 0 else hash + 3
  }

  function FirstPacket(s: seq<schar>): seq<schar>
    requires PacketEnd(s) > 0
  {
    s[Find(s, DOLLAR, 0)..PacketEnd(s)]
  }

  /* All the packets of a stream, and what is left over. */
  function Packets(s: seq<schar>): seq<seq<schar>>
    decreases |s|
  {
    if PacketEnd(s) == 0 then [] else [FirstPacket(s)] + Packets(s[PacketEnd(s)..])
  }

  function Rest(s: seq<schar>): (r: seq<schar>)
    ensures |r| <= |s|
    decreases |s|
  {
    if PacketEnd(s) == 0 then s else Rest(s[PacketEnd(s)..])
  }

  lemma {:induction false} FindPrefix(s: seq<schar>, t: seq<schar>, c: schar, from: nat)
    requires from <= |s|
    ensures Find(s, c, from) < |s| ==> Find(s + t, c, from) == Find(s, c, from)
    decreases |s| - from
  {
    if from < |s| && s[from] != c {
      FindPrefix(s, t, c, from + 1);
    }
  }

  lemma FirstPacketPrefix(s: seq<schar>, t: seq<schar>)
    requires PacketEnd(s) > 0
    ensures PacketEnd(s + t) == PacketEnd(s) && FirstPacket(s + t) == FirstPacket(s)
  {
    FindPrefix(s, t, DOLLAR, 0);
    FindPrefix(s, t, HASH, Find(s, DOLLAR, 0));
  }

  /** It does not matter where the stream is cut: the packets of the whole are
      those of the first piece and then those of what it left with the second. */
  lemma {:induction false} ChunksDoNotMatter(s: seq<schar>, t: seq<schar>)
    ensures Packets(s + t) == Packets(s) + Packets(Rest(s) + t)
    ensures Rest(s + t) == Rest(Rest(s) + t)
    decreases |s|
  {
    if PacketEnd(s) > 0 {
      FirstPacketPrefix(s, t);
      var end := PacketEnd(s);
      assert (s + t)[end..] == s[end..] + t;
      ChunksDoNotMatter(s[end..], t);
    }
  }

  // ------------------------------------------------------------------
  // The checksum

  function Sum(s: seq<schar>): int {
    if s == [] then 0 else Sum(s[..|s| - 1]) + s[|s| - 1]
  }

  /* The remainder as C has it, with the sign of the dividend. */
  function CMod(a: int, b: int): int
    requires b > 0
  {
    if a >= 0 then a % b else -((-a) % b)
  }

  function HexDigit(d: nat): schar
    requires d < 16
  {
    if d < 10 then 48 + d else 87 + d
  }

  function HexValue(c: schar): int {
    if 48 <= c <= 57 then c - 48
    else if 97 <= c <= 102 then c - 87
    else if 65 <= c <= 70 then c - 55
    else -1
  }

  predicate Space(c: schar) {
    c == 32 || 9 <= c <= 13
  }

  /* strtoul in base 16 on two characters. */
  function Strtoul(a: schar, b: schar): int {
    var x, y := HexValue(a), HexValue(b);
    if x >= 0 then (if y >= 0 then 16 * x + y else x)
    else if Space(a) || a == 43 then (if y >= 0 then y else 0)
    else if a == 45 then (if y >= 0 then -y else 0)
    else 0
  }

  /* snprintf(8, "#%02x"): two digits, or for a negative number the first six
     of eight. */
  function CheckString(check: int): seq<schar>
    requires -256 < check < 256
  {
    if check >= 0 then [HASH, HexDigit(check / 16), HexDigit(check % 16)]
    else [HASH, 102, 102, 102, 102, 102, 102]
  }

  /* What debug_send writes. */
  function Frame(payload: seq<schar>): seq<schar> {
    [DOLLAR] + payload + CheckString(CMod(Sum(payload), 256))
  }

  /* What debug_exec makes of a packet before it looks at the command: nothing,
     if a NUL hides the checksum; a refusal; or the payload. */
  datatype Reply = Ignored | Nak | Ack(payload: seq<schar>)

  function Executed(pkt: seq<schar>): Reply
    requires |pkt| >= 4 && Find(pkt, HASH, 0) == |pkt| - 3
  {
    var hash := |pkt| - 3;
    if pkt[0] != DOLLAR || Find(pkt, 0, 0) < hash then Ignored
    else if Strtoul(pkt[hash + 1], pkt[hash + 2]) != CMod(Sum(pkt[1..hash]), 256) then Nak
    else Ack(pkt[1..hash])
  }

  /* The payloads that can be sent as a C string and not cut short. */
  predicate Sendable(payload: seq<schar>) {
    0 !in payload && HASH !in payload
  }

  lemma {:induction false} FindBeyond(p: seq<schar>, t: seq<schar>, c: schar, from: nat)
    requires from <= |p| && (forall i :: from <= i < |p| ==> p[i] != c) && t != [] && t[0] == c
    ensures Find(p + t, c, from) == |p|
    decreases |p| - from
  {
    if from < |p| {
      FindBeyond(p, t, c, from + 1);
    }
  }

  /* The packet a frame gives: the first three characters of the check string. */
  function Packet(payload: seq<schar>): seq<schar> {
    [DOLLAR] + payload + CheckString(CMod(Sum(payload), 256))[..3]
  }

  lemma Extracted(b: seq<schar>, cs: seq<schar>, t: seq<schar>, s: seq<schar>)
    requires b != [] && b[0] == DOLLAR && HASH !in b && |cs| >= 3 && cs[0] == HASH && s == b + cs + t
    ensures PacketEnd(s) == |b| + 3 && FirstPacket(s) == b + cs[..3]
    ensures s[PacketEnd(s)..] == cs[3..] + t
  {
    assert s == b + (cs + t) && s[0] == DOLLAR;
    assert Find(s, DOLLAR, 0) == 0;
    FindBeyond(b, cs + t, HASH, 0);
    Cut(b, cs, t, s);
  }

  lemma Cut(b: seq<schar>, cs: seq<schar>, t: seq<schar>, s: seq<schar>)
    requires |cs| >= 3 && s == b + cs + t
    ensures s[..|b| + 3] == b + cs[..3] && s[|b| + 3..] == cs[3..] + t
  {
  }

  /** A frame gives back its payload, whatever follows it in the stream; a
      checksum that came out negative leaves four characters of rubbish. */
  lemma FrameExtracted(payload: seq<schar>, t: seq<schar>)
    requires Sendable(payload)
    ensures var s := Frame(payload) + t;
            && PacketEnd(s) == |payload| + 4
            && FirstPacket(s) == Packet(payload)
            && s[PacketEnd(s)..] == CheckString(CMod(Sum(payload), 256))[3..] + t
  {
    hide Sum, PacketEnd, FirstPacket;
    Extracted([DOLLAR] + payload, CheckString(CMod(Sum(payload), 256)), t, Frame(payload) + t);
  }

  lemma {:induction false} FindAfter(g: seq<schar>, s: seq<schar>, c: schar, from: nat)
    requires from <= |s|
    ensures Find(g + s, c, |g| + from) == |g| + Find(s, c, from)
    decreases |s| - from
  {
    if from < |s| && s[from] != c {
      FindAfter(g, s, c, from + 1);
    }
  }

  /** What comes before the dollar is skipped, acknowledgements and stray hashes alike. */
  lemma GarbageSkipped(g: seq<schar>, payload: seq<schar>, t: seq<schar>)
    requires Sendable(payload) && DOLLAR !in g
    ensures var s := g + (Frame(payload) + t);
            PacketEnd(s) == |g| + |payload| + 4 && FirstPacket(s) == Packet(payload)
  {
    hide Sum, CheckString;
    var f := Frame(payload) + t;
    FrameExtracted(payload, t);
    FindBeyond(g, f, DOLLAR, 0);
    FindAfter(g, f, HASH, 0);
    assert f[0] == DOLLAR && Find(f, DOLLAR, 0) == 0;
    assert (g + f)[|g|..|g| + PacketEnd(f)] == f[..PacketEnd(f)];
  }

  lemma HexRoundTrip(check: nat)
    requires check < 256
    ensures Strtoul(HexDigit(check / 16), HexDigit(check % 16)) == check
  {
    HexDigitValue(check / 16);
    HexDigitValue(check % 16);
  }

  lemma HexDigitValue(d: nat)
    requires d < 16
    ensures HexValue(HexDigit(d)) == d
  {
  }

  /** A framed payload passes the checksum exactly when its own sum does not
      leave a negative remainder. */
  lemma FrameAccepted(payload: seq<schar>)
    requires Sendable(payload)
    ensures var pkt := Packet(payload);
            && |pkt| >= 4 && Find(pkt, HASH, 0) == |pkt| - 3
            && Executed(pkt) == if CMod(Sum(payload), 256) >= 0 then Ack(payload) else Nak
  {
    var check := CMod(Sum(payload), 256);
    var pkt, cs := Packet(payload), CheckString(check)[..3];
    assert pkt == ([DOLLAR] + payload) + cs;
    FindBeyond([DOLLAR] + payload, cs, HASH, 0);
    assert Find(pkt, 0, 0) >= |pkt| - 3;
    assert pkt[1..|pkt| - 3] == payload;
    if check >= 0 {
      HexRoundTrip(check);
    } else {
      assert Strtoul(102, 102) == 255;
    }
  }

  /** The checksum is the sum of the characters: of two strings, the two sums. */
  lemma {:induction false} SumOfParts(s: seq<schar>, t: seq<schar>, c: schar)
    ensures Sum(s + t) == Sum(s) + Sum(t)
    ensures Sum([c]) == c && Sum([]) == 0
    decreases |t|
  {
    assert [c][..0] == [];
    if t == [] {
      assert s + t == s;
    } else {
      SumOfParts(s, t[..|t| - 1], c);
      assert (s + t)[..|s + t| - 1] == s + t[..|t| - 1];
    }
  }

  /** In bytes, a packet is accepted if and only if the two hexadecimal digits after
      it, in either case, are its sum modulo 256, where that is not negative. */
  lemma DigitsDecide(payload: seq<schar>, a: schar, b: schar)
    requires Sendable(payload) && Sum(payload) >= 0 && HexValue(a) >= 0 && HexValue(b) >= 0 && a != HASH && b != HASH
    ensures var pkt := [DOLLAR] + payload + [HASH, a, b];
            && |pkt| >= 4 && Find(pkt, HASH, 0) == |pkt| - 3
            && Executed(pkt) == if 16 * HexValue(a) + HexValue(b) == Sum(payload) % 256 then Ack(payload) else Nak
  {
    var pkt := [DOLLAR] + payload + [HASH, a, b];
    FindBeyond([DOLLAR] + payload, [HASH, a, b], HASH, 0);
    assert Find(pkt, 0, 0) >= |pkt| - 3;
    assert pkt[1..|pkt| - 3] == payload;
  }

  /** The reply OK goes out as $OK#9a. */
  lemma OkReply()
    ensures Frame([79, 75]) == [36, 79, 75, 35, 57, 97]
  {
    SumOfParts([79], [75], 79);
    SumOfParts([], [], 75);
    assert [79] + [75] == [79, 75];
  }

  predicate SevenBit(payload: seq<schar>) {
    Sendable(payload) && forall i :: 0 <= i < |payload| ==> payload[i] > 0
  }

  lemma {:induction false} SevenBitSum(payload: seq<schar>)
    requires SevenBit(payload)
    ensures Sum(payload) >= 0
  {
    if payload != [] {
      SevenBitSum(payload[..|payload| - 1]);
    }
  }

  function Frames(payloads: seq<seq<schar>>): seq<schar> {
    if payloads == [] then [] else Frame(payloads[0]) + Frames(payloads[1..])
  }

  /** Deframing inverts framing: a stream of framed seven-bit payloads comes out
      as those payloads, every one accepted, with nothing left over. */
  lemma {:induction false} DeframingInvertsFraming(payloads: seq<seq<schar>>)
    requires forall i :: 0 <= i < |payloads| ==> SevenBit(payloads[i])
    ensures Rest(Frames(payloads)) == []
    ensures |Packets(Frames(payloads))| == |payloads|
    ensures forall i :: 0 <= i < |payloads| ==>
              var pkt := Packets(Frames(payloads))[i];
              |pkt| >= 4 && Find(pkt, HASH, 0) == |pkt| - 3 && Executed(pkt) == Ack(payloads[i])
    decreases |payloads|
  {
    hide Sum, PacketEnd, FirstPacket, Executed, Find, Frame, Packet;
    if payloads != [] {
      var p, t := payloads[0], Frames(payloads[1..]);
      SevenBitSum(p);
      FrameExtracted(p, t);
      FrameAccepted(p);
      DeframingInvertsFraming(payloads[1..]);
      var s := Frames(payloads);
      assert CheckString(CMod(Sum(p), 256))[3..] + t == t;
      assert Packets(s) == [Packet(p)] + Packets(t) && Rest(s) == Rest(t);
    }
  }

  // ------------------------------------------------------------------
  // The connection, updated in place

  method MemChr(a: array<schar>, c: schar, from: nat, to: nat) returns (r: nat)
    requires from <= to <= a.Length
    ensures r == Find(a[..to], c, from)
  {
    r := from;
    while r < to
      invariant from <= r <= to && Find(a[..to], c, from) == Find(a[..to], c, r)
    {
      if a[r] == c {
        return;
      }
      r := r + 1;
    }
  }

  method Checksum(s: seq<schar>) returns (check: int)
    ensures check == Sum(s)
  {
    check := 0;
    var i := 0;
    while i < |s|
      invariant i <= |s| && check == Sum(s[..i])
    {
      assert s[..i + 1][..i] == s[..i];
      check := check + s[i];
      i := i + 1;
    }
    assert s[..i] == s;
  }

  method DebugSend(payload: seq<schar>) returns (frame: seq<schar>)
    requires 0 !in payload
    ensures frame == Frame(payload)
  {
    var check := Checksum(payload);
    check := if check >= 0 then check % 256 else -((-check) % 256);
    frame := [DOLLAR] + payload + CheckString(check);
  }

  lemma Unfold(s: seq<schar>)
    ensures PacketEnd(s) == 0 ==> Packets(s) == [] && Rest(s) == s
    ensures PacketEnd(s) > 0 ==>
              && Packets(s) == [FirstPacket(s)] + Packets(s[PacketEnd(s)..])
              && Rest(s) == Rest(s[PacketEnd(s)..])
              && FirstPacket(s) == s[Find(s, DOLLAR, 0)..PacketEnd(s)]
  {
  }

  // ------------------------------------------------------------------
  // A stream in pieces

  /* What a read is put after: an overfull buffer is emptied first. */
  function Before(left: seq<schar>): seq<schar> {
    if |left| >= BUFLEN then [] else left
  }

  /* Feeding the pieces of a stream one by one, each onto what the last left. */
  function Fed(left: seq<schar>, pieces: seq<seq<schar>>): (seq<seq<schar>>, seq<schar>)
    decreases |pieces|
  {
    if pieces == [] then ([], left)
    else
      var s := Before(left) + pieces[0];
      var (more, rest) := Fed(Rest(s), pieces[1..]);
      (Packets(s) + more, rest)
  }

  /* No read asks for more than there is room for. */
  predicate Readable(left: seq<schar>, pieces: seq<seq<schar>>)
    decreases |pieces|
  {
    pieces == []
    || (|Before(left)| + |pieces[0]| <= BUFLEN && Readable(Rest(Before(left) + pieces[0]), pieces[1..]))
  }

  /* What is left over never fills the buffer when there is more to come. */
  predicate Roomy(left: seq<schar>, pieces: seq<seq<schar>>)
    decreases |pieces|
  {
    pieces == [] || (|left| < BUFLEN && Roomy(Rest(left + pieces[0]), pieces[1..]))
  }

  predicate Small(packets: seq<seq<schar>>) {
    forall i :: 0 <= i < |packets| ==> |packets[i]| < BUFLEN
  }

  function Joined(pieces: seq<seq<schar>>): seq<schar> {
    if pieces == [] then [] else pieces[0] + Joined(pieces[1..])
  }

  /** However a stream is cut into pieces, while what is left over never fills
      the buffer the packets handed on and what is left are those of the stream. */
  lemma {:induction false} AnyPieces(left: seq<schar>, pieces: seq<seq<schar>>)
    requires PacketEnd(left) == 0 && Roomy(left, pieces)
    ensures Fed(left, pieces) == (Packets(left + Joined(pieces)), Rest(left + Joined(pieces)))
    decreases |pieces|
  {
    hide PacketEnd;
    if pieces == [] {
      assert left + [] == left;
    } else {
      var s, t := left + pieces[0], Joined(pieces[1..]);
      NothingComplete(s);
      AnyPieces(Rest(s), pieces[1..]);
      ChunksDoNotMatter(s, t);
      assert left + Joined(pieces) == s + t;
    }
  }

  lemma {:induction false} NothingComplete(s: seq<schar>)
    ensures PacketEnd(Rest(s)) == 0
    decreases |s|
  {
    if PacketEnd(s) > 0 {
      NothingComplete(s[PacketEnd(s)..]);
    }
  }

  lemma SmallParts(a: seq<seq<schar>>, b: seq<seq<schar>>, c: seq<seq<schar>>)
    requires !Small(b)
    ensures !Small(a + b + c)
  {
    var i :| 0 <= i < |b| && |b[i]| >= BUFLEN;
    assert (a + b + c)[|a| + i] == b[i];
  }

  /* What was handed on, with what the pieces left will give, makes the whole. */
  ghost predicate SoFar(left0: seq<schar>, pieces0: seq<seq<schar>>, done: seq<seq<schar>>,
                        left: seq<schar>, pieces: seq<seq<schar>>) {
    Fed(left0, pieces0) == (done + Fed(left, pieces).0, Fed(left, pieces).1)
  }

  lemma AtStart(left: seq<schar>, pieces: seq<seq<schar>>)
    ensures SoFar(left, pieces, [], left, pieces)
  {
    hide Fed;
    assert [] + Fed(left, pieces).0 == Fed(left, pieces).0;
  }

  lemma AtEnd(left0: seq<schar>, pieces0: seq<seq<schar>>, done: seq<seq<schar>>, left: seq<schar>)
    requires SoFar(left0, pieces0, done, left, [])
    ensures Fed(left0, pieces0) == (done, left)
  {
    assert done + [] == done;
  }

  lemma OneMore(left0: seq<schar>, pieces0: seq<seq<schar>>, done: seq<seq<schar>>,
                left: seq<schar>, pieces: seq<seq<schar>>)
    requires pieces != [] && SoFar(left0, pieces0, done, left, pieces)
    ensures var s := Before(left) + pieces[0];
            && SoFar(left0, pieces0, done + Packets(s), Rest(s), pieces[1..])
            && Fed(left0, pieces0).0 == done + Packets(s) + Fed(Rest(s), pieces[1..]).0
  {
    hide Packets, Rest, Before;
    var s := Before(left) + pieces[0];
    assert done + (Packets(s) + Fed(Rest(s), pieces[1..]).0) == done + Packets(s) + Fed(Rest(s), pieces[1..]).0;
  }

  // ------------------------------------------------------------------
  // The connection's buffer

  class Connection {
    const buf: array<schar>
    var bufptr: nat
    ghost var got: seq<seq<schar>>

    ghost predicate Valid()
      reads this
    {
      buf.Length == BUFLEN && bufptr <= BUFLEN
    }

    ghost function Contents(): seq<schar>
      reads this, buf
      requires Valid()
    {
      buf[..bufptr]
    }

    constructor ()
      ensures Valid() && fresh(buf) && Contents() == [] && got == []
    {
      buf := new schar[BUFLEN](_ => 0);
      bufptr, got := 0, [];
    }

    /* One read of the socket brings `chunk`, as much as fits; an overfull
       buffer is emptied first. */
    method Read(chunk: seq<schar>)
      requires Valid() && |Before(Contents())| + |chunk| <= BUFLEN
      modifies this`bufptr, buf
      ensures Valid()
      ensures Contents() == Before(old(Contents())) + chunk && got == old(got)
    {
      if bufptr >= BUFLEN {
        bufptr := 0;
      }
      ghost var was := buf[..bufptr];
      var start := bufptr;
      forall i | 0 <= i < |chunk| {
        buf[start + i] := chunk[i];
      }
      bufptr := bufptr + |chunk|;
      assert buf[..start] == was;
    }

    /* Keep only what comes after the first `used` characters. */
    method Shift(used: nat)
      requires Valid() && used <= bufptr
      modifies this`bufptr, buf
      ensures Valid() && Contents() == old(Contents())[used..]
    {
      bufptr := bufptr - used;
      forall i | 0 <= i < bufptr {
        buf[i] := buf[used + i];
      }
    }

    /* Where the first packet starts and ends; not found if it is not all there. */
    method FindPacket() returns (found: bool, offset: nat, end: nat)
      requires Valid()
      ensures found <==> PacketEnd(Contents()) > 0
      ensures found ==> offset == Find(Contents(), DOLLAR, 0) && end == PacketEnd(Contents()) && offset <= end
    {
      end := 0;
      offset := MemChr(buf, DOLLAR, 0, bufptr);
      if offset == bufptr {
        return false, offset, 0;
      }
      var hash := MemChr(buf, HASH, offset, bufptr);
      if hash == bufptr || hash + 3 > bufptr {
        return false, offset, 0;
      }
      return true, offset, hash + 3;
    }

    /* gdb_receive after the read: hand on every complete packet. A packet that
       fills the whole buffer does not fit the copy and fails an assertion. */
    method Receive() returns (ok: bool)
      requires Valid()
      modifies this, buf
      ensures Valid()
      ensures ok ==> got == old(got) + Packets(old(Contents())) && Contents() == Rest(old(Contents()))
      ensures ok <==> Small(Packets(old(Contents())))
    {
      hide Packets, Rest, Find, PacketEnd, FirstPacket;
      ghost var s0 := Contents();
      ghost var done: seq<seq<schar>> := [];
      while true
        invariant Valid() && got == old(got) + done
        invariant Packets(s0) == done + Packets(Contents()) && Rest(s0) == Rest(Contents())
        invariant forall i :: 0 <= i < |done| ==> |done[i]| < BUFLEN
        decreases bufptr
      {
        ghost var s := Contents();
        Unfold(s);
        var found, offset, end := FindPacket();
        if !found {
          assert done + [] == done;
          return true;
        }
        assert Packets(s0)[|done|] == FirstPacket(s);
        var packet := buf[..bufptr][offset..end];
        if end - offset >= BUFLEN {
          return false;
        }
        got := got + [packet];
        done := done + [packet];
        Shift(end);
      }
    }

    /** The whole connection: each piece that arrives is read and every complete
        packet handed on, until a packet that fills the buffer stops it. While
        the buffer has room the packets are those of the joined stream. */
    method Serve(pieces: seq<seq<schar>>) returns (ok: bool)
      requires Valid() && PacketEnd(Contents()) == 0 && Readable(Contents(), pieces)
      modifies this, buf
      ensures Valid()
      ensures var (packets, left) := Fed(old(Contents()), pieces);
              && (ok <==> Small(packets))
              && (ok ==> got == old(got) + packets && Contents() == left)
      ensures Roomy(old(Contents()), pieces) ==>
                var s := old(Contents()) + Joined(pieces);
                && (ok <==> Small(Packets(s)))
                && (ok ==> got == old(got) + Packets(s) && Contents() == Rest(s))
    {
      hide Packets, Rest, PacketEnd, Find, Fed, SoFar, Before;
      ghost var left0 := Contents();
      if Roomy(left0, pieces) {
        AnyPieces(left0, pieces);
      }
      ghost var done: seq<seq<schar>> := [];
      var i := 0;
      assert pieces[0..] == pieces;
      AtStart(left0, pieces);
      while i < |pieces|
        invariant Valid() && i <= |pieces| && Readable(Contents(), pieces[i..])
        invariant got == old(got) + done && Small(done)
        invariant SoFar(left0, pieces, done, Contents(), pieces[i..])
      {
        ghost var was := Contents();
        assert pieces[i..][0] == pieces[i] && pieces[i..][1..] == pieces[i + 1..];
        Read(pieces[i]);
        ghost var packets := Packets(Contents());
        OneMore(left0, pieces, done, was, pieces[i..]);
        ok := Receive();
        if !ok {
          SmallParts(done, packets, Fed(Rest(Before(was) + pieces[i]), pieces[i + 1..]).0);
          return;
        }
        assert got == old(got) + (done + packets);
        done := done + packets;
        i := i + 1;
      }
      assert pieces[i..] == [];
      AtEnd(left0, pieces, done, Contents());
      return true;
    }
  }
}
