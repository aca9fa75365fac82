/**
 Where a sector is on the disk, and how long until the platter brings it
 round, in the 32-bit arithmetic the drive model uses.

 The number of sectors on each track is given; how it is chosen from the
 platter's geometry is not part of this model.
 */
module DiskTiming {
  import opened Words

  const SECOND: nat := 1_000_000_000

  /* Unsigned 32-bit addition, subtraction and multiplication. */
  function Add32(a: word, b: word): word {
    if a + b < TWO_32 then a + b else a + b - TWO_32
  }

  function Sub32(a: word, b: word): word {
    if a >= b then a - b else a - b + TWO_32
  }

  function Mul32(a: word, b: word): word {
    a * b % TWO_32
  }

  // ------------------------------------------------------------------
  // Sectors and tracks

  function Sum(s: seq<word>): nat {
    if s == [] then 0 else s[0] + Sum(s[1..])
  }

  /* Sectors are numbered from the outermost track, which is the last one. */
  function SectorAt(s: seq<word>, track: nat, offset: nat): nat
    requires track < |s|
  {
    Sum(s[track + 1..]) + offset
  }

  lemma {:induction false} SumFrom(s: seq<word>, i: nat)
    requires i < |s|
    ensures Sum(s[i..]) == s[i] + Sum(s[i + 1..])
  {
    assert s[i..][1..] == s[i + 1..];
  }

  lemma {:induction false} SumSuffix(s: seq<word>, i: nat)
    requires i <= |s|
    ensures Sum(s[i..]) <= Sum(s)
    decreases i
  {
    if i == 0 {
      assert s[0..] == s;
    } else {
      SumFrom(s, i - 1);
      SumSuffix(s, i - 1);
    }
  }

  /* locate_sector. A sector past the end stops the machine. */
  method LocateSector(sectors: seq<word>, sector: word) returns (track: int, offset: word)
    requires Sum(sectors) < TWO_32
    ensures track < 0 <==> sector >= Sum(sectors)
    ensures track >= 0 ==> track < |sectors| && offset < sectors[track] && sector == SectorAt(sectors, track, offset)
  {
    var i := |sectors|;
    var start: word := 0;
    while i > 0
      invariant 0 <= i <= |sectors| && start == Sum(sectors[i..]) <= sector
    {
      var tr := i - 1;
      SumFrom(sectors, tr);
      SumSuffix(sectors, tr);
      var end := Add32(start, sectors[tr]);
      if sector >= start && sector < end {
        return tr, sector - start;
      }
      start := end;
      i := i - 1;
    }
    assert sectors[0..] == sectors;
    return -1, 0;
  }

  lemma {:induction false} TracksApart(s: seq<word>, i: nat, j: nat)
    requires i < j < |s|
    ensures Sum(s[j + 1..]) + s[j] <= Sum(s[i + 1..])
    decreases j
  {
    SumFrom(s, j);
    if i + 1 < j {
      TracksApart(s, i, j - 1);
    }
  }

  /** No two places have the same sector number, so locating is the inverse of
      numbering. */
  lemma OnePlace(s: seq<word>, t1: nat, o1: nat, t2: nat, o2: nat)
    requires t1 < |s| && o1 < s[t1] && t2 < |s| && o2 < s[t2]
    requires SectorAt(s, t1, o1) == SectorAt(s, t2, o2)
    ensures t1 == t2 && o1 == o2
  {
    if t1 < t2 {
      TracksApart(s, t1, t2);
    } else if t2 < t1 {
      TracksApart(s, t2, t1);
    }
  }

  // ------------------------------------------------------------------
  // Rotation

  /* dd_nsecs_per_rev; at least 60 rpm, in whole revolutions per second. */
  predicate Revolution(rev: word, rpm: nat) {
    rpm % 60 == 0 && 60 <= rpm < 0x8000_0000 && rev == SECOND / (rpm / 60)
  }

  lemma RevolutionFits(rev: word, rpm: nat)
    requires Revolution(rev, rpm)
    ensures 0 < rev <= SECOND
    ensures rev * (rpm / 60) <= 1_000_000_000 < (rev + 1) * (rpm / 60)
  {
    var n := rpm / 60;
    assert 1 <= n <= SECOND;
    assert SECOND == n * (SECOND / n) + SECOND % n;
    assert n * 0 == 0;
    assert (n - 1) * rev >= 0;
    assert n * rev == (n - 1) * rev + rev;
  }

  /* The first time from `bound` on, in steps of one revolution from x. */
  function FirstFrom(x: nat, rev: word, bound: nat): (r: nat)
    requires rev > 0
    ensures r >= bound && r >= x
    ensures r > x ==> r < bound + rev
    decreases if x >= bound then 0 else bound - x
  {
    if x >= bound then x else FirstFrom(x + rev, rev, bound)
  }

  /** It is the earliest such time: whole revolutions after x, and not one fewer. */
  lemma {:induction false} FirstIsEarliest(x: nat, rev: word, bound: nat, k: nat)
    requires rev > 0 && x + k * rev >= bound
    ensures FirstFrom(x, rev, bound) <= x + k * rev
    ensures exists n: nat :: FirstFrom(x, rev, bound) == x + n * rev
    decreases if x >= bound then 0 else bound - x
  {
    if x >= bound {
      assert FirstFrom(x, rev, bound) == x + 0 * rev;
    } else {
      assert k > 0;
      assert x + rev + (k - 1) * rev == x + k * rev;
      FirstIsEarliest(x + rev, rev, bound, k - 1);
      var n: nat :| FirstFrom(x + rev, rev, bound) == x + rev + n * rev;
      assert FirstFrom(x, rev, bound) == x + (n + 1) * rev;
    }
  }

  /* A sector passes in a whole number of nanoseconds, rounded down. */
  function SectorTime(rev: word, sectors: word): word
    requires sectors > 0
  {
    rev / sectors
  }

  /* How far round sector k starts, in nanoseconds from position 0. */
  function StartOf(rev: word, sectors: word, k: nat): nat
    requires sectors > 0
  {
    k * SectorTime(rev, sectors)
  }

  lemma StartWithinRevolution(rev: word, sectors: word, k: nat)
    requires k < sectors
    ensures StartOf(rev, sectors, k) + SectorTime(rev, sectors) <= rev
    ensures rev > 0 ==> StartOf(rev, sectors, k) < rev
    ensures Mul32(k, SectorTime(rev, sectors)) == StartOf(rev, sectors, k)
  {
    var t := SectorTime(rev, sectors);
    assert rev == sectors * t + rev % sectors;
    assert (k + 1) * t <= sectors * t;
    assert (k + 1) * t == k * t + t;
    assert k * 0 == 0;
  }

  /* When the sector after the one wanted comes under the head, and so the one
     wanted has been read: the first time at or after the head's arrival. */
  function ReadReady(rev: word, sectors: word, offset: word, secs: nat, nsecs: nat): nat
    requires rev > 0 && sectors > 0
  {
    secs * SECOND + FirstFrom(StartOf(rev, sectors, (offset + 1) % sectors), rev, nsecs)
  }

  /** disk_readrotdelay, with arrival at the track and the present as seconds
      and nanoseconds: despite the wrapping subtractions it is exactly the time
      left until the sector has been read, none if it already has, and always
      less than a revolution. */
  method ReadRotDelay(rev: word, sectors: word, offset: word,
                      arrivalSecs: word, arrivalNsecs: word, nowSecs: word, nowNsecs: word) returns (delay: word)
    requires 0 < rev <= SECOND && 0 < sectors && offset < sectors
    requires arrivalNsecs < SECOND && nowNsecs < SECOND && arrivalSecs + 2 < TWO_32
    requires arrivalSecs * SECOND + arrivalNsecs <= nowSecs * SECOND + nowNsecs
    ensures delay == RotDelay(rev, sectors, offset, false, arrivalSecs, arrivalNsecs, nowSecs, nowNsecs) < rev
  {
    hide FirstFrom, SectorTime, StartOf, Mul32, Add32, Sub32;
    var nsecsPerSector := SectorTime(rev, sectors);
    var targSector := (offset + 1) % sectors;
    StartWithinRevolution(rev, sectors, targSector);
    var targNsecs := FirstPassing(Mul32(targSector, nsecsPerSector), rev, arrivalNsecs);
    var targSecs;
    targSecs, targNsecs := Carry(arrivalSecs, targNsecs);
    if targSecs < nowSecs || (targSecs == nowSecs && targNsecs <= nowNsecs) {
      return 0;
    }
    Difference(targSecs, targNsecs, nowSecs, nowNsecs);
    targSecs := Sub32(targSecs, nowSecs);
    targNsecs := Sub32(targNsecs, nowNsecs);
    targNsecs := Add32(targNsecs, Mul32(SECOND, targSecs));
    return targNsecs;
  }

  method FirstPassing(x: word, rev: word, bound: word) returns (t: word)
    requires 0 < rev <= SECOND && x <= rev && bound < SECOND
    ensures t == FirstFrom(x, rev, bound)
  {
    t := x;
    while t < bound
      invariant FirstFrom(t, rev, bound) == FirstFrom(x, rev, bound)
      invariant t < bound + rev || t == x
      decreases if t < bound then bound - t else 0
    {
      t := Add32(t, rev);
    }
  }

  method Carry(secs: word, nsecs: word) returns (s: word, n: word)
    requires nsecs < 2 * SECOND && secs + 2 < TWO_32
    ensures n < SECOND && s * SECOND + n == secs * SECOND + nsecs
  {
    s, n := secs, nsecs;
    while n >= SECOND
      invariant secs <= s && s * SECOND + n == secs * SECOND + nsecs
    {
      n := n - SECOND;
      s := Add32(s, 1);
    }
  }

  /* Subtracting times in 32 bits: the borrow comes back with the seconds. */
  lemma Difference(targSecs: word, targNsecs: word, nowSecs: word, nowNsecs: word)
    requires targNsecs < SECOND && nowNsecs < SECOND
    requires nowSecs <= targSecs <= nowSecs + 1
    requires targSecs == nowSecs ==> targNsecs >= nowNsecs
    ensures Add32(Sub32(targNsecs, nowNsecs), Mul32(SECOND, Sub32(targSecs, nowSecs)))
         == targSecs * SECOND + targNsecs - (nowSecs * SECOND + nowNsecs)
  {
    if targSecs == nowSecs {
      assert Mul32(SECOND, 0) == 0;
    } else {
      assert Mul32(SECOND, 1) == SECOND;
    }
  }

  /** disk_writerotdelay: the head waits for the start of the sector and then for
      it to pass. The delay is less than a revolution and a sector, and is zero
      only if the sector time rounds to nothing and the sector is here now. */
  method WriteRotDelay(rev: word, sectors: word, offset: word, nowNsecs: word) returns (delay: word)
    requires 0 < rev <= SECOND && 0 < sectors && offset < sectors && nowNsecs < SECOND
    ensures delay == RotDelay(rev, sectors, offset, true, 0, 0, 0, nowNsecs)
    ensures SectorTime(rev, sectors) <= delay
    ensures SectorTime(rev, sectors) > 0 ==> delay < rev + SectorTime(rev, sectors)
  {
    hide FirstFrom, SectorTime, StartOf, Mul32;
    var t := SectorTime(rev, sectors);
    StartWithinRevolution(rev, sectors, offset);
    var targNsecs := FirstPassing(Mul32(offset, t), rev, nowNsecs);
    targNsecs := Add32(targNsecs, t);
    return Sub32(targNsecs, nowNsecs);
  }

  /* How long the platter takes to finish bringing a sector round. */
  function RotDelay(rev: word, sectors: word, offset: word, isWrite: bool,
                    arrivalSecs: word, arrivalNsecs: word, secs: word, nsecs: word): nat
    requires rev > 0 && sectors > 0
  {
    if isWrite then
      FirstFrom(StartOf(rev, sectors, offset), rev, nsecs) + SectorTime(rev, sectors) - nsecs
    else
      var ready := ReadReady(rev, sectors, offset, arrivalSecs, arrivalNsecs);
      if ready <= secs * SECOND + nsecs then 0 else ready - (secs * SECOND + nsecs)
  }

  lemma WriteDelayIgnoresArrival(rev: word, sectors: word, offset: word, arrivalSecs: word, arrivalNsecs: word,
                                 secs: word, nsecs: word)
    requires rev > 0 && sectors > 0
    ensures RotDelay(rev, sectors, offset, true, arrivalSecs, arrivalNsecs, secs, nsecs)
         == RotDelay(rev, sectors, offset, true, 0, 0, 0, nsecs)
  {
  }

  /** Sectors are numbered along each track and then the next one inwards, from the
      start of the outermost track, which is the last. */
  lemma Numbering(s: seq<word>, track: nat, offset: nat)
    requires track < |s| && offset < s[track]
    ensures track == |s| - 1 && offset == 0 ==> SectorAt(s, track, offset) == 0
    ensures offset > 0 ==> SectorAt(s, track, offset) == SectorAt(s, track, offset - 1) + 1
    ensures offset == 0 && track + 1 < |s| ==> SectorAt(s, track, 0) == SectorAt(s, track + 1, 0) + s[track + 1]
  {
    if track + 1 < |s| {
      SumFrom(s, track + 1);
    }
  }

  /* t is the first time no sooner than `bound` that is x or whole turns after it. */
  predicate FirstPass(x: nat, rev: nat, bound: nat, t: nat)
    requires rev > 0
  {
    t >= bound && (t == x || (x < t < bound + rev && (t - x) % rev == 0))
  }

  lemma {:induction false} FirstFromPasses(x: nat, rev: word, bound: nat)
    requires rev > 0
    ensures FirstPass(x, rev, bound, FirstFrom(x, rev, bound))
    decreases if x >= bound then 0 else bound - x
  {
    hide FirstPass;
    if x < bound {
      FirstFromPasses(x + rev, rev, bound);
      PassesSooner(x, rev, bound, FirstFrom(x + rev, rev, bound));
    } else {
      AlreadyThere(x, rev, bound);
    }
  }

  lemma AlreadyThere(x: nat, rev: nat, bound: nat)
    requires rev > 0 && x >= bound
    ensures FirstPass(x, rev, bound, x)
  {
  }

  lemma PassesSooner(x: nat, rev: nat, bound: nat, t: nat)
    requires rev > 0 && x < bound && FirstPass(x + rev, rev, bound, t)
    ensures FirstPass(x, rev, bound, t)
  {
    if t == x + rev {
      Quotient(rev, rev, 1, 0);
    } else {
      OneTurnMore(t - (x + rev), rev);
      assert t - (x + rev) + rev == t - x;
    }
  }

  lemma OneTurnMore(m: nat, rev: nat)
    requires rev > 0 && m % rev == 0
    ensures (m + rev) % rev == 0
  {
    assert m == rev * (m / rev);
    assert rev * (m / rev + 1) == rev * (m / rev) + rev;
    Quotient(m + rev, rev, m / rev + 1, 0);
  }

  /* Where the platter has to be for a read to be over: at the sector after. */
  function After(rev: word, sectors: word, offset: word): nat
    requires offset < sectors
  {
    if offset + 1 == sectors then 0 else (offset + 1) * (rev / sectors)
  }

  lemma AfterIs(rev: word, sectors: word, offset: word)
    requires offset < sectors
    ensures After(rev, sectors, offset) == StartOf(rev, sectors, (offset + 1) % sectors)
  {
    Quotient(offset + 1, sectors, if offset + 1 == sectors then 1 else 0, if offset + 1 == sectors then 0 else offset + 1);
    Same((offset + 1) % sectors, offset + 1, rev, sectors);
  }

  lemma Same(k: nat, next: nat, rev: word, sectors: word)
    requires sectors > 0 && k == if next == sectors then 0 else next
    ensures StartOf(rev, sectors, k) == if next == sectors then 0 else next * (rev / sectors)
  {
  }

  /** What the delay is for. A write waits until the start of its sector is under the
      head, from now on, and then for the sector to pass. A read waits until the start
      of the sector after its own is under the head, the first time from the arrival
      at the track on; if that is over, not at all. */
  lemma RotDelayMeans(rev: word, sectors: word, offset: word, arrivalSecs: word, arrivalNsecs: word,
                      secs: word, nsecs: word)
    requires rev > 0 && offset < sectors
    ensures var delay := RotDelay(rev, sectors, offset, true, arrivalSecs, arrivalNsecs, secs, nsecs);
            && nsecs + delay >= rev / sectors
            && FirstPass(offset * (rev / sectors), rev, nsecs, nsecs + delay - rev / sectors)
    ensures exists t: nat :: FirstPass(After(rev, sectors, offset), rev, arrivalNsecs, t) &&
              RotDelay(rev, sectors, offset, false, arrivalSecs, arrivalNsecs, secs, nsecs)
              == Left(arrivalSecs * 1_000_000_000 + t, secs * 1_000_000_000 + nsecs)
  {
    hide FirstFrom, FirstPass, After;
    FirstFromPasses(offset * (rev / sectors), rev, nsecs);
    AfterIs(rev, sectors, offset);
    FirstFromPasses(After(rev, sectors, offset), rev, arrivalNsecs);
  }

  function Left(until: nat, now: nat): nat {
    if until <= now then 0 else until - now
  }
}
