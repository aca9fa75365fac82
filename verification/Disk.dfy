/**
 The disk controller: one status register, one timed operation at a time, and
 the passes of disk_work that take a transfer through seeking, rotation and
 copying.
 */
module Disk {
  import opened Words
  import opened DiskTiming

  const MAX_WORKTRIES: nat := 10
  const CACHE_READ_TIME: nat := 500
  const CACHE_WRITE_TIME: nat := 500

  datatype Stat = Stat(inProgress: bool, isWrite: bool, complete: bool, invSect: bool, mediaErr: bool)

  const IDLE := Stat(false, false, false, false, false)
  const READING := Stat(true, false, false, false, false)
  const WRITING := Stat(true, true, false, false, false)

  datatype Timer = SeekDone(cyl: int) | WaitDone(status: int)

  datatype Pending = Pending(nsecs: nat, what: Timer)

  /* `pending` holds the events asked of the clock and not yet fired; `irq` is
     the state of the slot's line; `transfers` counts sector transfers. */
  datatype Disk = Disk(track: int, arrivalSecs: word, arrivalNsecs: word,
                       iostatus: int, timedop: bool, worktries: nat, stat: Stat, sect: word,
                       irq: bool, pending: seq<Pending>, transfers: nat)

  function PowerOn(secs: word, nsecs: word): Disk {
    Disk(0, secs, nsecs, -1, false, 0, IDLE, 0, false, [], 0)
  }

  function Finished(s: Stat, invSect: bool, mediaErr: bool): Stat {
    s.(inProgress := false, complete := true, invSect := s.invSect || invSect, mediaErr := s.mediaErr || mediaErr)
  }

  function Asking(d: Disk, nsecs: nat, what: Timer): Disk {
    d.(timedop := true, pending := d.pending + [Pending(nsecs, what)])
  }

  function Transferred(d: Disk, err: bool): Disk {
    d.(stat := Finished(d.stat, false, err), worktries := 0, transfers := d.transfers + 1)
  }

  /* What one pass finds: the track of the sector, the time to seek there, the
     time until the platter has brought it round, whether the image file fails,
     and the time of day. */
  datatype Env = Env(cyl: int, seek: nat, rot: nat, err: bool, secs: word, nsecs: word)

  /* The rest of disk_work, once the try has been counted. */
  function Sought(t: Disk, e: Env): Disk {
    if t.track != e.cyl then Asking(t, e.seek, SeekDone(e.cyl))
    else if t.stat.isWrite && t.iostatus < 1 then Asking(t, CACHE_WRITE_TIME, WaitDone(1))
    else if t.iostatus < 2 && e.rot > 0 then Asking(t, e.rot, WaitDone(2))
    else
      var u := if t.iostatus < 2 then t.(iostatus := 2) else t;
      if !u.stat.isWrite && u.iostatus < 3 then Asking(u, CACHE_READ_TIME, WaitDone(3))
      else Transferred(u, e.err)
  }

  /* disk_work. */
  function Worked(d: Disk, totSectors: word, e: Env): Disk {
    if d.timedop || !d.stat.inProgress then d
    else if d.sect >= totSectors then
      d.(stat := Finished(d.stat, true, false), worktries := 0)
    else
      var t := d.(worktries := d.worktries + 1);
      if t.worktries > MAX_WORKTRIES then
        Transferred(t.(track := 0, arrivalSecs := e.secs, arrivalNsecs := e.nsecs, iostatus := -1, timedop := false),
                    e.err)
      else Sought(t, e)
  }

  function Updated(d: Disk, totSectors: word, e: Env): Disk {
    var w := Worked(d, totSectors, e);
    w.(irq := w.stat.complete)
  }

  /* disk_setstatus: 0, 1 and 3 are the legal values; any other stops the machine. */
  function StatusSet(d: Disk, totSectors: word, e: Env, val: word): Disk {
    match val
    case 0 => Updated(d.(iostatus := -1, stat := IDLE), totSectors, e)
    case 1 => Updated(d.(iostatus := 0, stat := READING), totSectors, e)
    case 3 => Updated(d.(iostatus := 0, stat := WRITING), totSectors, e)
    case _ => d
  }

  /* disk_seekdone and disk_waitdone, up to the update. */
  function Delivered(d: Disk, e: Env): Disk
    requires d.pending != []
  {
    var t := d.(timedop := false, pending := d.pending[1..]);
    match d.pending[0].what
    case SeekDone(cyl) => t.(track := cyl, arrivalSecs := e.secs, arrivalNsecs := e.nsecs)
    case WaitDone(status) => t.(iostatus := status)
  }

  function Fired(d: Disk, totSectors: word, e: Env): Disk
    requires d.pending != []
  {
    Updated(Delivered(d, e), totSectors, e)
  }

  function Distance(a: int, b: int): nat {
    if a < b then b - a else a - b
  }

  // ------------------------------------------------------------------
  // The controller, updated in place

  class Controller {
    const sectors: seq<word>
    const totSectors: word
    const rev: word
    const seekTime: nat -> nat

    var track: int
    var arrivalSecs: word
    var arrivalNsecs: word
    var iostatus: int
    var timedop: bool
    var worktries: nat
    var stat: Stat
    var sect: word
    var irq: bool
    var pending: seq<Pending>
    var transfers: nat

    /* The geometry holds every sector, and the platter turns. */
    ghost predicate Valid()
      reads this
    {
      && totSectors <= Sum(sectors) < TWO_32 && 0 < rev <= SECOND
      && arrivalNsecs < SECOND && arrivalSecs + 2 < TWO_32
    }

    ghost function View(): Disk
      reads this
    {
      Disk(track, arrivalSecs, arrivalNsecs, iostatus, timedop, worktries, stat, sect, irq, pending, transfers)
    }

    constructor (sectors: seq<word>, totSectors: word, rpm: nat, seekTime: nat -> nat, secs: word, nsecs: word)
      requires totSectors <= Sum(sectors) < TWO_32 && rpm % 60 == 0 && 60 <= rpm < 0x8000_0000
      requires nsecs < SECOND && secs + 2 < TWO_32
      ensures Valid() && View() == PowerOn(secs, nsecs)
      ensures this.sectors == sectors && this.totSectors == totSectors && Revolution(rev, rpm)
    {
      this.sectors, this.totSectors, this.seekTime := sectors, totSectors, seekTime;
      RevolutionFits(SECOND / (rpm / 60), rpm);
      rev := SECOND / (rpm / 60);
      track, arrivalSecs, arrivalNsecs := 0, secs, nsecs;
      iostatus, timedop, worktries, stat, sect := -1, false, 0, IDLE, 0;
      irq, pending, transfers := false, [], 0;
    }

    method Ask(nsecs: nat, what: Timer)
      modifies this`timedop, this`pending
      ensures View() == Asking(old(View()), nsecs, what)
    {
      timedop := true;
      pending := pending + [Pending(nsecs, what)];
    }

    method Transfer(err: bool)
      modifies this`stat, this`worktries, this`transfers
      ensures View() == Transferred(old(View()), err)
    {
      transfers := transfers + 1;
      stat := Finished(stat, false, err);
      worktries := 0;
    }

    ghost predicate At(secs: word, nsecs: word)
      reads this
    {
      && nsecs < SECOND && secs + 2 < TWO_32
      && arrivalSecs * SECOND + arrivalNsecs <= secs * SECOND + nsecs
    }

    /* The rest of a pass once the head is on the track. */
    method OnTrack(cyl: nat, offset: word, err: bool, secs: word, nsecs: word) returns (ghost rot: nat)
      requires Valid() && At(secs, nsecs) && cyl < |sectors| && offset < sectors[cyl] && track == cyl
      requires stat.inProgress && !timedop && sect < totSectors
      modifies this`timedop, this`pending, this`stat, this`worktries, this`transfers, this`iostatus
      ensures rot == RotDelay(rev, sectors[cyl], offset, old(stat.isWrite), arrivalSecs, arrivalNsecs, secs, nsecs)
      ensures View() == Sought(old(View()), Env(cyl, 0, rot, err, secs, nsecs))
      ensures pending == old(pending) +
                         if old(stat.isWrite) && old(iostatus) < 1 then [Pending(500, WaitDone(1))]
                         else if old(iostatus) < 2 && rot > 0 then [Pending(rot, WaitDone(2))]
                         else if !old(stat.isWrite) && old(iostatus) < 3 then [Pending(500, WaitDone(3))]
                         else []
    {
      hide RotDelay;
      rot := RotDelay(rev, sectors[cyl], offset, stat.isWrite, arrivalSecs, arrivalNsecs, secs, nsecs);
      if stat.isWrite && iostatus < 1 {
        Ask(CACHE_WRITE_TIME, WaitDone(1));
        return;
      }
      if iostatus < 2 {
        var delay: word;
        if stat.isWrite {
          delay := WriteRotDelay(rev, sectors[cyl], offset, nsecs);
          WriteDelayIgnoresArrival(rev, sectors[cyl], offset, arrivalSecs, arrivalNsecs, secs, nsecs);
        } else {
          delay := ReadRotDelay(rev, sectors[cyl], offset, arrivalSecs, arrivalNsecs, secs, nsecs);
        }
        if delay > 0 {
          Ask(delay, WaitDone(2));
          return;
        }
        iostatus := 2;
      }
      if !stat.isWrite && iostatus < 3 {
        Ask(CACHE_READ_TIME, WaitDone(3));
        return;
      }
      Transfer(err);
    }

    /* "Geometry modeling fault": do the transfer whatever the position. */
    method GiveUp(err: bool, secs: word, nsecs: word)
      requires nsecs < SECOND
      modifies this
      ensures View() == Transferred(old(View()).(track := 0, arrivalSecs := secs, arrivalNsecs := nsecs,
                                                 iostatus := -1, timedop := false), err)
    {
      track := 0;
      arrivalSecs := secs;
      arrivalNsecs := nsecs;
      iostatus := -1;
      timedop := false;
      Transfer(err);
    }

    /* What a pass that looks for its sector finds: its place, the time to seek
       there, and the rotational delay if the head is already there. */
    ghost predicate Found(d: Disk, e: Env, offset: word) {
      && 0 <= e.cyl < |sectors| && offset < sectors[e.cyl]
      && d.sect == SectorAt(sectors, e.cyl, offset)
      && e.seek == seekTime(Distance(d.track, e.cyl))
      && (e.cyl == d.track ==>
            && 0 < rev
            && e.rot == RotDelay(rev, sectors[e.cyl], offset, d.stat.isWrite,
                                 d.arrivalSecs, d.arrivalNsecs, e.secs, e.nsecs))
    }

    /* The part of a pass that looks for the sector: seek, or go on from there. */
    method Approach(err: bool, secs: word, nsecs: word) returns (ghost e: Env, ghost offset: word)
      requires Valid() && At(secs, nsecs)
      requires stat.inProgress && !timedop && sect < totSectors
      modifies this`timedop, this`pending, this`stat, this`worktries, this`transfers, this`iostatus
      ensures View() == Sought(old(View()), e)
      ensures track != e.cyl ==>
                pending == old(pending) + [Pending(seekTime(Distance(track, e.cyl)), SeekDone(e.cyl))]
      ensures track == e.cyl ==>
                pending == old(pending) +
                           if old(stat.isWrite) && old(iostatus) < 1 then [Pending(500, WaitDone(1))]
                           else if old(iostatus) < 2 && e.rot > 0 then [Pending(e.rot, WaitDone(2))]
                           else if !old(stat.isWrite) && old(iostatus) < 3 then [Pending(500, WaitDone(3))]
                           else []
      ensures e.err == err && e.secs == secs && e.nsecs == nsecs
      ensures Found(old(View()), e, offset)
    {
      hide RotDelay, SectorAt, Sum, Finished;
      var cyl, off := LocateSector(sectors, sect);
      var distance := cyl - track;
      if distance < 0 {
        distance := -distance;
      }
      e, offset := Env(cyl, seekTime(distance), 0, err, secs, nsecs), off;
      if track != cyl {
        Ask(seekTime(distance), SeekDone(cyl));
        return;
      }
      ghost var rot := OnTrack(cyl, off, err, secs, nsecs);
      e := e.(rot := rot);
    }

    /* disk_work. The ghost results are what the pass found. */
    method Work(err: bool, secs: word, nsecs: word) returns (ghost e: Env, ghost offset: word)
      requires Valid() && At(secs, nsecs)
      modifies this
      ensures Valid() && At(secs, nsecs)
      ensures View() == Worked(old(View()), totSectors, e)
      ensures e.err == err && e.secs == secs && e.nsecs == nsecs
      ensures Locates(old(View()), totSectors) ==> Found(old(View()), e, offset)
    {
      hide RotDelay, SectorAt, Sum, Finished, Sought;
      e, offset := Env(0, 0, 0, err, secs, nsecs), 0;
      if timedop {
        return;
      }
      if !stat.inProgress {
        return;
      }
      if sect >= totSectors {
        stat := Finished(stat, true, false);
        worktries := 0;
        return;
      }
      worktries := worktries + 1;
      if worktries > MAX_WORKTRIES {
        GiveUp(err, secs, nsecs);
        return;
      }
      e, offset := Approach(err, secs, nsecs);
    }

    method Update(err: bool, secs: word, nsecs: word) returns (ghost e: Env, ghost offset: word)
      requires Valid() && At(secs, nsecs)
      modifies this
      ensures Valid() && At(secs, nsecs)
      ensures View() == Updated(old(View()), totSectors, e)
      ensures e.err == err && e.secs == secs && e.nsecs == nsecs
      ensures Locates(old(View()), totSectors) ==> Found(old(View()), e, offset)
    {
      hide Worked, Found, Locates;
      e, offset := Work(err, secs, nsecs);
      irq := stat.complete;
    }

    method SetStatus(val: word, err: bool, secs: word, nsecs: word) returns (ghost e: Env, ghost offset: word)
      requires Valid() && At(secs, nsecs)
      modifies this
      ensures Valid() && At(secs, nsecs)
      ensures View() == StatusSet(old(View()), totSectors, e, val)
      ensures e.err == err && e.secs == secs && e.nsecs == nsecs
      ensures val == 1 || val == 3 ==>
                var d := Started(old(View()), val == 3);
                Locates(d, totSectors) ==> Found(d, e, offset)
    {
      hide Updated, Found, Locates;
      e, offset := Env(0, 0, 0, err, secs, nsecs), 0;
      match val {
        case 0 => iostatus, stat := -1, IDLE;
        case 1 => iostatus, stat := 0, READING;
        case 3 => iostatus, stat := 0, WRITING;
        case _ => return;
      }
      e, offset := Update(err, secs, nsecs);
    }

    /* The clock delivers the first pending event. */
    method Fire(err: bool, secs: word, nsecs: word) returns (ghost e: Env, ghost offset: word)
      requires Valid() && At(secs, nsecs) && pending != []
      modifies this
      ensures Valid() && At(secs, nsecs)
      ensures View() == Fired(old(View()), totSectors, e)
      ensures e.err == err && e.secs == secs && e.nsecs == nsecs
      ensures var d := Delivered(old(View()), e);
              Locates(d, totSectors) ==> Found(d, e, offset)
    {
      hide Updated, Found, Locates;
      match pending[0].what {
        case SeekDone(cyl) => track, arrivalSecs, arrivalNsecs := cyl, secs, nsecs;
        case WaitDone(status) => iostatus := status;
      }
      timedop, pending := false, pending[1..];
      e, offset := Update(err, secs, nsecs);
    }

    lemma SeekFound(d: Disk, e: Env, offset: word, start: Disk, seen: seq<Moment>)
      requires Found(d, e, offset) && |seen| == 4 && Arrived(d, start, e.cyl, seen)
      ensures d.track != e.cyl ==> Seeking(start.track, e.cyl, seekTime) == [Pending(e.seek, SeekDone(e.cyl))]
    {
    }

    /* What the pass finds the delay to be, if it comes to that. */
    lemma RotFound(d: Disk, e: Env, offset: word, seek: seq<Pending>, isWrite: bool, rot: nat, asked: seq<Pending>,
                   seen: seq<Moment>)
      requires 0 < rev && Found(d, e, offset) && SoFar(d, e.cyl, seek, isWrite, rot, asked)
      requires |asked| < |seen| && e.secs == seen[|asked|].secs && e.nsecs == seen[|asked|].nsecs
      requires d.track == e.cyl && d.iostatus >= 2 ==>
                 RotKnown(rot, rev, sectors[e.cyl], offset, isWrite, d, seen, |seek + Writing(isWrite)|)
      ensures Settles(d, e, isWrite) ==>
                RotKnown(RotNow(d, e, isWrite, rot), rev, sectors[e.cyl], offset, isWrite, d, seen,
                         |seek + Writing(isWrite)|)
    {
      hide RotDelay, SectorAt;
    }

    /* The events asked for so far, and why: what holds before every pass. */
    ghost predicate Account(start: Disk, d: Disk, cyl: int, offset: word, isWrite: bool, rot: nat, asked: seq<Pending>,
                            seen: seq<Moment>) {
      var seek := Seeking(start.track, cyl, seekTime);
      && |seen| == 4 && 0 <= cyl < |sectors|
      && SoFar(d, cyl, seek, isWrite, rot, asked) && Arrived(d, start, cyl, seen)
      && (d.track == cyl && d.iostatus >= 2 ==>
            RotKnown(rot, rev, sectors[cyl], offset, isWrite, d, seen, |seek + Writing(isWrite)|))
    }

    lemma AccountStarts(start: Disk, cyl: int, offset: word, isWrite: bool, seen: seq<Moment>)
      requires |seen| == 4 && 0 <= cyl < |sectors|
      ensures Account(start, Started(start, isWrite), cyl, offset, isWrite, 0, [], seen)
    {
      NothingYet(start, cyl, seekTime, isWrite, seen);
    }

    lemma AccountMore(start: Disk, d: Disk, e: Env, offset: word, isWrite: bool, rot: nat, asked: seq<Pending>,
                      seen: seq<Moment>, f: Env)
      requires 0 < rev && Account(start, d, e.cyl, offset, isWrite, rot, asked, seen) && Found(d, e, offset)
      requires Underway(d, totSectors) && d.worktries < MAX_WORKTRIES && Waits(d, e) && e.cyl == f.cyl
      requires |asked| < 3 && e.secs == seen[|asked|].secs && e.nsecs == seen[|asked|].nsecs
      requires f.secs == seen[|asked| + 1].secs && f.nsecs == seen[|asked| + 1].nsecs
      ensures var u := Updated(d, totSectors, e);
              && |u.pending| == 1
              && Account(start, Delivered(u, f), e.cyl, offset, isWrite, RotNow(d, e, isWrite, rot),
                         asked + u.pending, seen)
    {
      hide Updated, Delivered, Waits, SoFar, RotNow, RotKnown, Arrived, Found, Seeking;
      var seek := Seeking(start.track, e.cyl, seekTime);
      SeekFound(d, e, offset, start, seen);
      SoFarMore(d, totSectors, e, f, e.cyl, seek, isWrite, rot, asked);
      ArrivedMore(d, totSectors, e, f, start, seek, isWrite, rot, asked, seen);
      RotFound(d, e, offset, seek, isWrite, rot, asked, seen);
      SoFarPhase(d, e.cyl, seek, isWrite, rot, asked);
      RotCarried(d, totSectors, e, f, isWrite, RotNow(d, e, isWrite, rot), rev, sectors[e.cyl], offset, seen,
                 |seek + Writing(isWrite)|);
    }

    lemma AccountLast(start: Disk, d: Disk, e: Env, offset: word, isWrite: bool, rot: nat, asked: seq<Pending>,
                      seen: seq<Moment>)
      requires 0 < rev && Account(start, d, e.cyl, offset, isWrite, rot, asked, seen) && Found(d, e, offset)
      requires !Waits(d, e) && |asked| < 4 && e.secs == seen[|asked|].secs && e.nsecs == seen[|asked|].nsecs
      ensures var r := RotNow(d, e, isWrite, rot);
              var seek := Seeking(start.track, e.cyl, seekTime);
              && asked == seek + Writing(isWrite) + Turning(r) + Reading(isWrite)
              && RotKnown(r, rev, sectors[e.cyl], offset, isWrite, d, seen, |seek + Writing(isWrite)|)
              && d.track == e.cyl && Arrived(d, start, e.cyl, seen)
    {
      hide SoFar, RotNow, RotKnown, Arrived, Found, Seeking;
      var seek := Seeking(start.track, e.cyl, seekTime);
      SoFarLast(d, e, e.cyl, seek, isWrite, rot, asked);
      RotFound(d, e, offset, seek, isWrite, rot, asked, seen);
      SoFarPhase(d, e.cyl, seek, isWrite, rot, asked);
    }

    lemma Turns()
      requires Valid()
      ensures 0 < rev
    {
    }

    /** An operation from its start to its interrupt: a status write with the
        drive at rest, and the events asked of the clock, fired at any later
        times. It takes at most four passes, makes one transfer with the head on
        the track that holds the sector, and never the fallback. What it waits for,
        in order, is the seek, the copy of what is written, the rest of the
        revolution as the platter stands when that is over, and the copy of what is
        read. */
    method RunOperation(isWrite: bool, seen: seq<Moment>)
      returns (passes: nat, ghost cyl: nat, ghost offset: word, ghost asked: seq<Pending>, ghost rot: nat)
      requires Valid() && !timedop && pending == [] && worktries == 0 && sect < totSectors
      requires |seen| == 4 && InOrder(seen) && At(seen[0].secs, seen[0].nsecs)
      modifies this
      ensures Valid() && 0 < passes <= 4
      ensures cyl < |sectors| && offset < sectors[cyl] && old(sect) == SectorAt(sectors, cyl, offset)
      ensures stat == Finished(if isWrite then WRITING else READING, false, seen[passes - 1].err)
      ensures stat == Stat(false, isWrite, true, false, seen[passes - 1].err)
      ensures transfers == old(transfers) + 1 && irq && !timedop && pending == [] && worktries == 0
      ensures track == cyl && iostatus >= 2
      ensures |asked| == passes - 1
      ensures asked == Seeking(old(track), cyl, seekTime) + Writing(isWrite) + Turning(rot) + Reading(isWrite)
      ensures var k := |Seeking(old(track), cyl, seekTime) + Writing(isWrite)|;
              rot == RotDelay(rev, sectors[cyl], offset, isWrite, arrivalSecs, arrivalNsecs,
                              seen[k].secs, seen[k].nsecs)
      ensures if old(track) == cyl then arrivalSecs == old(arrivalSecs) && arrivalNsecs == old(arrivalNsecs)
              else arrivalSecs == seen[1].secs && arrivalNsecs == seen[1].nsecs
    {
      hide Updated, Delivered, Finished, RotDelay, SectorAt, Waits, Remaining, Valid, RotNow, Account;
      Turns();
      ghost var start := View();
      ghost var d := Started(start, isWrite);
      ghost var e;
      e, offset := SetStatus(if isWrite then 3 else 1, seen[0].err, seen[0].secs, seen[0].nsecs);
      StartedByStatus(start, totSectors, e, isWrite);
      cyl, passes := e.cyl, 1;
      asked, rot := [], 0;
      RemainingSome(d, cyl);
      WaitsOrNot(d, totSectors, e);
      AccountStarts(start, cyl, offset, isWrite, seen);
      while pending != []
        invariant Valid() && 0 < passes <= 4 && At(seen[passes - 1].secs, seen[passes - 1].nsecs)
        invariant Underway(d, totSectors) && d.worktries == passes - 1 && passes - 1 + Remaining(d, cyl) <= 4
        invariant d.sect == start.sect && d.transfers == start.transfers
        invariant d.stat == if isWrite then WRITING else READING
        invariant e.cyl == cyl && e.err == seen[passes - 1].err
        invariant e.secs == seen[passes - 1].secs && e.nsecs == seen[passes - 1].nsecs
        invariant View() == Updated(d, totSectors, e) && (pending != [] <==> Waits(d, e))
        invariant Found(d, e, offset)
        invariant |asked| == passes - 1 && Account(start, d, cyl, offset, isWrite, rot, asked, seen)
        decreases Remaining(d, cyl)
      {
        LongerWaits(d, e);
        var m := seen[passes];
        assert At(m.secs, m.nsecs);
        ghost var v, off := View(), 0;
        ghost var f := Env(cyl, 0, 0, m.err, m.secs, m.nsecs);
        PassWaits(d, totSectors, e, f);
        AccountMore(start, d, e, offset, isWrite, rot, asked, seen, f);
        rot, asked := RotNow(d, e, isWrite, rot), asked + v.pending;
        e, off := Fire(m.err, m.secs, m.nsecs);
        DeliveredIgnoresPlace(v, e, cyl);
        d := Delivered(v, e);
        RemainingSome(d, cyl);
        OnePlace(sectors, cyl, offset, e.cyl, off);
        WaitsOrNot(d, totSectors, e);
        passes := passes + 1;
      }
      PassTransfers(d, totSectors, e);
      FinishedIs(isWrite, e.err);
      AccountLast(start, d, e, offset, isWrite, rot, asked, seen);
      rot := RotNow(d, e, isWrite, rot);
    }
  }

  /* What an operation waits for, in order. */
  function Seeking(track: int, cyl: int, seekTime: nat -> nat): seq<Pending> {
    if track == cyl then [] else [Pending(seekTime(Distance(track, cyl)), SeekDone(cyl))]
  }

  function Writing(isWrite: bool): seq<Pending> {
    if isWrite then [Pending(500, WaitDone(1))] else []
  }

  function Turning(rot: nat): seq<Pending> {
    if rot > 0 then [Pending(rot, WaitDone(2))] else []
  }

  function Reading(isWrite: bool): seq<Pending> {
    if isWrite then [] else [Pending(500, WaitDone(3))]
  }

  /* What has been asked for before this pass; `rot` is the rotational delay, once
     the head has been found to need one or not. */
  predicate SoFar(d: Disk, cyl: int, seek: seq<Pending>, isWrite: bool, rot: nat, asked: seq<Pending>) {
    && d.stat.isWrite == isWrite && 0 <= d.iostatus <= (if isWrite then 2 else 3)
    && if d.track != cyl then asked == [] && d.iostatus == 0
       else if d.iostatus >= 2 then
         asked == seek + Writing(isWrite) + Turning(rot) + (if d.iostatus == 3 then Reading(isWrite) else [])
         && (d.iostatus == 2 ==> rot > 0)
       else asked == seek + (if d.iostatus == 1 then Writing(isWrite) else []) && (d.iostatus == 1 ==> isWrite)
  }

  /* This pass finds out how far the platter has to turn. */
  function RotNow(d: Disk, e: Env, isWrite: bool, rot: nat): nat {
    if d.track == e.cyl && d.iostatus < 2 && (isWrite ==> d.iostatus == 1) then e.rot else rot
  }

  lemma SoFarMore(d: Disk, totSectors: word, e: Env, f: Env, cyl: int, seek: seq<Pending>, isWrite: bool, rot: nat,
                  asked: seq<Pending>)
    requires Underway(d, totSectors) && d.worktries < MAX_WORKTRIES && e.cyl == cyl && Waits(d, e)
    requires SoFar(d, cyl, seek, isWrite, rot, asked)
    requires d.track != cyl ==> seek == [Pending(e.seek, SeekDone(cyl))]
    ensures var u := Updated(d, totSectors, e);
            |u.pending| == 1
            && SoFar(Delivered(u, f), cyl, seek, isWrite, RotNow(d, e, isWrite, rot), asked + u.pending)
  {
    PassAsks(d, totSectors, e);
    var r := RotNow(d, e, isWrite, rot);
    if d.track != cyl {
    } else if !isWrite && d.iostatus < 2 && e.rot == 0 {
      assert seek + Writing(isWrite) + Turning(r) == seek + Writing(isWrite);
    }
  }

  /* The event a pass waits for. */
  lemma PassAsks(d: Disk, totSectors: word, e: Env)
    requires Underway(d, totSectors) && d.worktries < MAX_WORKTRIES && Waits(d, e)
    ensures Updated(d, totSectors, e).pending
         == [if d.track != e.cyl then Pending(e.seek, SeekDone(e.cyl))
             else if d.stat.isWrite && d.iostatus < 1 then Pending(500, WaitDone(1))
             else if d.iostatus < 2 && e.rot > 0 then Pending(e.rot, WaitDone(2))
             else Pending(500, WaitDone(3))]
    ensures var u := Updated(d, totSectors, e);
            u.arrivalSecs == d.arrivalSecs && u.arrivalNsecs == d.arrivalNsecs && u.track == d.track
            && u.stat == d.stat
            && (d.track != e.cyl || (d.stat.isWrite && d.iostatus < 1) ==> u.iostatus == d.iostatus)
  {
  }

  /* After this pass the rotational delay is known. */
  predicate Settles(d: Disk, e: Env, isWrite: bool) {
    d.track == e.cyl && (isWrite ==> d.iostatus >= 1)
  }

  ghost predicate RotKnown(rot: nat, rev: word, sectors: word, offset: word, isWrite: bool, d: Disk,
                           seen: seq<Moment>, k: nat) {
    && rev > 0 && sectors > 0 && k < |seen|
    && rot == RotDelay(rev, sectors, offset, isWrite, d.arrivalSecs, d.arrivalNsecs, seen[k].secs, seen[k].nsecs)
  }

  lemma RotCarried(d: Disk, totSectors: word, e: Env, f: Env, isWrite: bool, rot: nat, rev: word, sectors: word,
                   offset: word, seen: seq<Moment>, k: nat)
    requires Underway(d, totSectors) && d.worktries < MAX_WORKTRIES && Waits(d, e) && d.stat.isWrite == isWrite
    requires e.cyl == f.cyl && (d.track != e.cyl ==> d.iostatus < 2)
    requires Settles(d, e, isWrite) ==> RotKnown(rot, rev, sectors, offset, isWrite, d, seen, k)
    ensures var u := Updated(d, totSectors, e);
            && |u.pending| == 1
            && var g := Delivered(u, f);
               g.track == e.cyl && g.iostatus >= 2 ==> RotKnown(rot, rev, sectors, offset, isWrite, g, seen, k)
  {
    hide Updated, Waits, RotDelay;
    PassAsks(d, totSectors, e);
  }

  /* When the head came to where it is. */
  predicate Arrived(d: Disk, start: Disk, cyl: int, seen: seq<Moment>)
    requires |seen| == 4
  {
    && (d.track != cyl ==> d.track == start.track)
    && (d.track == cyl ==>
          if start.track == cyl then d.arrivalSecs == start.arrivalSecs && d.arrivalNsecs == start.arrivalNsecs
          else d.arrivalSecs == seen[1].secs && d.arrivalNsecs == seen[1].nsecs)
  }

  lemma ArrivedMore(d: Disk, totSectors: word, e: Env, f: Env, start: Disk, seek: seq<Pending>, isWrite: bool, rot: nat,
                    asked: seq<Pending>, seen: seq<Moment>)
    requires Underway(d, totSectors) && d.worktries < MAX_WORKTRIES && Waits(d, e)
    requires |seen| == 4 && Arrived(d, start, e.cyl, seen) && SoFar(d, e.cyl, seek, isWrite, rot, asked)
    requires |asked| < 3 && f.secs == seen[|asked| + 1].secs && f.nsecs == seen[|asked| + 1].nsecs
    ensures |Updated(d, totSectors, e).pending| == 1
    ensures Arrived(Delivered(Updated(d, totSectors, e), f), start, e.cyl, seen)
  {
    hide Updated, Waits;
    PassAsks(d, totSectors, e);
  }

  lemma NothingYet(start: Disk, cyl: int, seekTime: nat -> nat, isWrite: bool, seen: seq<Moment>)
    requires |seen| == 4
    ensures var d := Started(start, isWrite);
            && SoFar(d, cyl, Seeking(start.track, cyl, seekTime), isWrite, 0, [])
            && Arrived(d, start, cyl, seen) && d.iostatus == 0
  {
  }

  lemma SoFarPhase(d: Disk, cyl: int, seek: seq<Pending>, isWrite: bool, rot: nat, asked: seq<Pending>)
    requires SoFar(d, cyl, seek, isWrite, rot, asked)
    ensures d.stat.isWrite == isWrite && (d.track != cyl ==> d.iostatus < 2)
  {
  }

  lemma SoFarLast(d: Disk, e: Env, cyl: int, seek: seq<Pending>, isWrite: bool, rot: nat, asked: seq<Pending>)
    requires SoFar(d, cyl, seek, isWrite, rot, asked) && !Waits(d, e) && e.cyl == cyl
    ensures asked == seek + Writing(isWrite) + Turning(RotNow(d, e, isWrite, rot)) + Reading(isWrite)
    ensures Settles(d, e, isWrite)
  {
  }

  predicate Locates(d: Disk, totSectors: word) {
    !d.timedop && d.stat.inProgress && d.sect < totSectors && d.worktries < MAX_WORKTRIES
  }

  // ------------------------------------------------------------------
  // Every operation finishes

  /* How many passes are left, if the platter makes every one it can wait. */
  function Remaining(d: Disk, cyl: int): nat {
    (if d.track != cyl then 1 else 0)
    + (if d.stat.isWrite then (if d.iostatus < 1 then 3 else if d.iostatus < 2 then 2 else 1)
       else (if d.iostatus < 2 then 3 else if d.iostatus < 3 then 2 else 1))
  }

  /* A transfer in progress with nothing pending: about to make a pass. */
  predicate Underway(d: Disk, totSectors: word) {
    && d.stat.inProgress && !d.stat.complete && !d.timedop && d.pending == [] && d.sect < totSectors
  }

  /* The pass would find the tries used up, and take the fallback. */
  predicate FallsBack(d: Disk, totSectors: word) {
    Underway(d, totSectors) && d.worktries >= MAX_WORKTRIES
  }

  predicate OnCylinder(envs: seq<Env>, cyl: int) {
    forall i :: 0 <= i < |envs| ==> envs[i].cyl == cyl
  }

  /* Passes and the events they wait for, alternating, until a pass waits for
     nothing; with the number of passes, and whether any took the fallback. */
  function Carried(d: Disk, totSectors: word, envs: seq<Env>): (Disk, nat, bool)
    decreases |envs|
  {
    if envs == [] then (d, 0, false)
    else
      var u, fell := Updated(d, totSectors, envs[0]), FallsBack(d, totSectors);
      if !u.timedop || u.pending == [] || |envs| == 1 then (u, 1, fell)
      else
        var rest := Carried(Delivered(u, envs[1]), totSectors, envs[1..]);
        (rest.0, rest.1 + 1, fell || rest.2)
  }

  /* The image file's answer and the time of day at one pass. */
  datatype Moment = Moment(err: bool, secs: word, nsecs: word)

  predicate InOrder(seen: seq<Moment>) {
    forall i :: 0 <= i < |seen| ==>
      && seen[i].nsecs < SECOND && seen[i].secs + 2 < TWO_32
      && (i > 0 ==> seen[i - 1].secs * SECOND + seen[i - 1].nsecs <= seen[i].secs * SECOND + seen[i].nsecs)
  }

  /* The pass has something to wait for. */
  predicate Waits(d: Disk, e: Env) {
    || d.track != e.cyl
    || (d.stat.isWrite && d.iostatus < 1)
    || (d.iostatus < 2 && e.rot > 0)
    || (!d.stat.isWrite && d.iostatus < 3)
  }

  lemma PassWaits(d: Disk, totSectors: word, e: Env, f: Env)
    requires Underway(d, totSectors) && d.worktries < MAX_WORKTRIES && e.cyl == f.cyl && Waits(d, e)
    ensures var u := Updated(d, totSectors, e);
            && u.timedop && |u.pending| == 1 && !u.irq && u.transfers == d.transfers
            && var v := Delivered(u, f);
               && Underway(v, totSectors) && v.worktries == d.worktries + 1
               && v.stat == d.stat && v.transfers == d.transfers && v.sect == d.sect
               && Remaining(v, e.cyl) < Remaining(d, e.cyl)
               && (e.rot > 0 ==> Remaining(v, e.cyl) == Remaining(d, e.cyl) - 1)
  {
    var u := Updated(d, totSectors, e);
    if d.track != e.cyl {
      assert u.pending == [Pending(e.seek, SeekDone(e.cyl))];
    } else if d.stat.isWrite && d.iostatus < 1 {
      assert u.pending == [Pending(CACHE_WRITE_TIME, WaitDone(1))];
    } else if d.iostatus < 2 && e.rot > 0 {
      assert u.pending == [Pending(e.rot, WaitDone(2))];
    } else {
      assert u.pending == [Pending(CACHE_READ_TIME, WaitDone(3))];
    }
  }

  lemma PassTransfers(d: Disk, totSectors: word, e: Env)
    requires Underway(d, totSectors) && d.worktries < MAX_WORKTRIES && !Waits(d, e)
    ensures var u := Updated(d, totSectors, e);
            && !u.timedop && u.stat == Finished(d.stat, false, e.err) && u.irq
            && u.transfers == d.transfers + 1 && u.worktries == 0 && u.pending == []
            && u.track == e.cyl && u.iostatus >= 2
            && u.arrivalSecs == d.arrivalSecs && u.arrivalNsecs == d.arrivalNsecs
  {
  }

  lemma FinishedIs(isWrite: bool, err: bool)
    ensures Finished(if isWrite then WRITING else READING, false, err) == Stat(false, isWrite, true, false, err)
  {
  }

  lemma WaitsOrNot(d: Disk, totSectors: word, e: Env)
    requires Underway(d, totSectors) && d.worktries < MAX_WORKTRIES
    ensures Updated(d, totSectors, e).pending != [] <==> Waits(d, e)
  {
    hide Updated, Waits;
    if Waits(d, e) {
      PassWaits(d, totSectors, e, e);
    } else {
      PassTransfers(d, totSectors, e);
    }
  }

  lemma DeliveredIgnoresPlace(v: Disk, e: Env, cyl: int)
    requires v.pending != []
    ensures Delivered(v, e) == Delivered(v, Env(cyl, 0, 0, e.err, e.secs, e.nsecs))
  {
  }

  lemma LongerWaits(d: Disk, e: Env)
    ensures Waits(d, e) ==> Remaining(d, e.cyl) > 1
    ensures Remaining(d, e.cyl) > 1 && e.rot > 0 ==> Waits(d, e)
  {
  }

  /** A transfer that is under way with enough tries left ends within the passes
      remaining, whatever the delays, with one sector transferred, nothing
      pending, the try counter reset, the interrupt raised, and the head and the
      phase where a transfer that was waited for leaves them. */
  lemma {:induction false} Finishes(d: Disk, totSectors: word, cyl: int, envs: seq<Env>)
    requires Underway(d, totSectors) && OnCylinder(envs, cyl)
    requires Remaining(d, cyl) <= |envs| && d.worktries + Remaining(d, cyl) <= MAX_WORKTRIES
    ensures var (r, n, fell) := Carried(d, totSectors, envs);
            && 0 < n <= Remaining(d, cyl) && n <= |envs| && !fell
            && r.stat == Finished(d.stat, false, envs[n - 1].err)
            && r.transfers == d.transfers + 1
            && r.irq && !r.timedop && r.pending == [] && r.worktries == 0
            && r.track == cyl && r.iostatus >= 2
    decreases |envs|
  {
    hide Updated, Delivered, Finished, Remaining, Waits;
    RemainingSome(d, cyl);
    if Waits(d, envs[0]) {
      var f := if |envs| > 1 then envs[1] else envs[0];
      PassWaits(d, totSectors, envs[0], f);
      var u := Updated(d, totSectors, envs[0]);
      RemainingSome(Delivered(u, f), cyl);
      Finishes(Delivered(u, envs[1]), totSectors, cyl, envs[1..]);
    } else {
      PassTransfers(d, totSectors, envs[0]);
    }
  }

  lemma RemainingSome(d: Disk, cyl: int)
    ensures 0 < Remaining(d, cyl) <= 4
  {
  }

  /* An environment that makes every pass wait as long as it can. */
  function Slow(cyl: int): Env {
    Env(cyl, 1, 1, false, 0, 0)
  }

  lemma {:induction false} SlowFallsBack(d: Disk, totSectors: word, cyl: int, n: nat)
    requires Underway(d, totSectors) && d.worktries <= MAX_WORKTRIES < d.worktries + Remaining(d, cyl)
    requires n >= Remaining(d, cyl)
    ensures Carried(d, totSectors, seq(n, _ => Slow(cyl))).2
    decreases n
  {
    hide Updated, Delivered, Remaining, Waits;
    RemainingSome(d, cyl);
    if d.worktries < MAX_WORKTRIES {
      var envs := seq(n, _ => Slow(cyl));
      LongerWaits(d, Slow(cyl));
      PassWaits(d, totSectors, Slow(cyl), Slow(cyl));
      var u := Updated(d, totSectors, Slow(cyl));
      RemainingSome(Delivered(u, Slow(cyl)), cyl);
      assert envs[1..] == seq(n - 1, _ => Slow(cyl));
      SlowFallsBack(Delivered(u, Slow(cyl)), totSectors, cyl, n - 1);
    }
  }

  /* No way the platter and the image file can behave makes this transfer take
     the fallback. */
  ghost predicate FallbackOutOfReach(d: Disk, totSectors: word, cyl: int) {
    forall envs :: OnCylinder(envs, cyl) && |envs| >= 4 ==> !Carried(d, totSectors, envs).2
  }

  /** The fallback is out of reach of a transfer exactly if its tries and the
      passes it may still need come to no more than the limit. */
  lemma FallbackExactly(d: Disk, totSectors: word, cyl: int)
    requires Underway(d, totSectors) && d.worktries <= MAX_WORKTRIES
    ensures FallbackOutOfReach(d, totSectors, cyl) <==> d.worktries + Remaining(d, cyl) <= MAX_WORKTRIES
  {
    hide Carried, Remaining;
    RemainingSome(d, cyl);
    if d.worktries + Remaining(d, cyl) <= MAX_WORKTRIES {
      forall envs | OnCylinder(envs, cyl) && |envs| >= 4
        ensures !Carried(d, totSectors, envs).2
      {
        Finishes(d, totSectors, cyl, envs);
      }
    } else {
      SlowFallsBack(d, totSectors, cyl, 4);
      assert OnCylinder(seq(4, _ => Slow(cyl)), cyl);
    }
  }

  /* A read or a write that has just been started. */
  function Started(d: Disk, isWrite: bool): Disk {
    d.(iostatus := 0, stat := if isWrite then WRITING else READING)
  }

  lemma StartedByStatus(d: Disk, totSectors: word, e: Env, isWrite: bool)
    ensures StatusSet(d, totSectors, e, if isWrite then 3 else 1) == Updated(Started(d, isWrite), totSectors, e)
  {
    hide Updated;
  }

  /** From rest, a read or a write of a valid sector completes or reports a media
      error within four passes, and the fallback is out of reach. */
  lemma OperationFinishes(d: Disk, totSectors: word, cyl: int, isWrite: bool, envs: seq<Env>)
    requires !d.timedop && d.pending == [] && d.worktries == 0 && d.sect < totSectors
    requires |envs| == 4 && OnCylinder(envs, cyl)
    ensures var (r, n, fell) := Carried(Started(d, isWrite), totSectors, envs);
            && 0 < n <= 4 && !fell
            && r.stat.complete && !r.stat.inProgress && !r.stat.invSect
            && r.stat.mediaErr == envs[n - 1].err
            && r.transfers == d.transfers + 1
            && r.irq && !r.timedop && r.pending == [] && r.worktries == 0
            && r.track == cyl && r.iostatus >= 2
    ensures FallbackOutOfReach(Started(d, isWrite), totSectors, cyl)
  {
    hide Carried, FallbackOutOfReach;
    RemainingSome(Started(d, isWrite), cyl);
    Finishes(Started(d, isWrite), totSectors, cyl, envs);
    FallbackExactly(Started(d, isWrite), totSectors, cyl);
  }

  /** What a status write does at once. Stopping shows nothing, whatever is pending; a
      start while an event is pending waits for it; and a sector that is not there
      completes at once with an error, asking for nothing and transferring nothing. */
  lemma StatusMeans(d: Disk, totSectors: word, e: Env, isWrite: bool)
    ensures StatusSet(d, totSectors, e, 0)
         == d.(iostatus := -1, stat := Stat(false, false, false, false, false), irq := false)
    ensures var r := StatusSet(d, totSectors, e, if isWrite then 3 else 1);
            && (d.timedop ==> r == d.(iostatus := 0, stat := Stat(true, isWrite, false, false, false), irq := false))
            && (!d.timedop && d.sect >= totSectors ==>
                  r == d.(iostatus := 0, stat := Stat(false, isWrite, true, true, false), irq := true, worktries := 0))
  {
  }

  // ------------------------------------------------------------------
  // Every run

  datatype Step =
    | Status(val: word)
    | Sector(val: word)
    | Fire

  function Stepped(d: Disk, totSectors: word, s: Step, e: Env): Disk
    requires s.Fire? ==> d.pending != []
  {
    match s
    case Status(val) => StatusSet(d, totSectors, e, val)
    case Sector(val) => d.(sect := val)
    case Fire => Fired(d, totSectors, e)
  }

  /* The busy flag is one pending event, and the line is the COMPLETE bit. */
  predicate Sound(d: Disk) {
    && |d.pending| == (if d.timedop then 1 else 0)
    && d.irq == d.stat.complete
    && !(d.stat.inProgress && d.stat.complete)
  }

  /* The same, but for the line. */
  predicate Steady(d: Disk) {
    |d.pending| == (if d.timedop then 1 else 0) && !(d.stat.inProgress && d.stat.complete)
  }

  lemma AskingSteady(d: Disk, nsecs: nat, what: Timer)
    requires Steady(d) && !d.timedop
    ensures Steady(Asking(d, nsecs, what))
  {
  }

  lemma TransferredSteady(d: Disk, err: bool)
    requires |d.pending| == (if d.timedop then 1 else 0)
    ensures Steady(Transferred(d, err))
  {
  }

  lemma WorkedSteady(d: Disk, totSectors: word, e: Env)
    requires Steady(d)
    ensures Steady(Worked(d, totSectors, e))
  {
    hide Asking, Transferred;
    var t := d.(worktries := d.worktries + 1);
    if !d.timedop && d.stat.inProgress && d.sect < totSectors {
      var u := if t.iostatus < 2 then t.(iostatus := 2) else t;
      if t.worktries > MAX_WORKTRIES {
        TransferredSteady(t.(track := 0, arrivalSecs := e.secs, arrivalNsecs := e.nsecs, iostatus := -1,
                             timedop := false), e.err);
      } else if t.track != e.cyl {
        AskingSteady(t, e.seek, SeekDone(e.cyl));
      } else if t.stat.isWrite && t.iostatus < 1 {
        AskingSteady(t, CACHE_WRITE_TIME, WaitDone(1));
      } else if t.iostatus < 2 && e.rot > 0 {
        AskingSteady(t, e.rot, WaitDone(2));
      } else if !u.stat.isWrite && u.iostatus < 3 {
        AskingSteady(u, CACHE_READ_TIME, WaitDone(3));
      } else {
        TransferredSteady(u, e.err);
      }
    }
  }

  lemma UpdateSound(d: Disk, totSectors: word, e: Env)
    requires Steady(d)
    ensures Sound(Updated(d, totSectors, e))
  {
    hide Worked;
    WorkedSteady(d, totSectors, e);
  }

  lemma StepSound(d: Disk, totSectors: word, s: Step, e: Env)
    requires Sound(d) && (s.Fire? ==> d.pending != [])
    ensures Sound(Stepped(d, totSectors, s, e))
  {
    match s
    case Status(val) =>
      UpdateSound(d.(iostatus := -1, stat := IDLE), totSectors, e);
      UpdateSound(d.(iostatus := 0, stat := READING), totSectors, e);
      UpdateSound(d.(iostatus := 0, stat := WRITING), totSectors, e);
    case Sector(_) =>
    case Fire => UpdateSound(Delivered(d, e), totSectors, e);
  }

  /* Steps can come in any order, aborts and new starts in the middle of an
     operation included; an event fires only if there is one. */
  function Ran(d: Disk, totSectors: word, steps: seq<(Step, Env)>): Disk
    decreases |steps|
  {
    if steps == [] then d
    else if steps[0].0.Fire? && d.pending == [] then Ran(d, totSectors, steps[1..])
    else Ran(Stepped(d, totSectors, steps[0].0, steps[0].1), totSectors, steps[1..])
  }

  lemma {:induction false} RunSound(d: Disk, totSectors: word, steps: seq<(Step, Env)>)
    requires Sound(d)
    ensures Sound(Ran(d, totSectors, steps))
    decreases |steps|
  {
    if steps != [] {
      if steps[0].0.Fire? && d.pending == [] {
        RunSound(d, totSectors, steps[1..]);
      } else {
        StepSound(d, totSectors, steps[0].0, steps[0].1);
        RunSound(Stepped(d, totSectors, steps[0].0, steps[0].1), totSectors, steps[1..]);
      }
    }
  }

  // ------------------------------------------------------------------
  // Aborts and the try counter

  /* An operation given up: started, carried through some passes that all wait,
     and aborted while the last event is pending; and then that event. */
  datatype Attempt = Attempt(isWrite: bool, envs: seq<Env>)

  /* Every pass of these waits for an event. */
  predicate AllWait(d: Disk, totSectors: word, envs: seq<Env>)
    decreases |envs|
  {
    if envs == [] then true
    else
      var u := Updated(d, totSectors, envs[0]);
      && u.timedop && u.pending != []
      && (|envs| == 1 || AllWait(Delivered(u, envs[1]), totSectors, envs[1..]))
  }

  /* The drive waiting after the last of them. */
  function Waiting(d: Disk, totSectors: word, envs: seq<Env>): Disk
    requires envs != [] && AllWait(d, totSectors, envs)
    decreases |envs|
  {
    var u := Updated(d, totSectors, envs[0]);
    if |envs| == 1 then u else Waiting(Delivered(u, envs[1]), totSectors, envs[1..])
  }

  predicate GivenUp(d: Disk, totSectors: word, a: Attempt) {
    a.envs != [] && AllWait(Started(d, a.isWrite), totSectors, a.envs)
  }

  function Aborted(d: Disk, totSectors: word, a: Attempt): Disk
    requires GivenUp(d, totSectors, a)
  {
    var last := a.envs[|a.envs| - 1];
    var stopped := StatusSet(Waiting(Started(d, a.isWrite), totSectors, a.envs), totSectors, last, 0);
    if stopped.pending == [] then stopped else Fired(stopped, totSectors, last)
  }

  predicate Idle(d: Disk, totSectors: word) {
    !d.timedop && d.pending == [] && d.sect < totSectors
  }

  lemma OnlyWaits(d: Disk, totSectors: word, e: Env, f: Env)
    requires Underway(d, totSectors) && Updated(d, totSectors, e).timedop
    ensures d.worktries < MAX_WORKTRIES
    ensures var u := Updated(d, totSectors, e);
            && |u.pending| == 1 && u.worktries == d.worktries + 1 && u.sect == d.sect && u.transfers == d.transfers
            && Underway(Delivered(u, f), totSectors) && Delivered(u, f).worktries == u.worktries
            && Delivered(u, f).sect == d.sect && Delivered(u, f).transfers == d.transfers
  {
  }

  lemma {:induction false} WaitingUsesTries(d: Disk, totSectors: word, envs: seq<Env>)
    requires Underway(d, totSectors) && envs != [] && AllWait(d, totSectors, envs)
    ensures var w := Waiting(d, totSectors, envs);
            && w.timedop && |w.pending| == 1 && w.worktries == d.worktries + |envs| <= MAX_WORKTRIES
            && w.sect == d.sect && w.transfers == d.transfers
    decreases |envs|
  {
    hide Updated, Delivered, Waits;
    var e, f := envs[0], if |envs| > 1 then envs[1] else envs[0];
    OnlyWaits(d, totSectors, e, f);
    if |envs| > 1 {
      WaitingUsesTries(Delivered(Updated(d, totSectors, e), f), totSectors, envs[1..]);
    }
  }

  /** Giving an operation up after k passes leaves the drive idle with k tries
      more on its counter, whatever the operation and wherever it had got to. */
  lemma AbortUsesTries(d: Disk, totSectors: word, a: Attempt)
    requires Idle(d, totSectors) && GivenUp(d, totSectors, a)
    ensures var r := Aborted(d, totSectors, a);
            && Idle(r, totSectors) && r.stat == IDLE && r.sect == d.sect && r.transfers == d.transfers
            && r.worktries == d.worktries + |a.envs| <= MAX_WORKTRIES
  {
    WaitingUsesTries(Started(d, a.isWrite), totSectors, a.envs);
  }

  ghost predicate AllGivenUp(d: Disk, totSectors: word, attempts: seq<Attempt>)
    decreases |attempts|
  {
    attempts == []
    || (GivenUp(d, totSectors, attempts[0]) && AllGivenUp(Aborted(d, totSectors, attempts[0]), totSectors, attempts[1..]))
  }

  function AbortedMany(d: Disk, totSectors: word, attempts: seq<Attempt>): Disk
    requires AllGivenUp(d, totSectors, attempts)
    decreases |attempts|
  {
    if attempts == [] then d else AbortedMany(Aborted(d, totSectors, attempts[0]), totSectors, attempts[1..])
  }

  function PassesOf(attempts: seq<Attempt>): nat {
    if attempts == [] then 0 else |attempts[0].envs| + PassesOf(attempts[1..])
  }

  /** Aborted transfers leave all their passes on the counter. */
  lemma {:induction false} AbortsUseUpTries(d: Disk, totSectors: word, attempts: seq<Attempt>)
    requires Idle(d, totSectors) && AllGivenUp(d, totSectors, attempts) && d.worktries <= MAX_WORKTRIES
    ensures var r := AbortedMany(d, totSectors, attempts);
            && Idle(r, totSectors) && r.sect == d.sect && r.transfers == d.transfers
            && r.worktries == d.worktries + PassesOf(attempts) <= MAX_WORKTRIES
    decreases |attempts|
  {
    hide GivenUp, Aborted;
    if attempts != [] {
      AbortUsesTries(d, totSectors, attempts[0]);
      AbortsUseUpTries(Aborted(d, totSectors, attempts[0]), totSectors, attempts[1..]);
    }
  }

  /** After any aborted transfers the fallback is out of reach of the next one
      exactly if its own passes still fit under the limit beside theirs: four if
      it has to seek, three if it does not. */
  lemma FallbackAfterAborts(d: Disk, totSectors: word, attempts: seq<Attempt>, isWrite: bool, cyl: int)
    requires Idle(d, totSectors) && d.worktries == 0 && AllGivenUp(d, totSectors, attempts)
    ensures var next := Started(AbortedMany(d, totSectors, attempts), isWrite);
            && Underway(next, totSectors)
            && (FallbackOutOfReach(next, totSectors, cyl) <==>
                  PassesOf(attempts) + (if next.track == cyl then 3 else 4) <= MAX_WORKTRIES)
  {
    hide FallbackOutOfReach, AbortedMany, GivenUp;
    AbortsUseUpTries(d, totSectors, attempts);
    FallbackExactly(Started(AbortedMany(d, totSectors, attempts), isWrite), totSectors, cyl);
  }

  /** When the next operation is started before the event of the aborted one has
      come, the event is taken for its own: it begins on the track or in the phase
      the event says, with the tries of the other, and the condition is the same. */
  lemma FallbackAfterOverlap(d: Disk, totSectors: word, e: Env, isWrite: bool, cyl: int)
    requires d.timedop && |d.pending| == 1 && d.sect < totSectors && d.worktries <= MAX_WORKTRIES
    ensures var s := StatusSet(StatusSet(d, totSectors, e, 0), totSectors, e, if isWrite then 3 else 1);
            && s.pending == d.pending && !s.irq
            && var v := Delivered(s, e);
               && Underway(v, totSectors) && v.worktries == d.worktries
               && (match d.pending[0].what
                   case SeekDone(track) => v.track == track && v.iostatus == 0
                   case WaitDone(status) => v.track == d.track && v.iostatus == status)
               && (FallbackOutOfReach(v, totSectors, cyl) <==> d.worktries + Remaining(v, cyl) <= MAX_WORKTRIES)
  {
    hide FallbackOutOfReach, Remaining;
    var s := StatusSet(StatusSet(d, totSectors, e, 0), totSectors, e, if isWrite then 3 else 1);
    assert s == Started(d, isWrite).(irq := false);
    FallbackExactly(Delivered(s, e), totSectors, cyl);
  }

  /* A read of a sector on track `cyl` that is aborted before its first event. */
  function ShortRead(e: Env): Attempt {
    Attempt(false, [e])
  }

  lemma {:induction false} ShortReadsGivenUp(d: Disk, totSectors: word, envs: seq<Env>)
    requires Idle(d, totSectors) && d.worktries + |envs| <= MAX_WORKTRIES
    ensures var attempts := seq(|envs|, i requires 0 <= i < |envs| => ShortRead(envs[i]));
            AllGivenUp(d, totSectors, attempts) && PassesOf(attempts) == |envs|
    decreases |envs|
  {
    if envs != [] {
      var attempts := seq(|envs|, i requires 0 <= i < |envs| => ShortRead(envs[i]));
      var rest := envs[1..];
      assert attempts[1..] == seq(|rest|, i requires 0 <= i < |rest| => ShortRead(rest[i]));
      AbortUsesTries(d, totSectors, attempts[0]);
      ShortReadsGivenUp(Aborted(d, totSectors, attempts[0]), totSectors, rest);
    }
  }

  /** The extreme case: after ten aborted reads the operation that follows is
      done at once, without seeking or waiting, wherever the sector is. */
  lemma FallbackReached(totSectors: word, envs: seq<Env>, last: Env, secs: word, nsecs: word)
    requires 0 < totSectors && |envs| == MAX_WORKTRIES
    ensures var attempts := seq(|envs|, i requires 0 <= i < |envs| => ShortRead(envs[i]));
            && AllGivenUp(PowerOn(secs, nsecs), totSectors, attempts)
            && var r := StatusSet(AbortedMany(PowerOn(secs, nsecs), totSectors, attempts), totSectors, last, 1);
               r.stat.complete && r.transfers == 1 && r.track == 0 && r.pending == []
  {
    hide AllGivenUp, AbortedMany, PassesOf;
    var attempts := seq(|envs|, i requires 0 <= i < |envs| => ShortRead(envs[i]));
    ShortReadsGivenUp(PowerOn(secs, nsecs), totSectors, envs);
    AbortsUseUpTries(PowerOn(secs, nsecs), totSectors, attempts);
  }
}
