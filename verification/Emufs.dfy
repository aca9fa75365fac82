/**
 The emulator filesystem device: one operation at a time, done at once and
 reported after a delay, on files opened through a table of handles. The host's
 files are not part of this model; an operation's result is given.
 */
module Emufs {

  const MAXHANDLES: nat := 64
  const EMUFS_NSECS: nat := 5_000_000

  /* `dones` counts the completion events the clock holds for this device. */
  datatype Emu = Emu(busy: bool, busyResult: nat, result: nat, line: bool, dones: nat)

  function PowerOn(): Emu {
    Emu(false, 0, 0, false, 0)
  }

  function ResultSet(e: Emu, result: nat): Emu {
    e.(result := result, line := result > 0)
  }

  /* emufs_do_op. Starting one while another is in progress stops the machine
     and starts nothing. */
  function Started(e: Emu, res: nat): Emu {
    if e.busy then e else e.(busy := true, busyResult := res, dones := e.dones + 1)
  }

  /* emufs_done. */
  function DoneFired(e: Emu): Emu
    requires e.dones > 0
  {
    ResultSet(e.(dones := e.dones - 1), e.busyResult).(busy := false, busyResult := 0)
  }

  predicate Sound(e: Emu) {
    e.dones == (if e.busy then 1 else 0) && e.line == (e.result > 0)
  }

  /* What a program can do while it waits: try to start something, or store to the
     result register. */
  datatype Store = Start(res: nat) | Result(val: nat)

  function AllStored(e: Emu, stores: seq<Store>): Emu
    decreases |stores|
  {
    if stores == [] then e
    else
      AllStored(match stores[0] case Start(res) => Started(e, res) case Result(val) => ResultSet(e, val), stores[1..])
  }

  lemma {:induction false} StillBusy(e: Emu, stores: seq<Store>)
    requires e.busy
    ensures var r := AllStored(e, stores);
            r.busy && r.busyResult == e.busyResult && r.dones == e.dones
    decreases |stores|
  {
    if stores != [] {
      StillBusy(match stores[0] case Start(res) => Started(e, res) case Result(val) => ResultSet(e, val), stores[1..]);
    }
  }

  /** Whatever is stored in the meantime, other starts included, an operation is
      completed once, with its own result and the interrupt that goes with it. */
  lemma ReportsItsOwn(e: Emu, res: nat, stores: seq<Store>)
    requires Sound(e) && !e.busy
    ensures var r := AllStored(Started(e, res), stores);
            && r.busy && r.dones == 1
            && DoneFired(r) == Emu(false, 0, res, res > 0, 0)
  {
    StillBusy(Started(e, res), stores);
  }

  /* An open file, or a free handle. */
  datatype Handle = Handle(fd: int, dev: nat, ino: nat)

  predicate Open(h: Handle) {
    h.fd >= 0
  }

  predicate IsFor(h: Handle, dev: nat, ino: nat) {
    Open(h) && h.dev == dev && h.ino == ino
  }

  class Device {
    var busy: bool
    var busyResult: nat
    var result: nat
    var line: bool
    var dones: nat
    const handles: array<Handle>

    ghost function View(): Emu
      reads this
    {
      Emu(busy, busyResult, result, line, dones)
    }

    constructor ()
      ensures View() == PowerOn() && fresh(handles) && handles.Length == MAXHANDLES
      ensures forall i :: 0 <= i < MAXHANDLES ==> !Open(handles[i])
    {
      busy, busyResult, result, line, dones := false, 0, 0, false, 0;
      handles := new Handle[MAXHANDLES](_ => Handle(-1, 0, 0));
    }

    method SetResult(val: nat)
      modifies this`result, this`line
      ensures View() == ResultSet(old(View()), val)
      ensures result == val && line == (val > 0)
    {
      result := val;
      line := result > 0;
    }

    method DoOp(res: nat)
      modifies this`busy, this`busyResult, this`dones
      ensures View() == Started(old(View()), res)
      ensures busy && busyResult == if old(busy) then old(busyResult) else res
    {
      if busy {
        return;
      }
      busy, busyResult := true, res;
      dones := dones + 1;
    }

    method Done()
      requires dones > 0
      modifies this`busy, this`busyResult, this`dones, this`result, this`line
      ensures View() == DoneFired(old(View()))
      ensures result == old(busyResult) && line == (result > 0) && !busy
    {
      dones := dones - 1;
      SetResult(busyResult);
      busy, busyResult := false, 0;
    }

    /* pickhandle: the handle that already has the file, else the first free
       one, now marked for it. There has to be one or the other. */
    method PickHandle(dev: nat, ino: nat) returns (h: nat)
      requires exists i :: 0 <= i < handles.Length && (!Open(handles[i]) || IsFor(handles[i], dev, ino))
      modifies handles
      ensures h < handles.Length && handles[h].dev == dev && handles[h].ino == ino
      ensures handles[..] == old(handles[..])[h := Handle(old(handles[..])[h].fd, dev, ino)]
      ensures (forall i :: 0 <= i < handles.Length ==> !IsFor(old(handles[..])[i], dev, ino)) ==>
                !Open(handles[h]) && forall i :: 0 <= i < h ==> Open(old(handles[..])[i])
      ensures (exists i :: 0 <= i < handles.Length && IsFor(old(handles[..])[i], dev, ino)) ==>
                IsFor(old(handles[..])[h], dev, ino)
    {
      var i, empty := 0, -1;
      while i < handles.Length
        invariant i <= handles.Length
        invariant forall j :: 0 <= j < i ==> !IsFor(handles[j], dev, ino)
        invariant empty < 0 ==> empty == -1 && forall j :: 0 <= j < i ==> Open(handles[j])
        invariant empty >= 0 ==> empty < i && !Open(handles[empty]) && forall j :: 0 <= j < empty ==> Open(handles[j])
      {
        if handles[i].fd < 0 {
          if empty < 0 {
            empty := i;
          }
        } else if handles[i].dev == dev && handles[i].ino == ino {
          return i;
        }
        i := i + 1;
      }
      handles[empty] := handles[empty].(dev := dev, ino := ino);
      return empty;
    }
  }
}
