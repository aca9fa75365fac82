/**
 The devices and the scheduler together. Each device asks for timed events and
 keeps flags about them; the scheduler keeps one queue for all. Every run of
 the whole keeps the two in agreement.
 */
module Machine {
  import opened EventQueue
  import Words
  import Disk
  import Serial
  import Net
  import Emufs

  /* Handlers. Numbers from OTHERS on stand for all the rest: keepalives, the
     timer device, profiling, power-off. */
  const SEEK_DONE: nat := 0
  const WAIT_DONE: nat := 1
  const SERIAL_PUSH: nat := 2
  const SERIAL_WRITE_DONE: nat := 3
  const NET_SEND: nat := 4
  const EMUFS_DONE: nat := 5
  const OTHERS: nat := 6

  /* 1000000000 / ((19200 * 25) / 10) */
  const SERIAL_NSECS: nat := 20833

  datatype Device =
    | DiskDevice(disk: Disk.Disk, totSectors: Words.word)
    | SerialDevice(port: Serial.Port)
    | NetDevice(nic: Net.Nic)
    | EmufsDevice(emu: Emufs.Emu)

  /* What processors and the host do to a device, or a device's event does. */
  datatype Input =
    | ToDisk(step: Disk.Step, env: Disk.Env)
    | ToSerial(key: Serial.Step)
    | NetControl(val: nat)
    | NetIrq(isRead: bool, irq: nat)
    | NetReceive
    | EmufsStart(res: nat)
    | EmufsResult(result: nat)

  datatype Ask = Ask(nsecs: nat, call: Call)

  function DiskCall(slot: nat, p: Disk.Pending): Call {
    match p.what
    case SeekDone(cyl) => Call(SEEK_DONE, slot, cyl)
    case WaitDone(status) => Call(WAIT_DONE, slot, status)
  }

  /* The busy flag that says the main operation of the device is in progress. */
  predicate Busy(d: Device) {
    match d
    case DiskDevice(disk, _) => disk.timedop
    case SerialDevice(port) => port.wbusy
    case NetDevice(nic) => nic.start
    case EmufsDevice(emu) => emu.busy
  }

  /* Is this handler the completion of that operation? */
  predicate Completes(d: Device, func: nat) {
    match d
    case DiskDevice(_, _) => func == SEEK_DONE || func == WAIT_DONE
    case SerialDevice(_) => func == SERIAL_WRITE_DONE
    case NetDevice(_) => func == NET_SEND
    case EmufsDevice(_) => func == EMUFS_DONE
  }

  predicate Sound(d: Device) {
    match d
    case DiskDevice(disk, _) => Disk.Sound(disk)
    case SerialDevice(port) => Serial.Sound(port)
    case NetDevice(nic) => Net.Sound(nic)
    case EmufsDevice(emu) => Emufs.Sound(emu)
  }

  /* A register store or host input; nothing if the device is of another kind. */
  function Poked(d: Device, i: Input): Device {
    match (d, i)
    case (DiskDevice(disk, tot), ToDisk(step, env)) =>
      if step.Fire? then d else DiskDevice(Disk.Stepped(disk, tot, step, env), tot)
    case (SerialDevice(port), ToSerial(step)) =>
      if step.Push? || step.Done? then d else SerialDevice(Serial.Stepped(port, step))
    case (NetDevice(nic), NetControl(val)) => NetDevice(Net.ControlStored(nic, val))
    case (NetDevice(nic), NetIrq(isRead, val)) => NetDevice(Net.IrqStored(nic, isRead, val))
    case (NetDevice(nic), NetReceive) => NetDevice(Net.Received(nic))
    case (EmufsDevice(emu), EmufsStart(res)) => EmufsDevice(Emufs.Started(emu, res))
    case (EmufsDevice(emu), EmufsResult(val)) => EmufsDevice(Emufs.ResultSet(emu, val))
    case _ => d
  }

  /* Can this call be for this device? */
  predicate Expected(d: Device, func: nat) {
    match d
    case DiskDevice(disk, _) => (func == SEEK_DONE || func == WAIT_DONE) && disk.pending != []
    case SerialDevice(port) => (func == SERIAL_PUSH && port.pushes > 0) || (func == SERIAL_WRITE_DONE && port.writes > 0)
    case NetDevice(nic) => func == NET_SEND && nic.sends > 0
    case EmufsDevice(emu) => func == EMUFS_DONE && emu.dones > 0
  }

  function Handled(d: Device, func: nat, env: Disk.Env, len: nat): Device
    requires Expected(d, func)
  {
    match d
    case DiskDevice(disk, tot) => DiskDevice(Disk.Fired(disk, tot, env), tot)
    case SerialDevice(port) =>
      SerialDevice(if func == SERIAL_PUSH then Serial.PushFired(port) else Serial.WriteFired(port))
    case NetDevice(nic) => NetDevice(Net.SendFired(nic, len))
    case EmufsDevice(emu) => EmufsDevice(Emufs.DoneFired(emu))
  }

  /* The device with the event that is about to be handled taken off its account. */
  function Consumed(d: Device, func: nat): Device
    requires Expected(d, func)
  {
    match d
    case DiskDevice(disk, tot) => DiskDevice(disk.(pending := disk.pending[1..]), tot)
    case SerialDevice(port) =>
      SerialDevice(if func == SERIAL_PUSH then port.(pushes := port.pushes - 1) else port.(writes := port.writes - 1))
    case NetDevice(nic) => NetDevice(nic.(sends := nic.sends - 1))
    case EmufsDevice(emu) => EmufsDevice(emu.(dones := emu.dones - 1))
  }

  /* What a step that took the device from `d` to `r` asked of the clock. No
     step asks for more than one event. */
  function Asked(d: Device, r: Device, slot: nat): seq<Ask> {
    match (d, r)
    case (DiskDevice(x, _), DiskDevice(y, _)) =>
      if |x.pending| < |y.pending| then
        [Ask(y.pending[|y.pending| - 1].nsecs, DiskCall(slot, y.pending[|y.pending| - 1]))]
      else []
    case (SerialDevice(x), SerialDevice(y)) =>
      if x.pushes < y.pushes then [Ask(SERIAL_NSECS, Call(SERIAL_PUSH, slot, 0))]
      else if x.writes < y.writes then [Ask(SERIAL_NSECS, Call(SERIAL_WRITE_DONE, slot, 0))]
      else []
    case (NetDevice(x), NetDevice(y)) =>
      if x.sends < y.sends then [Ask(Net.NETWORK_LATENCY, Call(NET_SEND, slot, 0))] else []
    case (EmufsDevice(x), EmufsDevice(y)) =>
      if x.dones < y.dones then [Ask(Emufs.EMUFS_NSECS, Call(EMUFS_DONE, slot, 0))] else []
    case _ => []
  }

  // ------------------------------------------------------------------
  // The queue and the devices

  predicate Is(e: Event, slot: nat, func: nat) {
    e.call.slot == slot && e.call.func == func
  }

  function Count(q: seq<Event>, slot: nat, func: nat): nat {
    if q == [] then 0 else (if Is(q[0], slot, func) then 1 else 0) + Count(q[1..], slot, func)
  }

  lemma {:induction false} CountInsert(q: seq<Event>, e: Event, slot: nat, func: nat)
    ensures Count(Insert(q, e), slot, func) == Count(q, slot, func) + (if Is(e, slot, func) then 1 else 0)
  {
    if q == [] || e.vtime < q[0].vtime {
      assert ([e] + q)[1..] == q;
    } else {
      CountInsert(q[1..], e, slot, func);
      assert Insert(q, e)[1..] == Insert(q[1..], e);
    }
  }

  ghost predicate DiskCallsAre(q: seq<Event>, slot: nat, pending: seq<Disk.Pending>) {
    forall i :: 0 <= i < |q| && (Is(q[i], slot, SEEK_DONE) || Is(q[i], slot, WAIT_DONE)) ==>
      pending != [] && q[i].call == DiskCall(slot, pending[0])
  }

  /* The queue holds for this slot just the events the device is waiting for. */
  ghost predicate Agrees(q: seq<Event>, slot: nat, d: Device) {
    match d
    case DiskDevice(disk, _) =>
      Count(q, slot, SEEK_DONE) + Count(q, slot, WAIT_DONE) == |disk.pending| && DiskCallsAre(q, slot, disk.pending)
    case SerialDevice(port) =>
      Count(q, slot, SERIAL_PUSH) == port.pushes && Count(q, slot, SERIAL_WRITE_DONE) == port.writes
    case NetDevice(nic) => Count(q, slot, NET_SEND) == nic.sends
    case EmufsDevice(emu) => Count(q, slot, EMUFS_DONE) == emu.dones
  }

  datatype System = System(now: nat, serial: nat, queue: seq<Event>, devs: seq<Device>)

  ghost predicate InAgreement(s: System) {
    forall k :: 0 <= k < |s.devs| ==> Sound(s.devs[k]) && Agrees(s.queue, k, s.devs[k])
  }

  function Scheduled(q: seq<Event>, now: nat, serial: nat, asks: seq<Ask>, jitter: nat): seq<Event> {
    if asks == [] then q else Insert(q, Event(now + asks[0].nsecs + jitter, serial, asks[0].call))
  }

  datatype Step =
    | Poke(slot: nat, input: Input, jitter: nat)
    | Elsewhere(nsecs: nat, call: Call)          // some other part schedules an event
    | Advance(nsecs: nat)
    | FireHead(env: Disk.Env, len: nat, jitter: nat)

  function Stepped(s: System, st: Step): System {
    match st
    case Poke(slot, input, jitter) =>
      if slot >= |s.devs| then s
      else
        var d := s.devs[slot];
        var r := Poked(d, input);
        s.(devs := s.devs[slot := r], serial := s.serial + 1,
           queue := Scheduled(s.queue, s.now, s.serial, Asked(d, r, slot), jitter))
    case Elsewhere(nsecs, call) =>
      if call.func < OTHERS then s
      else s.(serial := s.serial + 1, queue := Insert(s.queue, Event(s.now + nsecs, s.serial, call)))
    case Advance(nsecs) => s.(now := s.now + nsecs)
    case FireHead(env, len, jitter) =>
      if s.queue == [] || s.queue[0].vtime > s.now then s
      else
        var call := s.queue[0].call;
        if call.slot < |s.devs| && call.func < OTHERS && Expected(s.devs[call.slot], call.func) then
          var d := s.devs[call.slot];
          var r := Handled(d, call.func, env, len);
          s.(devs := s.devs[call.slot := r], serial := s.serial + 1,
             queue := Scheduled(s.queue[1..], s.now, s.serial, Asked(Consumed(d, call.func), r, call.slot), jitter))
        else s.(queue := s.queue[1..])
  }

  // ------------------------------------------------------------------
  // When things complete

  /* The step makes the queue of s hold this one event more, `nsecs` and the jitter
     from now. */
  predicate Asks(s: System, r: System, nsecs: nat, call: Call, jitter: nat) {
    r.queue == Insert(s.queue, Event(s.now + nsecs + jitter, s.serial, call)) && r.now == s.now
  }

  /** How long each operation takes: 2 ms to send a packet, 5 ms for an operation on a
      file, 20833 ns for a character in or out; the disk takes what it asked for. */
  lemma CompletionTimes(s: System, slot: nat, jitter: nat)
    requires slot < |s.devs|
    ensures s.devs[slot].NetDevice? && !s.devs[slot].nic.start ==>
              Asks(s, Stepped(s, Poke(slot, NetControl(2), jitter)), 2_000_000, Call(NET_SEND, slot, 0), jitter)
    ensures forall res: nat :: s.devs[slot].EmufsDevice? && !s.devs[slot].emu.busy ==>
              Asks(s, Stepped(s, Poke(slot, EmufsStart(res), jitter)), 5_000_000, Call(EMUFS_DONE, slot, 0), jitter)
    ensures forall ch: nat :: s.devs[slot].SerialDevice? && !s.devs[slot].port.wbusy ==>
              Asks(s, Stepped(s, Poke(slot, ToSerial(Serial.Send(ch)), jitter)), 20833,
                   Call(SERIAL_WRITE_DONE, slot, 0), jitter)
    ensures forall ch: int ::
              s.devs[slot].SerialDevice? && !s.devs[slot].port.rbusy && |s.devs[slot].port.buffered| < 511 ==>
                Asks(s, Stepped(s, Poke(slot, ToSerial(Serial.Key(ch)), jitter)), 20833,
                     Call(SERIAL_PUSH, slot, 0), jitter)
    ensures forall val: Words.word, env: Disk.Env ::
              s.devs[slot].DiskDevice? && s.devs[slot].disk.pending == [] ==>
                var d := Disk.StatusSet(s.devs[slot].disk, s.devs[slot].totSectors, env, val);
                |d.pending| == 1 ==>
                  Asks(s, Stepped(s, Poke(slot, ToDisk(Disk.Status(val), env), jitter)), d.pending[0].nsecs,
                       DiskCall(slot, d.pending[0]), jitter)
  {
    hide Disk.StatusSet, Insert;
  }

  // ------------------------------------------------------------------
  // One device

  lemma PokeSound(d: Device, i: Input)
    requires Sound(d)
    ensures Sound(Poked(d, i))
  {
    match (d, i)
    case (DiskDevice(disk, tot), ToDisk(step, env)) =>
      if !step.Fire? {
        Disk.StepSound(disk, tot, step, env);
      }
    case (SerialDevice(port), ToSerial(step)) =>
      if !step.Push? && !step.Done? {
        Serial.StepKeeps(port, step);
      }
    case _ =>
  }

  lemma HandleSound(d: Device, func: nat, env: Disk.Env, len: nat)
    requires Sound(d) && Expected(d, func)
    ensures Sound(Handled(d, func, env, len))
  {
    match d
    case DiskDevice(disk, tot) => Disk.StepSound(disk, tot, Disk.Fire, env);
    case SerialDevice(port) => Serial.StepKeeps(port, if func == SERIAL_PUSH then Serial.Push else Serial.Done);
    case _ =>
  }

  /* From x to r at most one event more is outstanding. */
  predicate OneMore(x: Device, r: Device) {
    match (x, r)
    case (DiskDevice(a, _), DiskDevice(b, _)) =>
      b.pending == a.pending || (a.pending == [] && |b.pending| == 1)
    case (SerialDevice(a), SerialDevice(b)) =>
      (b.pushes == a.pushes && b.writes == a.writes)
      || (b.pushes == a.pushes + 1 && b.writes == a.writes)
      || (b.pushes == a.pushes && b.writes == a.writes + 1)
    case (NetDevice(a), NetDevice(b)) => a.sends <= b.sends <= a.sends + 1
    case (EmufsDevice(a), EmufsDevice(b)) => a.dones <= b.dones <= a.dones + 1
    case _ => false
  }

  lemma DiskUpdateAsks(d: Disk.Disk, tot: Words.word, e: Disk.Env)
    requires |d.pending| == (if d.timedop then 1 else 0)
    ensures var r := Disk.Updated(d, tot, e);
            r.pending == d.pending || (d.pending == [] && |r.pending| == 1)
  {
  }

  lemma DiskPokeAsks(d: Device, i: Input)
    requires Sound(d) && d.DiskDevice?
    ensures OneMore(d, Poked(d, i))
  {
    hide Disk.Updated;
    if i.ToDisk? && i.step.Status? {
      var disk := d.disk;
      DiskUpdateAsks(disk.(iostatus := -1, stat := Disk.IDLE), d.totSectors, i.env);
      DiskUpdateAsks(disk.(iostatus := 0, stat := Disk.READING), d.totSectors, i.env);
      DiskUpdateAsks(disk.(iostatus := 0, stat := Disk.WRITING), d.totSectors, i.env);
    }
  }

  lemma SerialPokeAsks(d: Device, i: Input)
    requires Sound(d) && d.SerialDevice?
    ensures OneMore(d, Poked(d, i))
  {
  }

  lemma PokeAsks(d: Device, i: Input)
    requires Sound(d)
    ensures OneMore(d, Poked(d, i))
  {
    match d
    case DiskDevice(_, _) => DiskPokeAsks(d, i);
    case SerialDevice(_) => SerialPokeAsks(d, i);
    case _ =>
  }

  lemma HandleAsks(d: Device, func: nat, env: Disk.Env, len: nat)
    requires Sound(d) && Expected(d, func)
    ensures OneMore(Consumed(d, func), Handled(d, func, env, len))
  {
    match d
    case DiskDevice(disk, tot) => DiskUpdateAsks(Disk.Delivered(disk, env), tot, env);
    case _ =>
  }

  // ------------------------------------------------------------------
  // The queue keeps up

  lemma InsertElsewhere(q: seq<Event>, e: Event, k: nat, d: Device)
    requires Agrees(q, k, d) && (e.call.slot != k || e.call.func >= OTHERS)
    ensures Agrees(Insert(q, e), k, d)
  {
    forall func: nat | func < OTHERS
      ensures Count(Insert(q, e), k, func) == Count(q, k, func)
    {
      CountInsert(q, e, k, func);
    }
    if d.DiskDevice? {
      DiskCallsInsert(q, e, k, d.disk.pending);
    }
  }

  lemma DiskCallsInsert(q: seq<Event>, e: Event, slot: nat, pending: seq<Disk.Pending>)
    requires DiskCallsAre(q, slot, pending)
    requires Is(e, slot, SEEK_DONE) || Is(e, slot, WAIT_DONE) ==> pending != [] && e.call == DiskCall(slot, pending[0])
    ensures DiskCallsAre(Insert(q, e), slot, pending)
  {
    var r := Insert(q, e);
    forall i | 0 <= i < |r| && (Is(r[i], slot, SEEK_DONE) || Is(r[i], slot, WAIT_DONE))
      ensures pending != [] && r[i].call == DiskCall(slot, pending[0])
    {
      assert r[i] == e || r[i] in q;
    }
  }

  lemma {:induction false} NoDiskCalls(q: seq<Event>, slot: nat)
    requires Count(q, slot, SEEK_DONE) == 0 && Count(q, slot, WAIT_DONE) == 0
    ensures DiskCallsAre(q, slot, [])
  {
    if q != [] {
      NoDiskCalls(q[1..], slot);
      forall i | 0 <= i < |q|
        ensures !Is(q[i], slot, SEEK_DONE) && !Is(q[i], slot, WAIT_DONE)
      {
        assert i > 0 ==> q[i] == q[1..][i - 1];
      }
    }
  }

  lemma AskAgrees(q: seq<Event>, now: nat, serial: nat, x: Device, r: Device, slot: nat, jitter: nat)
    requires Agrees(q, slot, x) && OneMore(x, r)
    ensures Agrees(Scheduled(q, now, serial, Asked(x, r, slot), jitter), slot, r)
  {
    var asks := Asked(x, r, slot);
    if asks != [] {
      var e := Event(now + asks[0].nsecs + jitter, serial, asks[0].call);
      forall func: nat | func < OTHERS
        ensures Count(Insert(q, e), slot, func) == Count(q, slot, func) + (if Is(e, slot, func) then 1 else 0)
      {
        CountInsert(q, e, slot, func);
      }
      if x.DiskDevice? {
        NoDiskCalls(q, slot);
        assert DiskCallsAre(q, slot, r.disk.pending);
        DiskCallsInsert(q, e, slot, r.disk.pending);
      }
    }
  }

  lemma AskElsewhere(q: seq<Event>, now: nat, serial: nat, x: Device, r: Device, slot: nat, jitter: nat, k: nat, d: Device)
    requires Agrees(q, k, d) && k != slot
    ensures Agrees(Scheduled(q, now, serial, Asked(x, r, slot), jitter), k, d)
  {
    var asks := Asked(x, r, slot);
    if asks != [] {
      InsertElsewhere(q, Event(now + asks[0].nsecs + jitter, serial, asks[0].call), k, d);
    }
  }

  /* The head of the queue, if it is for this device, is one it waits for. */
  lemma HeadExpected(q: seq<Event>, k: nat, d: Device)
    requires Sound(d) && Agrees(q, k, d) && q != [] && q[0].call.slot == k
    ensures !Expected(d, q[0].call.func) ==> Agrees(q[1..], k, d)
    ensures Expected(d, q[0].call.func) ==> Agrees(q[1..], k, Consumed(d, q[0].call.func))
    ensures d.DiskDevice? && Expected(d, q[0].call.func) ==> q[0].call == DiskCall(k, d.disk.pending[0])
  {
    if d.DiskDevice? {
      if Count(q[1..], k, SEEK_DONE) + Count(q[1..], k, WAIT_DONE) == 0 {
        NoDiskCalls(q[1..], k);
      }
      assert Is(q[0], k, SEEK_DONE) || Is(q[0], k, WAIT_DONE) ==>
          d.disk.pending != [] && q[0].call == DiskCall(k, d.disk.pending[0]);
    }
  }

  lemma HeadElsewhere(q: seq<Event>, k: nat, d: Device)
    requires Agrees(q, k, d) && q != [] && q[0].call.slot != k
    ensures Agrees(q[1..], k, d)
  {
  }

  lemma PokeKeepsAgreement(s: System, slot: nat, input: Input, jitter: nat)
    requires InAgreement(s)
    ensures InAgreement(Stepped(s, Poke(slot, input, jitter)))
  {
    hide Sound, Agrees, Poked, Asked, Scheduled, OneMore;
    if slot < |s.devs| {
      var d := s.devs[slot];
      var r := Poked(d, input);
      PokeSound(d, input);
      PokeAsks(d, input);
      AskAgrees(s.queue, s.now, s.serial, d, r, slot, jitter);
      forall k | 0 <= k < |s.devs| && k != slot
        ensures Agrees(Scheduled(s.queue, s.now, s.serial, Asked(d, r, slot), jitter), k, s.devs[k])
      {
        AskElsewhere(s.queue, s.now, s.serial, d, r, slot, jitter, k, s.devs[k]);
      }
    }
  }

  lemma FireKeepsAgreement(s: System, env: Disk.Env, len: nat, jitter: nat)
    requires InAgreement(s)
    ensures InAgreement(Stepped(s, FireHead(env, len, jitter)))
  {
    hide Sound, Agrees, Handled, Asked, Scheduled, OneMore, Consumed, Expected;
    if s.queue != [] && s.queue[0].vtime <= s.now {
      var call, tail := s.queue[0].call, s.queue[1..];
      forall k | 0 <= k < |s.devs| && k != call.slot
        ensures Agrees(tail, k, s.devs[k])
      {
        HeadElsewhere(s.queue, k, s.devs[k]);
      }
      if call.slot < |s.devs| {
        var d := s.devs[call.slot];
        HeadExpected(s.queue, call.slot, d);
        OthersUnexpected(d, call.func);
        if Expected(d, call.func) {
          var x, r := Consumed(d, call.func), Handled(d, call.func, env, len);
          HandleSound(d, call.func, env, len);
          HandleAsks(d, call.func, env, len);
          AskAgrees(tail, s.now, s.serial, x, r, call.slot, jitter);
          forall k | 0 <= k < |s.devs| && k != call.slot
            ensures Agrees(Scheduled(tail, s.now, s.serial, Asked(x, r, call.slot), jitter), k, s.devs[k])
          {
            AskElsewhere(tail, s.now, s.serial, x, r, call.slot, jitter, k, s.devs[k]);
          }
        }
      }
    }
  }

  lemma OthersUnexpected(d: Device, func: nat)
    ensures func >= OTHERS ==> !Expected(d, func)
  {
  }

  lemma StepKeepsAgreement(s: System, st: Step)
    requires InAgreement(s)
    ensures InAgreement(Stepped(s, st))
  {
    hide Sound, Agrees;
    match st
    case Poke(slot, input, jitter) => PokeKeepsAgreement(s, slot, input, jitter);
    case FireHead(env, len, jitter) => FireKeepsAgreement(s, env, len, jitter);
    case Elsewhere(nsecs, call) =>
      if call.func >= OTHERS {
        forall k | 0 <= k < |s.devs|
          ensures Agrees(Insert(s.queue, Event(s.now + nsecs, s.serial, call)), k, s.devs[k])
        {
          InsertElsewhere(s.queue, Event(s.now + nsecs, s.serial, call), k, s.devs[k]);
        }
      }
    case Advance(_) =>
  }

  function Ran(s: System, steps: seq<Step>): System
    decreases |steps|
  {
    if steps == [] then s else Ran(Stepped(s, steps[0]), steps[1..])
  }

  lemma {:induction false} RunKeepsAgreement(s: System, steps: seq<Step>)
    requires InAgreement(s)
    ensures InAgreement(Ran(s, steps))
    decreases |steps|
  {
    if steps != [] {
      StepKeepsAgreement(s, steps[0]);
      RunKeepsAgreement(Stepped(s, steps[0]), steps[1..]);
    }
  }

  predicate Fresh(d: Device) {
    match d
    case DiskDevice(disk, _) => disk == Disk.PowerOn(disk.arrivalSecs, disk.arrivalNsecs)
    case SerialDevice(port) => port == Serial.PowerOn()
    case NetDevice(nic) => nic == Net.PowerOn()
    case EmufsDevice(emu) => emu == Emufs.PowerOn()
  }

  /* How many completions of the device's main operation are queued for its slot. */
  function Completions(q: seq<Event>, slot: nat, d: Device): nat {
    match d
    case DiskDevice(_, _) => Count(q, slot, SEEK_DONE) + Count(q, slot, WAIT_DONE)
    case SerialDevice(_) => Count(q, slot, SERIAL_WRITE_DONE)
    case NetDevice(_) => Count(q, slot, NET_SEND)
    case EmufsDevice(_) => Count(q, slot, EMUFS_DONE)
  }

  /** However the stores, the events and the input interleave, aborts and second
      starts included: a device's busy flag is set exactly while one completion
      event for it is in the queue, and there is never more than one. */
  lemma BusyIsOnePending(devs: seq<Device>, steps: seq<Step>, slot: nat)
    requires forall k :: 0 <= k < |devs| ==> Fresh(devs[k])
    requires slot < |Ran(System(0, 0, [], devs), steps).devs|
    ensures var end := Ran(System(0, 0, [], devs), steps);
            Completions(end.queue, slot, end.devs[slot]) == if Busy(end.devs[slot]) then 1 else 0
  {
    var s := System(0, 0, [], devs);
    forall k | 0 <= k < |devs|
      ensures Sound(devs[k]) && Agrees([], k, devs[k])
    {
    }
    RunKeepsAgreement(s, steps);
    var end := Ran(s, steps);
    assert Sound(end.devs[slot]) && Agrees(end.queue, slot, end.devs[slot]);
  }

  /** When a device's event is delivered, the device was waiting for it: the
      emulator filesystem never completes an operation it did not start, and the
      disk is told of the seek or wait it asked for. */
  lemma DeliveredWasAwaited(s: System)
    requires InAgreement(s) && s.queue != []
    requires s.queue[0].call.slot < |s.devs|
    requires Completes(s.devs[s.queue[0].call.slot], s.queue[0].call.func)
    ensures var d := s.devs[s.queue[0].call.slot];
            && Expected(d, s.queue[0].call.func) && Busy(d)
            && (d.DiskDevice? ==> s.queue[0].call == DiskCall(s.queue[0].call.slot, d.disk.pending[0]))
  {
    var slot := s.queue[0].call.slot;
    assert Sound(s.devs[slot]) && Agrees(s.queue, slot, s.devs[slot]);
    HeadExpected(s.queue, slot, s.devs[slot]);
  }
}
