/**
 The serial port. Characters typed at the console wait in a ring buffer and are
 handed to the processor one by one by timed pushes.
 */
module Serial {

  import opened Words

  const INBUF_SIZE: nat := 512

  /* An interrupt register: enabled, ready, forced. */
  datatype Irq = Irq(on: bool, ready: bool, force: bool)

  /* The port as a value: the buffered characters in order, and how many push
     and write-done events the clock holds for it. `accepted` and `delivered`
     remember the characters taken from the keyboard and shown to the processor. */
  datatype Port = Port(wbusy: bool, rbusy: bool, rirq: Irq, wirq: Irq, readch: nat, didread: bool,
                       buffered: seq<byte>, pushes: nat, writes: nat, line: bool,
                       accepted: seq<byte>, delivered: seq<byte>, printed: seq<nat>)

  const QUIET := Irq(false, false, false)

  function PowerOn(): Port {
    Port(false, false, QUIET, QUIET, 0, true, [], 0, 0, false, [], [], [])
  }

  predicate Asserted(i: Irq) {
    i.on && (i.ready || i.force)
  }

  function WithLine(p: Port): Port {
    p.(line := Asserted(p.rirq) || Asserted(p.wirq))
  }

  /* The processor has not read the last character and has not acknowledged it. */
  predicate Unread(p: Port) {
    !p.didread && p.rirq.ready
  }

  /* The next character is shown to the processor. */
  function Shown(p: Port): Port
    requires p.buffered != []
  {
    p.(readch := p.buffered[0], buffered := p.buffered[1..], didread := false,
       rirq := p.rirq.(ready := true), delivered := p.delivered + [p.buffered[0]])
  }

  /* serial_pushinput. */
  function Pushed(p: Port): Port {
    if p.buffered == [] then p.(rbusy := false)
    else if Unread(p) then p.(pushes := p.pushes + 1)
    else WithLine(Shown(p)).(rbusy := true, pushes := p.pushes + 1)
  }

  /* A push leaves the processor the first character that waits, marked as not yet
     read and announced, unless it has still to read the last. */
  predicate Delivers(p: Port, r: Port) {
    if p.buffered != [] && (p.didread || !p.rirq.ready) then
      && r.readch == p.buffered[0] && r.buffered == p.buffered[1..] && !r.didread
      && r.rirq == Irq(p.rirq.on, true, p.rirq.force) && r.delivered == p.delivered + [r.readch]
    else
      && r.readch == p.readch && r.buffered == p.buffered && r.didread == p.didread
      && r.rirq == p.rirq && r.delivered == p.delivered
  }

  lemma PushDelivers(p: Port)
    ensures Delivers(p, Pushed(p))
  {
  }

  /* serial_input: one slot of the ring always stays free; a character is kept
     as a byte. */
  function Typed(p: Port, ch: int): Port {
    if |p.buffered| == INBUF_SIZE - 1 then p
    else
      var q := p.(buffered := p.buffered + [ch % 256], accepted := p.accepted + [ch % 256]);
      if q.rbusy then q else Pushed(q)
  }

  function PushFired(p: Port): Port
    requires p.pushes > 0
  {
    Pushed(p.(pushes := p.pushes - 1))
  }

  function Fetched(p: Port): Port {
    p.(didread := true)
  }

  function RirqStored(p: Port, val: Irq): Port {
    WithLine(p.(rirq := val))
  }

  function WirqStored(p: Port, val: Irq): Port {
    WithLine(p.(wirq := val))
  }

  function Sent(p: Port, ch: nat): Port {
    if p.wbusy then p else p.(wbusy := true, printed := p.printed + [ch], writes := p.writes + 1)
  }

  function WriteFired(p: Port): Port
    requires p.writes > 0
  {
    WithLine(p.(writes := p.writes - 1, wbusy := false, wirq := p.wirq.(ready := true)))
  }

  // ------------------------------------------------------------------
  // The ring

  function Succ(i: nat): nat
    requires i < INBUF_SIZE
  {
    (i + 1) % INBUF_SIZE
  }

  function Ring(a: seq<byte>, head: nat, tail: nat): seq<byte>
    requires |a| == INBUF_SIZE && head < INBUF_SIZE && tail < INBUF_SIZE
  {
    if head <= tail then a[head..tail] else a[head..] + a[..tail]
  }

  lemma RingFull(a: seq<byte>, head: nat, tail: nat)
    requires |a| == INBUF_SIZE && head < INBUF_SIZE && tail < INBUF_SIZE
    ensures |Ring(a, head, tail)| == INBUF_SIZE - 1 <==> Succ(tail) == head
    ensures Ring(a, head, tail) == [] <==> head == tail
    ensures |Ring(a, head, tail)| < INBUF_SIZE
  {
  }

  lemma SuccWraps(i: nat)
    requires i < INBUF_SIZE
    ensures Succ(i) == if i == INBUF_SIZE - 1 then 0 else i + 1
  {
  }

  lemma RingAdd(a: seq<byte>, head: nat, tail: nat, ch: byte)
    requires |a| == INBUF_SIZE && head < INBUF_SIZE && tail < INBUF_SIZE && Succ(tail) != head
    ensures Ring(a[tail := ch], head, Succ(tail)) == Ring(a, head, tail) + [ch]
  {
    hide Succ;
    SuccWraps(tail);
    var b := a[tail := ch];
    if tail < head {
      assert b[head..] == a[head..] && b[..tail + 1] == a[..tail] + [ch];
    } else if tail + 1 < INBUF_SIZE {
      assert b[head..tail + 1] == a[head..tail] + [ch];
    } else {
      assert b[head..] + b[..0] == a[head..tail] + [ch];
    }
  }

  lemma HeadFirst(a: seq<byte>, i: nat, j: nat, rest: seq<byte>)
    requires i < j <= |a|
    ensures a[i..j] + rest == [a[i]] + (a[i + 1..j] + rest)
  {
  }

  lemma RingTake(a: seq<byte>, head: nat, tail: nat)
    requires |a| == INBUF_SIZE && head < INBUF_SIZE && tail < INBUF_SIZE && head != tail
    ensures Ring(a, head, tail) == [a[head]] + Ring(a, Succ(head), tail)
  {
    hide Succ;
    SuccWraps(head);
    if head < tail {
      HeadFirst(a, head, tail, []);
      assert a[head..tail] + [] == a[head..tail] && a[head + 1..tail] + [] == a[head + 1..tail];
    } else {
      HeadFirst(a, head, INBUF_SIZE, a[..tail]);
      assert a[head..INBUF_SIZE] == a[head..] && a[head + 1..INBUF_SIZE] == a[head + 1..];
      assert head == INBUF_SIZE - 1 ==> a[INBUF_SIZE..] + a[..tail] == a[0..tail];
    }
  }

  lemma RingRest(a: seq<byte>, head: nat, tail: nat)
    requires |a| == INBUF_SIZE && head < INBUF_SIZE && tail < INBUF_SIZE && head != tail
    ensures var r := Ring(a, head, tail);
            r != [] && r[0] == a[head] && r[1..] == Ring(a, Succ(head), tail)
  {
    hide Ring, Succ;
    RingTake(a, head, tail);
  }

  // ------------------------------------------------------------------
  // The port, updated in place

  class SerialPort {
    var wbusy: bool
    var rbusy: bool
    var rirq: Irq
    var wirq: Irq
    var readch: nat
    var didread: bool
    const inbuf: array<byte>
    var head: nat               // characters are read from here
    var tail: nat               // and written here
    var pushes: nat
    var writes: nat
    var line: bool
    var printed: seq<nat>
    ghost var accepted: seq<byte>
    ghost var delivered: seq<byte>

    ghost predicate Valid()
      reads this
    {
      inbuf.Length == INBUF_SIZE && head < INBUF_SIZE && tail < INBUF_SIZE
    }

    ghost function View(): Port
      reads this, inbuf
      requires Valid()
    {
      Port(wbusy, rbusy, rirq, wirq, readch, didread, Ring(inbuf[..], head, tail), pushes, writes, line,
           accepted, delivered, printed)
    }

    constructor ()
      ensures Valid() && fresh(inbuf) && View() == PowerOn()
    {
      wbusy, rbusy, rirq, wirq := false, false, QUIET, QUIET;
      readch, didread, head, tail := 0, true, 0, 0;
      pushes, writes, line, printed := 0, 0, false, [];
      accepted, delivered := [], [];
      inbuf := new byte[INBUF_SIZE](_ => 0);
    }

    method SetIrq()
      requires Valid()
      modifies this`line
      ensures View() == WithLine(old(View()))
      ensures line <==> (rirq.on && (rirq.ready || rirq.force)) || (wirq.on && (wirq.ready || wirq.force))
    {
      line := (rirq.on && (rirq.ready || rirq.force)) || (wirq.on && (wirq.ready || wirq.force));
    }

    /* Show the next character to the processor. */
    method Deliver()
      requires Valid() && head != tail
      modifies this`readch, this`head, this`didread, this`rirq, this`delivered
      ensures Valid() && View() == Shown(old(View()))
    {
      hide Ring;
      RingRest(inbuf[..], head, tail);
      readch := inbuf[head];
      head := (head + 1) % INBUF_SIZE;
      didread := false;
      rirq := rirq.(ready := true);
      delivered := delivered + [readch];
    }

    /* And it asks for its attention. */
    method Present()
      requires Valid() && head != tail
      modifies this`readch, this`head, this`didread, this`rirq, this`delivered, this`line
      ensures Valid() && View() == WithLine(Shown(old(View())))
    {
      hide Ring, Shown, WithLine;
      RingRest(inbuf[..], head, tail);
      Deliver();
      SetIrq();
    }

    method PushInput()
      requires Valid()
      modifies this
      ensures Valid() && View() == Pushed(old(View()))
      ensures Delivers(old(View()), View())
    {
      hide Ring, Shown, WithLine, Delivers;
      PushDelivers(View());
      RingFull(inbuf[..], head, tail);
      if head == tail {
        rbusy := false;
      } else if !didread && rirq.ready {
        pushes := pushes + 1;
      } else {
        Present();
        rbusy := true;
        pushes := pushes + 1;
      }
    }

    method Input(ch: int)
      requires Valid()
      modifies this, inbuf
      ensures Valid() && View() == Typed(old(View()), ch)
      ensures accepted == if old(|View().buffered|) < 511 then old(accepted) + [ch % 256] else old(accepted)
    {
      hide Ring;
      RingFull(inbuf[..], head, tail);
      var nextTail := (tail + 1) % INBUF_SIZE;
      if nextTail == head {
        return;
      }
      var c: byte := ch % 256;
      RingAdd(inbuf[..], head, tail, c);
      ghost var was := inbuf[..];
      inbuf[tail] := c;
      assert inbuf[..] == was[tail := c];
      tail := nextTail;
      accepted := accepted + [ch % 256];
      if !rbusy {
        PushInput();
      }
    }

    method FirePush()
      requires Valid() && pushes > 0
      modifies this
      ensures Valid() && View() == PushFired(old(View()))
    {
      hide Ring, Pushed;
      pushes := pushes - 1;
      PushInput();
    }

    method FetchChar() returns (val: nat)
      requires Valid()
      modifies this`didread
      ensures View() == Fetched(old(View())) && val == readch
    {
      didread := true;
      return readch;
    }

    method StoreChar(ch: nat)
      requires Valid()
      modifies this`wbusy, this`printed, this`writes
      ensures View() == Sent(old(View()), ch)
      ensures wbusy && printed == if old(wbusy) then old(printed) else old(printed) + [ch]
    {
      if !wbusy {
        wbusy := true;
        printed := printed + [ch];
        writes := writes + 1;
      }
    }

    method WriteDone()
      requires Valid() && writes > 0
      modifies this`writes, this`wbusy, this`wirq, this`line
      ensures View() == WriteFired(old(View()))
      ensures !wbusy && wirq == old(wirq).(ready := true)
    {
      writes := writes - 1;
      wbusy := false;
      wirq := wirq.(ready := true);
      SetIrq();
    }

    method StoreRirq(val: Irq)
      requires Valid()
      modifies this`rirq, this`line
      ensures View() == RirqStored(old(View()), val) && rirq == val
    {
      rirq := val;
      SetIrq();
    }

    method StoreWirq(val: Irq)
      requires Valid()
      modifies this`wirq, this`line
      ensures View() == WirqStored(old(View()), val) && wirq == val
    {
      wirq := val;
      SetIrq();
    }
  }

  // ------------------------------------------------------------------
  // Every run

  datatype Step =
    | Key(ch: int)
    | Push
    | Fetch
    | Rirq(irq: Irq)
    | Wirq(irq: Irq)
    | Send(val: nat)
    | Done

  predicate Possible(p: Port, s: Step) {
    (s.Push? ==> p.pushes > 0) && (s.Done? ==> p.writes > 0)
  }

  function Stepped(p: Port, s: Step): Port
    requires Possible(p, s)
  {
    match s
    case Key(ch) => Typed(p, ch)
    case Push => PushFired(p)
    case Fetch => Fetched(p)
    case Rirq(val) => RirqStored(p, val)
    case Wirq(val) => WirqStored(p, val)
    case Send(ch) => Sent(p, ch)
    case Done => WriteFired(p)
  }

  /* Nothing is lost or reordered; what the processor can read is what was
     delivered last; the buffer is never full; while something is buffered a push is
     on its way; and the write flag is one pending event. */
  predicate Sound(p: Port) {
    && p.delivered + p.buffered == p.accepted
    && LastShown(p)
    && |p.buffered| < INBUF_SIZE
    && (p.buffered != [] ==> p.pushes > 0)
    && (p.rbusy ==> p.pushes > 0)
    && p.writes == (if p.wbusy then 1 else 0)
    && p.line == (Asserted(p.rirq) || Asserted(p.wirq))
  }

  predicate LastShown(p: Port) {
    if p.delivered == [] then p.didread else p.readch == p.delivered[|p.delivered| - 1]
  }

  lemma PushKeeps(p: Port)
    requires p.delivered + p.buffered == p.accepted && |p.buffered| < INBUF_SIZE && LastShown(p)
    requires p.writes == (if p.wbusy then 1 else 0)
    requires p.line == (Asserted(p.rirq) || Asserted(p.wirq))
    ensures Sound(Pushed(p))
    ensures Unread(p) ==> Pushed(p).readch == p.readch
  {
    if p.buffered != [] {
      assert p.delivered + p.buffered == p.delivered + [p.buffered[0]] + p.buffered[1..];
    }
  }

  lemma TypedKeeps(p: Port, ch: int)
    requires Sound(p)
    ensures Sound(Typed(p, ch))
    ensures Unread(p) ==> Typed(p, ch).readch == p.readch
  {
    var q := p.(buffered := p.buffered + [ch % 256], accepted := p.accepted + [ch % 256]);
    assert p.delivered + (p.buffered + [ch % 256]) == p.accepted + [ch % 256];
    if |p.buffered| < INBUF_SIZE - 1 && !q.rbusy {
      PushKeeps(q);
    }
  }

  /** One step: what is sound stays sound, and a character the processor has
      not read stays in the register as long as its ready bit is set. */
  lemma StepKeeps(p: Port, s: Step)
    requires Sound(p) && Possible(p, s)
    ensures Sound(Stepped(p, s))
    ensures Unread(p) ==> Stepped(p, s).readch == p.readch
  {
    hide Pushed, Typed;
    match s
    case Key(ch) => TypedKeeps(p, ch);
    case Push => PushKeeps(p.(pushes := p.pushes - 1));
    case _ =>
  }

  ghost predicate Reaches(p: Port, steps: seq<Step>, end: Port)
    decreases |steps|
  {
    if steps == [] then end == p
    else Possible(p, steps[0]) && Reaches(Stepped(p, steps[0]), steps[1..], end)
  }

  /** In every run the characters delivered and those still buffered are, in
      order, exactly the ones accepted. */
  lemma {:induction false} LosslessFifo(p: Port, steps: seq<Step>, end: Port)
    requires Sound(p) && Reaches(p, steps, end)
    ensures Sound(end)
    decreases |steps|
  {
    if steps != [] {
      StepKeeps(p, steps[0]);
      LosslessFifo(Stepped(p, steps[0]), steps[1..], end);
    }
  }

  // ------------------------------------------------------------------
  // What is accepted arrives

  function Pushes(steps: seq<Step>): nat {
    if steps == [] then 0 else (if steps[0].Push? then 1 else 0) + Pushes(steps[1..])
  }

  /* Before every push the processor has read the character it was shown last,
     and neither another push nor a key has come in between. */
  predicate PushesAfterReads(steps: seq<Step>, read: bool)
    decreases |steps|
  {
    steps == []
    || ((steps[0].Push? ==> read)
        && PushesAfterReads(steps[1..], steps[0].Fetch? || (read && !steps[0].Push? && !steps[0].Key?)))
  }

  function Least(m: nat, n: nat): nat {
    if m < n then m else n
  }

  /* What one step adds to the characters delivered, accepted and buffered. */
  lemma StepMoves(p: Port, s: Step)
    requires Sound(p) && Possible(p, s)
    ensures var q := Stepped(p, s);
            && p.accepted <= q.accepted
            && (s.Push? && p.didread && p.buffered != [] ==> |q.delivered| == |p.delivered| + 1)
            && |p.delivered| <= |q.delivered| <= |p.delivered| + (if s.Push? || s.Key? then 1 else 0)
            && (s.Fetch? || (p.didread && !s.Push? && !s.Key?) ==> q.didread)
            && |q.delivered| + |q.buffered| >= |p.delivered| + |p.buffered|
  {
    StepKeeps(p, s);
  }

  lemma {:induction false} PushesCount(p: Port, steps: seq<Step>, read: bool, end: Port)
    requires Sound(p) && Reaches(p, steps, end) && PushesAfterReads(steps, read) && (read ==> p.didread)
    ensures p.accepted <= end.accepted
    ensures |end.delivered| >= |p.delivered| + Least(Pushes(steps), |p.buffered|)
    decreases |steps|
  {
    hide Sound, Stepped, Possible;
    if steps != [] {
      StepKeeps(p, steps[0]);
      StepMoves(p, steps[0]);
      PushesCount(Stepped(p, steps[0]), steps[1..],
                  steps[0].Fetch? || (read && !steps[0].Push? && !steps[0].Key?), end);
    }
  }

  ghost predicate NoKeys(steps: seq<Step>) {
    forall i :: 0 <= i < |steps| ==> !steps[i].Key?
  }

  lemma {:induction false} NoMoreThanPushes(p: Port, steps: seq<Step>, end: Port)
    requires Sound(p) && Reaches(p, steps, end) && NoKeys(steps)
    ensures |end.delivered| <= |p.delivered| + Pushes(steps)
    decreases |steps|
  {
    hide Sound, Stepped, Possible;
    if steps != [] {
      StepKeeps(p, steps[0]);
      StepMoves(p, steps[0]);
      NoMoreThanPushes(Stepped(p, steps[0]), steps[1..], end);
    }
  }

  /** In any run in which the processor reads before every push, n pushes have
      brought it the first n characters that were waiting, or all of them; and
      if nothing is typed meanwhile, exactly those. */
  lemma AcceptedArrive(p: Port, steps: seq<Step>, end: Port)
    requires Sound(p) && Reaches(p, steps, end) && PushesAfterReads(steps, false)
    ensures p.delivered + p.buffered[..Least(Pushes(steps), |p.buffered|)] <= end.delivered
    ensures NoKeys(steps) && Pushes(steps) <= |p.buffered| ==>
              end.delivered == p.delivered + p.buffered[..Pushes(steps)]
  {
    hide Reaches, PushesAfterReads, Pushes, NoKeys;
    LosslessFifo(p, steps, end);
    PushesCount(p, steps, false, end);
    if NoKeys(steps) {
      NoMoreThanPushes(p, steps, end);
    }
    var k := Least(Pushes(steps), |p.buffered|);
    Leading(p, end, k);
  }

  lemma Leading(p: Port, end: Port, k: nat)
    requires Sound(p) && Sound(end) && p.accepted <= end.accepted && k <= |p.buffered|
    requires |end.delivered| >= |p.delivered| + k
    ensures p.delivered + p.buffered[..k] == end.delivered[..|p.delivered| + k]
  {
    var n := |p.delivered| + k;
    assert p.delivered + p.buffered[..k] == p.accepted[..n];
    assert end.accepted[..n] == end.delivered[..n];
  }

  // ------------------------------------------------------------------
  // What the processor reads

  /* The characters of this run that the processor reads for the first time: what is
     in the register at each read since the last of which something was delivered. */
  function FirstReads(p: Port, steps: seq<Step>): seq<nat>
    decreases |steps|
  {
    if steps == [] || !Possible(p, steps[0]) then []
    else
      (if steps[0].Fetch? && !p.didread then [p.readch] else [])
      + FirstReads(Stepped(p, steps[0]), steps[1..])
  }

  /* The processor never takes the ready bit off a character that it has not read. */
  predicate Careful(p: Port, steps: seq<Step>)
    decreases |steps|
  {
    steps == [] || !Possible(p, steps[0])
    || ((steps[0].Rirq? && !steps[0].irq.ready ==> p.didread)
        && Careful(Stepped(p, steps[0]), steps[1..]))
  }

  /* A character that is not read is there to be read. */
  predicate Offered(p: Port) {
    Sound(p) && (!p.didread ==> p.rirq.ready)
  }

  function HaveBeenRead(p: Port): seq<nat> {
    if p.didread || p.delivered == [] then p.delivered else p.delivered[..|p.delivered| - 1]
  }

  lemma StepReads(p: Port, s: Step)
    requires Offered(p) && Possible(p, s) && (s.Rirq? && !s.irq.ready ==> p.didread)
    ensures Offered(Stepped(p, s))
    ensures HaveBeenRead(Stepped(p, s))
         == HaveBeenRead(p) + if s.Fetch? && !p.didread then [p.readch] else []
  {
    hide Pushed, Typed, WithLine;
    StepKeeps(p, s);
    match s
    case Key(ch) => TypedReads(p, ch);
    case Push => PushReads(p.(pushes := p.pushes - 1));
    case _ => RegisterReads(p, s);
  }

  lemma PushReads(p: Port)
    requires (!p.didread ==> p.rirq.ready) && LastShown(p)
    ensures var r := Pushed(p);
            HaveBeenRead(r) == HaveBeenRead(p) && (!r.didread ==> r.rirq.ready)
  {
    PushDelivers(p);
  }

  lemma TypedReads(p: Port, ch: int)
    requires Offered(p)
    ensures var r := Typed(p, ch);
            HaveBeenRead(r) == HaveBeenRead(p) && (!r.didread ==> r.rirq.ready)
  {
    hide Pushed;
    PushReads(p.(buffered := p.buffered + [ch % 256], accepted := p.accepted + [ch % 256]));
  }

  lemma RegisterReads(p: Port, s: Step)
    requires Offered(p) && Possible(p, s) && !s.Key? && !s.Push? && (s.Rirq? && !s.irq.ready ==> p.didread)
    ensures var r := Stepped(p, s);
            && (!r.didread ==> r.rirq.ready)
            && HaveBeenRead(r) == HaveBeenRead(p) + if s.Fetch? && !p.didread then [p.readch] else []
  {
    hide Pushed, Typed, Sound;
    OfferedLast(p);
  }

  lemma OfferedLast(p: Port)
    requires Offered(p)
    ensures LastShown(p)
  {
  }

  /** What the processor reads, in every run from power-on in which it does not
      acknowledge what it has not read: the characters typed, in order and each once,
      as far as they have been delivered. */
  lemma {:induction false} ReadsAreDelivered(p: Port, steps: seq<Step>, end: Port)
    requires Offered(p) && Reaches(p, steps, end) && Careful(p, steps)
    ensures Offered(end) && HaveBeenRead(end) == HaveBeenRead(p) + FirstReads(p, steps)
    ensures HaveBeenRead(end) <= end.accepted
    decreases |steps|
  {
    hide Offered, HaveBeenRead, Stepped, Possible;
    if steps == [] {
      assert HaveBeenRead(p) + [] == HaveBeenRead(p);
      ReadAccepted(p);
    } else {
      StepReads(p, steps[0]);
      ReadsAreDelivered(Stepped(p, steps[0]), steps[1..], end);
    }
  }

  lemma ReadAccepted(p: Port)
    requires Offered(p)
    ensures HaveBeenRead(p) <= p.accepted
  {
  }

  lemma PowerOnOffers()
    ensures Offered(PowerOn()) && HaveBeenRead(PowerOn()) == []
  {
  }

  // ------------------------------------------------------------------
  // How many pushes

  /** An accepted character starts another chain of pushes exactly when the busy
      flag is down; a push ends its chain exactly when the buffer is empty. */
  lemma ChainsOfPushes(p: Port, ch: int)
    requires Sound(p)
    ensures |p.buffered| < INBUF_SIZE - 1 ==>
              Typed(p, ch).pushes == p.pushes + (if p.rbusy then 0 else 1)
    ensures p.pushes > 0 ==>
              PushFired(p).pushes == p.pushes - (if p.buffered == [] then 1 else 0)
  {
  }

  function TypedAll(p: Port, keys: seq<int>): Port
    decreases |keys|
  {
    if keys == [] then p else TypedAll(Typed(p, keys[0]), keys[1..])
  }

  /** The flag is not raised on the path that waits for the processor: while a
      character lies unread, every further key sets off another push. */
  lemma {:induction false} SlowReaderPilesUpPushes(p: Port, keys: seq<int>)
    requires Unread(p) && !p.rbusy && |p.buffered| + |keys| < INBUF_SIZE
    ensures TypedAll(p, keys).pushes == p.pushes + |keys|
    decreases |keys|
  {
    if keys != [] {
      SlowReaderPilesUpPushes(Typed(p, keys[0]), keys[1..]);
    }
  }

  /** Such states are ordinary: one key typed, and its push run. */
  lemma FirstKeyUnread(ch: int)
    ensures var p := PushFired(Typed(PowerOn(), ch));
            Sound(p) && Unread(p) && !p.rbusy && p.buffered == [] && p.pushes == 0
  {
    var q := Typed(PowerOn(), ch);
    assert [ch % 256][1..] == [];
  }

  // ------------------------------------------------------------------
  // No bound on the chains of pushes

  /* A character lies unread, nothing else is waiting, and the flag is down. */
  predicate Lying(p: Port) {
    Unread(p) && !p.rbusy && p.buffered == []
  }

  /* Two keys while the character lies there, both read in their turn. */
  const TWO_KEYS: seq<Step> := [Key(0), Key(0), Fetch, Push, Fetch, Push, Push]

  function TwoKeys(p: Port): Port
    requires Lying(p)
  {
    var q := Fetched(Typed(Typed(p, 0), 0));
    PushFired(PushFired(Fetched(PushFired(q))))
  }

  lemma TwoKeysAdd(p: Port)
    requires Lying(p)
    ensures Reaches(p, TWO_KEYS, TwoKeys(p)) && Lying(TwoKeys(p)) && TwoKeys(p).pushes == p.pushes + 1
  {
    hide Typed, PushFired, Reaches;
    var p1 := Typed(p, 0);
    var p2 := Typed(p1, 0);
    var p3 := Fetched(p2);
    LyingTyped(p, p1, p2);
    var p4 := PushFired(p3);
    ReadPushed(p3, [0]);
    var p5 := Fetched(p4);
    ReadPushed(p5, []);
    var p6 := PushFired(p5);
    LastPushed(p6);
    var p7 := PushFired(p6);
    var s := TWO_KEYS;
    ReachesItself(p7);
    Onwards(p6, s[6..], s[7..], p7);
    Onwards(p5, s[5..], s[6..], p7);
    Onwards(p4, s[4..], s[5..], p7);
    Onwards(p3, s[3..], s[4..], p7);
    Onwards(p2, s[2..], s[3..], p7);
    Onwards(p1, s[1..], s[2..], p7);
    Onwards(p, s, s[1..], p7);
  }

  lemma LyingTyped(p: Port, q: Port, r: Port)
    requires Lying(p) && q == Typed(p, 0) && r == Typed(q, 0)
    ensures r == p.(buffered := [0, 0], accepted := p.accepted + [0] + [0], pushes := p.pushes + 2)
  {
  }

  lemma ReadPushed(p: Port, rest: seq<byte>)
    requires p.buffered == [0] + rest && p.didread && p.pushes > 0
    ensures var r := PushFired(p);
            r.buffered == rest && r.pushes == p.pushes && r.rbusy && Unread(r)
  {
    assert p.buffered[1..] == rest;
  }

  lemma LastPushed(p: Port)
    requires p.buffered == [] && Unread(p) && p.pushes > 0
    ensures Lying(PushFired(p)) && PushFired(p).pushes == p.pushes - 1
  {
  }

  lemma ReachesItself(p: Port)
    ensures Reaches(p, [], p)
  {
  }

  lemma Onwards(p: Port, steps: seq<Step>, rest: seq<Step>, end: Port)
    requires steps != [] && rest == steps[1..] && Possible(p, steps[0]) && Reaches(Stepped(p, steps[0]), rest, end)
    ensures Reaches(p, steps, end)
  {
  }

  lemma {:induction false} ReachesOn(p: Port, steps: seq<Step>, q: Port, more: seq<Step>, end: Port)
    requires Reaches(p, steps, q) && Reaches(q, more, end)
    ensures Reaches(p, steps + more, end)
    decreases |steps|
  {
    if steps == [] {
      assert steps + more == more;
    } else {
      assert (steps + more)[1..] == steps[1..] + more;
      ReachesOn(Stepped(p, steps[0]), steps[1..], q, more, end);
    }
  }

  /* Type one key and let it be delivered; then n times two more. */
  function TypingAhead(n: nat): seq<Step> {
    if n == 0 then [Key(0), Push] else TypingAhead(n - 1) + TWO_KEYS
  }

  /** However many pushes there are, more typing leaves more of them: for every n a
      run from power-on ends with n chains of pushes pending and nothing to push. */
  lemma {:induction false} ChainsHaveNoBound(n: nat)
    ensures exists end :: Reaches(PowerOn(), TypingAhead(n), end) && Lying(end) && end.pushes == n
  {
    hide Lying, TwoKeys;
    if n == 0 {
      var p := Typed(PowerOn(), 0);
      FirstKeyUnread(0);
      ReachesItself(PushFired(p));
      Onwards(p, [Push], [], PushFired(p));
      Onwards(PowerOn(), [Key(0), Push], [Push], PushFired(p));
      assert Lying(PushFired(p)) by { LyingIs(PushFired(p)); }
    } else {
      ChainsHaveNoBound(n - 1);
      var p :| Reaches(PowerOn(), TypingAhead(n - 1), p) && Lying(p) && p.pushes == n - 1;
      TwoKeysAdd(p);
      ReachesOn(PowerOn(), TypingAhead(n - 1), p, TWO_KEYS, TwoKeys(p));
    }
  }

  lemma LyingIs(p: Port)
    requires Unread(p) && !p.rbusy && p.buffered == []
    ensures Lying(p)
  {
  }
}
