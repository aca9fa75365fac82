/**
 The interrupt fabric: level-triggered lines from the bus slots, gated by the
 bus's mask and each processor's own, to processors that may be asleep in WAIT.

 A 32-bit mask is the set of its bit numbers.
 */
module LameBus {

  datatype CpuState = Disabled | Idle | Running

  /* The bus's side of a processor: CPUE bit, CIRQE, and what it is telling it. */
  datatype Port = Port(enabled: bool, cirqe: set<nat>, interrupting: bool, ipi: bool)

  /* The processor's side, with its on-chip timer. */
  datatype Chip = Chip(state: CpuState, lamebus: bool, ipi: bool, timer: bool,
                       count: nat, compare: nat, compareUsed: bool)

  datatype Board = Board(raised: set<nat>, irqe: set<nat>, ports: seq<Port>, chips: seq<Chip>, running: set<nat>)

  ghost predicate WellFormed(b: Board) {
    |b.ports| == |b.chips|
  }

  predicate Wanted(b: Board, i: nat)
    requires i < |b.ports|
  {
    b.raised * b.irqe * b.ports[i].cirqe != {}
  }

  // ------------------------------------------------------------------
  // What each operation does

  function IrqsSet(b: Board, i: nat, lamebus: bool, ipi: bool): (r: Board)
    requires i < |b.chips|
    ensures |r.chips| == |b.chips|
  {
    var c := b.chips[i].(lamebus := lamebus, ipi := ipi);
    if c.state.Idle? && (lamebus || ipi) then
      b.(chips := b.chips[i := c.(state := Running)], running := b.running + {i})
    else b.(chips := b.chips[i := c])
  }

  function UpdatedOne(b: Board, i: nat): (r: Board)
    requires WellFormed(b) && i < |b.ports|
    ensures WellFormed(r) && |r.ports| == |b.ports|
  {
    var irq := Wanted(b, i);
    if irq == b.ports[i].interrupting then b
    else IrqsSet(b.(ports := b.ports[i := b.ports[i].(interrupting := irq)]), i, irq, b.ports[i].ipi)
  }

  function UpdatedFrom(b: Board, i: nat): (r: Board)
    requires WellFormed(b) && i <= |b.ports|
    decreases |b.ports| - i
  {
    if i == |b.ports| then b else UpdatedFrom(UpdatedOne(b, i), i + 1)
  }

  function Raised(b: Board, slot: nat): Board
    requires WellFormed(b)
  {
    UpdatedFrom(b.(raised := b.raised + {slot}), 0)
  }

  function Lowered(b: Board, slot: nat): Board
    requires WellFormed(b)
  {
    UpdatedFrom(b.(raised := b.raised - {slot}), 0)
  }

  function IrqeStored(b: Board, val: set<nat>): Board
    requires WellFormed(b)
  {
    UpdatedFrom(b.(irqe := val), 0)
  }

  function CirqeStored(b: Board, i: nat, val: set<nat>): Board
    requires WellFormed(b) && i < |b.ports|
  {
    UpdatedFrom(b.(ports := b.ports[i := b.ports[i].(cirqe := val)]), 0)
  }

  function CipiStored(b: Board, i: nat, val: set<nat>): Board
    requires WellFormed(b) && i < |b.ports|
  {
    IrqsSet(b.(ports := b.ports[i := b.ports[i].(ipi := val != {})]), i, b.ports[i].interrupting, val != {})
  }

  function CpueBit(b: Board, i: nat, on: bool): (r: Board)
    requires WellFormed(b) && i < |b.ports|
    ensures WellFormed(r) && |r.ports| == |b.ports|
  {
    if b.ports[i].enabled && !on then
      b.(ports := b.ports[i := b.ports[i].(enabled := false)],
         chips := b.chips[i := b.chips[i].(state := Disabled)], running := b.running - {i})
    else if !b.ports[i].enabled && on then
      // The CPUE bit itself is not set.
      b.(chips := b.chips[i := b.chips[i].(state := Running)], running := b.running + {i})
    else b
  }

  function CpueFrom(b: Board, val: set<nat>, i: nat): (r: Board)
    requires WellFormed(b) && i <= |b.ports|
    decreases |b.ports| - i
  {
    if i == |b.ports| then b else CpueFrom(CpueBit(b, i, i in val), val, i + 1)
  }

  function Waited(b: Board, i: nat): Board
    requires i < |b.chips|
  {
    var c := b.chips[i];
    if !c.lamebus && !c.ipi && !c.timer then
      b.(chips := b.chips[i := c.(state := Idle)], running := b.running - {i})
    else b
  }

  /* The 32-bit cycle counter. */
  function Next(count: nat): nat {
    if count + 1 == 0x1_0000_0000 then 0 else count + 1
  }

  function OneTick(c: Chip): Chip {
    if c.compareUsed && Next(c.count) == c.compare then c.(count := 0, timer := true)
    else c.(count := Next(c.count))
  }

  /* The end of a cycle of processor i. */
  function Ticked(b: Board, i: nat): Board
    requires i < |b.chips|
  {
    b.(chips := b.chips[i := OneTick(b.chips[i])])
  }

  /* A write to COMPARE. */
  function Compared(b: Board, i: nat, val: nat): Board
    requires i < |b.chips|
  {
    var c := b.chips[i];
    b.(chips := b.chips[i := c.(compare := val, compareUsed := true,
                                count := if c.count > val then 0 else c.count, timer := false)])
  }

  // ------------------------------------------------------------------
  // What rerouting comes to

  /* Some line is raised that both masks let through. */
  ghost predicate Through(raised: set<nat>, irqe: set<nat>, cirqe: set<nat>) {
    exists slot :: slot in raised && slot in irqe && slot in cirqe
  }

  /* A processor with these lines to it, woken if it slept. */
  function Lined(c: Chip, lamebus: bool, ipi: bool): Chip {
    c.(lamebus := lamebus, ipi := ipi, state := if c.state.Idle? && (lamebus || ipi) then Running else c.state)
  }

  /* With the lines and masks of b, every processor from i on is told if it is to be
     interrupted, and that is all. */
  ghost predicate Rerouted(b: Board, r: Board, i: nat) {
    && |r.ports| == |b.ports| == |r.chips| == |b.chips| && r.raised == b.raised && r.irqe == b.irqe
    && forall j :: 0 <= j < |b.ports| ==>
         var irq := Through(b.raised, b.irqe, b.ports[j].cirqe);
         if j < i || irq == b.ports[j].interrupting then r.ports[j] == b.ports[j] && r.chips[j] == b.chips[j]
         else r.ports[j] == b.ports[j].(interrupting := irq) && r.chips[j] == Lined(b.chips[j], irq, b.ports[j].ipi)
  }

  lemma WantedThrough(b: Board, i: nat)
    requires i < |b.ports|
    ensures Wanted(b, i) <==> Through(b.raised, b.irqe, b.ports[i].cirqe)
  {
    var all := b.raised * b.irqe * b.ports[i].cirqe;
    if Through(b.raised, b.irqe, b.ports[i].cirqe) {
      var slot :| slot in b.raised && slot in b.irqe && slot in b.ports[i].cirqe;
      assert slot in all;
    }
    if all != {} {
      var slot :| slot in all;
      assert Through(b.raised, b.irqe, b.ports[i].cirqe);
    }
  }

  lemma OneRerouted(b: Board, i: nat)
    requires WellFormed(b) && i < |b.ports|
    ensures var r := UpdatedOne(b, i);
            var irq := Through(b.raised, b.irqe, b.ports[i].cirqe);
            && |r.ports| == |b.ports| == |r.chips| && r.raised == b.raised && r.irqe == b.irqe
            && (forall j :: 0 <= j < |b.ports| && j != i ==> r.ports[j] == b.ports[j] && r.chips[j] == b.chips[j])
            && if irq == b.ports[i].interrupting then r.ports[i] == b.ports[i] && r.chips[i] == b.chips[i]
               else r.ports[i] == b.ports[i].(interrupting := irq)
                    && r.chips[i] == Lined(b.chips[i], irq, b.ports[i].ipi)
  {
    WantedThrough(b, i);
  }

  lemma {:induction false} UpdateReroutes(b: Board, i: nat)
    requires WellFormed(b) && i <= |b.ports|
    ensures Rerouted(b, UpdatedFrom(b, i), i)
    decreases |b.ports| - i
  {
    hide UpdatedOne, Through, Lined;
    if i < |b.ports| {
      OneRerouted(b, i);
      UpdateReroutes(UpdatedOne(b, i), i + 1);
    }
  }

  /* The processors from i on are turned on and off as val says: one that is turned
     off loses its bit, and one that is turned on does not get it. */
  ghost predicate Powered(b: Board, val: set<nat>, r: Board, i: nat) {
    && |r.ports| == |b.ports| == |r.chips| == |b.chips| && r.raised == b.raised && r.irqe == b.irqe
    && forall j :: 0 <= j < |b.ports| ==>
         && r.ports[j] == (if j >= i && j !in val then b.ports[j].(enabled := false) else b.ports[j])
         && r.chips[j] == if j < i || (b.ports[j].enabled <==> j in val) then b.chips[j]
                          else b.chips[j].(state := if j in val then Running else Disabled)
  }

  lemma {:induction false} CpuePowers(b: Board, val: set<nat>, i: nat)
    requires WellFormed(b) && i <= |b.ports|
    ensures Powered(b, val, CpueFrom(b, val, i), i)
    decreases |b.ports| - i
  {
    if i < |b.ports| {
      CpuePowers(CpueBit(b, i, i in val), val, i + 1);
    }
  }

  // ------------------------------------------------------------------
  // The bus and the processors, updated in place

  class Bus {
    var raised: set<nat>
    var irqe: set<nat>
    const ports: array<Port>
    const chips: array<Chip>
    var running: set<nat>       // cpu_running_mask

    ghost predicate Valid()
      reads this
    {
      ports.Length == chips.Length
    }

    ghost function View(): Board
      reads this, ports, chips
    {
      Board(raised, irqe, ports[..], chips[..], running)
    }

    /* Processor 0 runs, the others are off; nothing is masked. */
    constructor (ncpus: nat)
      requires 0 < ncpus <= 32
      ensures Valid() && fresh(ports) && fresh(chips)
      ensures View() == PowerOn(ncpus)
    {
      raised, irqe, running := {}, AllOnes(), {0};
      ports := new Port[ncpus](i => Port(i == 0, AllOnes(), false, false));
      chips := new Chip[ncpus](i => Chip(if i == 0 then Running else Disabled, false, false, false, 1, 0, false));
      new;
      assert ports[..] == PowerOn(ncpus).ports && chips[..] == PowerOn(ncpus).chips;
    }

    method CpuSetIrqs(i: nat, lamebus: bool, ipi: bool)
      requires Valid() && i < chips.Length
      modifies this`running, chips
      ensures View() == IrqsSet(old(View()), i, lamebus, ipi)
    {
      chips[i] := chips[i].(lamebus := lamebus, ipi := ipi);
      if chips[i].state.Idle? && (lamebus || ipi) {
        chips[i] := chips[i].(state := Running);
        running := running + {i};
      }
    }

    method IrqUpdate()
      requires Valid()
      modifies this`running, ports, chips
      ensures View() == UpdatedFrom(old(View()), 0)
    {
      var mask := raised * irqe;
      var i := 0;
      while i < ports.Length
        invariant i <= ports.Length && mask == raised * irqe
        invariant UpdatedFrom(View(), i) == UpdatedFrom(old(View()), 0)
      {
        ghost var was := View();
        var irq := mask * ports[i].cirqe != {};
        if irq != ports[i].interrupting {
          ports[i] := ports[i].(interrupting := irq);
          assert View() == was.(ports := was.ports[i := was.ports[i].(interrupting := irq)]);
          CpuSetIrqs(i, ports[i].interrupting, ports[i].ipi);
        }
        assert View() == UpdatedOne(was, i);
        i := i + 1;
      }
    }

    method RaiseIrq(slot: nat)
      requires Valid()
      modifies this`raised, this`running, ports, chips
      ensures View() == Raised(old(View()), slot)
      ensures raised == old(raised) + {slot} && irqe == old(irqe)
      ensures Rerouted(old(View()).(raised := old(raised) + {slot}), View(), 0)
    {
      hide Rerouted;
      UpdateReroutes(View().(raised := raised + {slot}), 0);
      raised := raised + {slot};
      IrqUpdate();
    }

    method LowerIrq(slot: nat)
      requires Valid()
      modifies this`raised, this`running, ports, chips
      ensures View() == Lowered(old(View()), slot)
      ensures raised == old(raised) - {slot} && irqe == old(irqe)
      ensures Rerouted(old(View()).(raised := old(raised) - {slot}), View(), 0)
    {
      hide Rerouted;
      UpdateReroutes(View().(raised := raised - {slot}), 0);
      raised := raised - {slot};
      IrqUpdate();
    }

    method StoreIrqe(val: set<nat>)
      requires Valid()
      modifies this`irqe, this`running, ports, chips
      ensures View() == IrqeStored(old(View()), val)
      ensures irqe == val && raised == old(raised)
      ensures Rerouted(old(View()).(irqe := val), View(), 0)
    {
      hide Rerouted;
      UpdateReroutes(View().(irqe := val), 0);
      irqe := val;
      IrqUpdate();
    }

    method StoreCirqe(i: nat, val: set<nat>)
      requires Valid() && i < ports.Length
      modifies this`running, ports, chips
      ensures View() == CirqeStored(old(View()), i, val)
      ensures raised == old(raised) && irqe == old(irqe) && ports[i].cirqe == val
      ensures Rerouted(old(View()).(ports := old(ports[..])[i := old(ports[i]).(cirqe := val)]), View(), 0)
    {
      ghost var was := View();
      UpdateReroutes(was.(ports := was.ports[i := was.ports[i].(cirqe := val)]), 0);
      ports[i] := ports[i].(cirqe := val);
      assert View() == was.(ports := was.ports[i := was.ports[i].(cirqe := val)]);
      IrqUpdate();
    }

    method StoreCipi(i: nat, val: set<nat>)
      requires Valid() && i < ports.Length
      modifies this`running, ports, chips
      ensures View() == CipiStored(old(View()), i, val)
      ensures raised == old(raised) && irqe == old(irqe)
      ensures ports[..] == old(ports[..])[i := old(ports[i]).(ipi := val != {})]
      ensures chips[..] == old(chips[..])[i := Lined(old(chips[i]), old(ports[i]).interrupting, val != {})]
    {
      ghost var was := View();
      ports[i] := ports[i].(ipi := val != {});
      assert View() == was.(ports := was.ports[i := was.ports[i].(ipi := val != {})]);
      CpuSetIrqs(i, ports[i].interrupting, ports[i].ipi);
    }

    method SetCpue(val: set<nat>)
      requires Valid()
      modifies this`running, ports, chips
      ensures View() == CpueFrom(old(View()), val, 0)
      ensures Powered(old(View()), val, View(), 0)
    {
      hide Powered;
      CpuePowers(View(), val, 0);
      var i := 0;
      while i < ports.Length
        invariant i <= ports.Length
        invariant CpueFrom(View(), val, i) == CpueFrom(old(View()), val, 0)
      {
        ghost var was := View();
        if ports[i].enabled && i !in val {
          ports[i] := ports[i].(enabled := false);
          chips[i] := chips[i].(state := Disabled);
          running := running - {i};
        } else if !ports[i].enabled && i in val {
          chips[i] := chips[i].(state := Running);
          running := running + {i};
        }
        assert View() == CpueBit(was, i, i in val);
        i := i + 1;
      }
    }

    method DoWait(i: nat)
      requires Valid() && i < chips.Length
      modifies this`running, chips
      ensures View() == Waited(old(View()), i)
    {
      if !chips[i].lamebus && !chips[i].ipi && !chips[i].timer {
        chips[i] := chips[i].(state := Idle);
        running := running - {i};
      }
    }

    method Tick(i: nat)
      requires Valid() && i < chips.Length
      modifies chips
      ensures View() == Ticked(old(View()), i)
    {
      chips[i] := chips[i].(count := Next(chips[i].count));
      if chips[i].compareUsed && chips[i].count == chips[i].compare {
        chips[i] := chips[i].(count := 0, timer := true);
      }
    }

    method SetCompare(i: nat, val: nat)
      requires Valid() && i < chips.Length
      modifies chips
      ensures View() == Compared(old(View()), i, val)
    {
      chips[i] := chips[i].(compare := val, compareUsed := true);
      if chips[i].count > chips[i].compare {
        chips[i] := chips[i].(count := 0);
      }
      chips[i] := chips[i].(timer := false);
    }
  }

  function Ones(n: nat): set<nat> {
    if n == 0 then {} else Ones(n - 1) + {n - 1}
  }

  function AllOnes(): set<nat> {
    Ones(32)
  }

  function PowerOn(ncpus: nat): Board
    requires 0 < ncpus <= 32
  {
    Board({}, AllOnes(), seq(ncpus, i => Port(i == 0, AllOnes(), false, false)),
          seq(ncpus, i => Chip(if i == 0 then Running else Disabled, false, false, false, 1, 0, false)), {0})
  }

  // ------------------------------------------------------------------
  // No lost wakeup

  /* Both sides of the interface agree, the running mask says who runs, and no
     sleeper has anything to wake it. */
  ghost predicate Connected(b: Board) {
    && WellFormed(b)
    && (forall i :: i in b.running <==> 0 <= i < |b.chips| && b.chips[i].state.Running?)
    && (forall i :: 0 <= i < |b.chips| ==>
          && b.chips[i].lamebus == b.ports[i].interrupting
          && b.chips[i].ipi == b.ports[i].ipi
          && (b.chips[i].state.Idle? ==> !b.chips[i].lamebus && !b.chips[i].ipi))
  }

  /* Each processor is interrupted exactly when some line is raised that both
     masks let through to it. */
  ghost predicate Routed(b: Board) {
    Connected(b) && forall i :: 0 <= i < |b.ports| ==> (b.ports[i].interrupting <==> Wanted(b, i))
  }

  lemma {:induction false} UpdateRoutes(b: Board, i: nat)
    requires Connected(b) && i <= |b.ports|
    requires forall j :: 0 <= j < i ==> (b.ports[j].interrupting <==> Wanted(b, j))
    ensures Routed(UpdatedFrom(b, i))
    decreases |b.ports| - i
  {
    if i < |b.ports| {
      OneConnected(b, i);
      UpdateRoutes(UpdatedOne(b, i), i + 1);
    }
  }

  lemma OneConnected(b: Board, i: nat)
    requires Connected(b) && i < |b.ports|
    ensures var r := UpdatedOne(b, i);
            && Connected(r) && |r.ports| == |b.ports|
            && r.raised == b.raised && r.irqe == b.irqe
            && (forall j :: 0 <= j < |b.ports| ==>
                  r.ports[j] == if j == i then b.ports[i].(interrupting := Wanted(b, i)) else b.ports[j])
  {
  }

  datatype Step =
    | Raise(slot: nat)
    | Lower(slot: nat)
    | Irqe(val: set<nat>)
    | Cirqe(i: nat, val: set<nat>)
    | Cipi(i: nat, val: set<nat>)
    | Cpue(val: set<nat>)
    | Wait(i: nat)            // by a processor that is running
    | Tick(i: nat)
    | Compare(i: nat, at: nat)

  ghost predicate Legal(b: Board, s: Step) {
    match s
    case Cirqe(i, _) => i < |b.ports|
    case Cipi(i, _) => i < |b.ports|
    case Wait(i) => i < |b.chips| && b.chips[i].state.Running?
    case Tick(i) => i < |b.chips|
    case Compare(i, _) => i < |b.chips|
    case _ => true
  }

  function Stepped(b: Board, s: Step): Board
    requires WellFormed(b) && Legal(b, s)
  {
    match s
    case Raise(slot) => Raised(b, slot)
    case Lower(slot) => Lowered(b, slot)
    case Irqe(val) => IrqeStored(b, val)
    case Cirqe(i, val) => CirqeStored(b, i, val)
    case Cipi(i, val) => CipiStored(b, i, val)
    case Cpue(val) => CpueFrom(b, val, 0)
    case Wait(i) => Waited(b, i)
    case Tick(i) => Ticked(b, i)
    case Compare(i, at) => Compared(b, i, at)
  }

  lemma {:induction false} CpueKeepsRouted(b: Board, val: set<nat>, i: nat)
    requires Routed(b) && i <= |b.ports|
    ensures Routed(CpueFrom(b, val, i))
    decreases |b.ports| - i
  {
    if i < |b.ports| {
      CpueKeepsRouted(CpueBit(b, i, i in val), val, i + 1);
    }
  }

  lemma CipiKeepsRouted(b: Board, i: nat, val: set<nat>)
    requires Routed(b) && i < |b.ports|
    ensures Routed(CipiStored(b, i, val))
  {
  }

  lemma ChipKeepsRouted(b: Board, s: Step)
    requires Routed(b) && Legal(b, s) && (s.Wait? || s.Tick? || s.Compare?)
    ensures Routed(Stepped(b, s))
  {
  }

  lemma StepKeepsRouted(b: Board, s: Step)
    requires Routed(b) && Legal(b, s)
    ensures Routed(Stepped(b, s))
  {
    hide UpdatedFrom, CpueFrom, CipiStored, Waited, Ticked, Compared;
    match s
    case Raise(slot) => UpdateRoutes(b.(raised := b.raised + {slot}), 0);
    case Lower(slot) => UpdateRoutes(b.(raised := b.raised - {slot}), 0);
    case Irqe(val) => UpdateRoutes(b.(irqe := val), 0);
    case Cirqe(i, val) => UpdateRoutes(b.(ports := b.ports[i := b.ports[i].(cirqe := val)]), 0);
    case Cipi(i, val) => CipiKeepsRouted(b, i, val);
    case Cpue(val) => CpueKeepsRouted(b, val, 0);
    case _ => ChipKeepsRouted(b, s);
  }

  ghost predicate Reaches(b: Board, steps: seq<Step>, end: Board)
    decreases |steps|
  {
    if steps == [] then end == b
    else WellFormed(b) && Legal(b, steps[0]) && Reaches(Stepped(b, steps[0]), steps[1..], end)
  }

  /** In every state the board reaches from power-on no wakeup is pending for a
      processor that sleeps, and every line is where the masks say. */
  lemma {:induction false} NoLostWakeup(b: Board, steps: seq<Step>, end: Board)
    requires Routed(b) && Reaches(b, steps, end)
    ensures Routed(end)
    decreases |steps|
  {
    if steps != [] {
      StepKeepsRouted(b, steps[0]);
      NoLostWakeup(Stepped(b, steps[0]), steps[1..], end);
    }
  }

  lemma {:induction false} OnesAre(n: nat)
    ensures forall slot: nat :: slot in Ones(n) <==> slot < n
  {
    if n > 0 {
      OnesAre(n - 1);
    }
  }

  /* All 32 lines are let through to everyone, and processor 0 alone runs. */
  lemma PowerOnRouted(ncpus: nat)
    requires 0 < ncpus <= 32
    ensures var b := PowerOn(ncpus);
            && Routed(b) && |b.ports| == ncpus && b.raised == {} && b.running == {0}
            && (forall slot: nat :: slot in b.irqe <==> slot < 32)
            && forall i :: 0 <= i < ncpus ==>
                 && (forall slot: nat :: slot in b.ports[i].cirqe <==> slot < 32)
                 && b.ports[i].enabled == (i == 0)
                 && b.chips[i].state == if i == 0 then Running else Disabled
  {
    OnesAre(32);
  }

  /** The registers are what was last stored to them and the lines what was last done
      to them; and whatever was done, a processor is interrupted exactly if a line is
      raised now that both masks let through. */
  lemma LinesMean(b: Board, s: Step)
    requires Routed(b) && Legal(b, s)
    ensures var r := Stepped(b, s);
            && |r.ports| == |b.ports|
            && r.raised == (match s case Raise(slot) => b.raised + {slot} case Lower(slot) => b.raised - {slot}
                                    case _ => b.raised)
            && r.irqe == (if s.Irqe? then s.val else b.irqe)
            && forall j :: 0 <= j < |b.ports| ==>
                 && r.ports[j].cirqe == (if s.Cirqe? && s.i == j then s.val else b.ports[j].cirqe)
                 && r.ports[j].ipi == (if s.Cipi? && s.i == j then s.val != {} else b.ports[j].ipi)
                 && r.ports[j].enabled == (b.ports[j].enabled && (s.Cpue? ==> j in s.val))
                 && (r.ports[j].interrupting <==> Through(r.raised, r.irqe, r.ports[j].cirqe))
  {
    hide UpdatedFrom, CpueFrom, Routed, Lined;
    StepKeepsRouted(b, s);
    RoutedThrough(b);
    RoutedThrough(Stepped(b, s));
    match s
    case Raise(slot) => UpdateReroutes(b.(raised := b.raised + {slot}), 0);
    case Lower(slot) => UpdateReroutes(b.(raised := b.raised - {slot}), 0);
    case Irqe(val) => UpdateReroutes(b.(irqe := val), 0);
    case Cirqe(i, val) => UpdateReroutes(b.(ports := b.ports[i := b.ports[i].(cirqe := val)]), 0);
    case Cpue(val) => CpuePowers(b, val, 0);
    case _ =>
  }

  lemma RoutedThrough(b: Board)
    requires Routed(b)
    ensures WellFormed(b)
    ensures forall j :: 0 <= j < |b.ports| ==>
              (b.ports[j].interrupting <==> Through(b.raised, b.irqe, b.ports[j].cirqe))
  {
    forall j | 0 <= j < |b.ports|
      ensures b.ports[j].interrupting <==> Through(b.raised, b.irqe, b.ports[j].cirqe)
    {
      WantedThrough(b, j);
    }
  }

  // ------------------------------------------------------------------
  // Who wakes

  lemma {:induction false} OthersUntouched(b: Board, i: nat, j: nat)
    requires Connected(b) && j < i <= |b.ports|
    ensures |UpdatedFrom(b, i).chips| == |b.chips| && UpdatedFrom(b, i).chips[j] == b.chips[j]
    decreases |b.ports| - i
  {
    if i < |b.ports| {
      OneConnected(b, i);
      OthersUntouched(UpdatedOne(b, i), i + 1, j);
    }
  }

  lemma {:induction false} UpdateWakes(b: Board, i: nat, j: nat)
    requires Connected(b) && i <= j < |b.ports| && b.chips[j].state.Idle?
    ensures |UpdatedFrom(b, i).chips| == |b.chips|
    ensures UpdatedFrom(b, i).chips[j].state == if Wanted(b, j) then Running else Idle
    decreases |b.ports| - i
  {
    OneConnected(b, i);
    if i < j {
      UpdateWakes(UpdatedOne(b, i), i + 1, j);
    } else {
      OthersUntouched(UpdatedOne(b, i), i + 1, j);
    }
  }

  /** A sleeping processor wakes when a slot raises its line exactly if that
      slot is let through by both masks. */
  lemma RaiseWakes(b: Board, slot: nat, j: nat)
    requires Routed(b) && j < |b.chips| && b.chips[j].state.Idle?
    ensures |Raised(b, slot).chips| == |b.chips|
    ensures Raised(b, slot).chips[j].state.Running? <==> slot in b.irqe && slot in b.ports[j].cirqe
  {
    UpdateWakes(b.(raised := b.raised + {slot}), 0, j);
    var through := b.irqe * b.ports[j].cirqe;
    assert (b.raised + {slot}) * b.irqe * b.ports[j].cirqe == b.raised * b.irqe * b.ports[j].cirqe + {slot} * through;
    assert !Wanted(b, j);
    assert slot in through <==> slot in {slot} * through;
  }

  // ------------------------------------------------------------------
  // The timer, and CPUE

  /** The timer is looked at before a processor goes to sleep but advances once
      more in the cycle of the WAIT itself: a processor can fall asleep with its
      timer interrupt already there, exactly when that last step reaches COMPARE. */
  lemma WaitMissesTimer(b: Board, i: nat)
    requires Routed(b) && i < |b.chips| && b.chips[i].state.Running?
    ensures Ticked(Waited(b, i), i).chips[i].state.Idle? && Ticked(Waited(b, i), i).chips[i].timer
       <==> !b.chips[i].lamebus && !b.chips[i].ipi && !b.chips[i].timer
            && b.chips[i].compareUsed && Next(b.chips[i].count) == b.chips[i].compare
  {
  }

  function Ticks(c: Chip, n: nat): Chip {
    if n == 0 then c else OneTick(Ticks(c, n - 1))
  }

  /* Cycles until the counter comes to COMPARE, once round if it is there now. */
  function Remaining(count: nat, compare: nat): int {
    if count < compare then compare - count else 0x1_0000_0000 - count + compare
  }

  function Wrapped(n: nat): nat {
    if n < 0x1_0000_0000 then n else n - 0x1_0000_0000
  }

  lemma {:induction false} TicksCount(c: Chip, n: nat)
    requires c.compareUsed && c.count < 0x1_0000_0000 && c.compare < 0x1_0000_0000
    requires n < Remaining(c.count, c.compare)
    ensures Ticks(c, n) == c.(count := Wrapped(c.count + n))
  {
    if n > 0 {
      TicksCount(c, n - 1);
    }
  }

  /** The timer interrupt comes when the counter gets to COMPARE and not before, and
      the counter starts from nothing; so after a store to COMPARE with the counter at
      nothing it takes exactly that many cycles, or 2^32 for none. */
  lemma TimerPeriod(b: Board, i: nat, val: nat)
    requires i < |b.chips| && val < 0x1_0000_0000 && b.chips[i].count < 0x1_0000_0000
    ensures |Compared(b, i, val).chips| == |b.chips|
    ensures var c := Compared(b, i, val).chips[i];
            var start := if b.chips[i].count > val then 0 else b.chips[i].count;
            var n := Remaining(start, val);
            && n > 0
            && (forall k: nat :: k < n ==> !Ticks(c, k).timer)
            && Ticks(c, n).timer && Ticks(c, n).count == 0
            && (start == 0 ==> n == if val == 0 then 0x1_0000_0000 else val)
  {
    var c := Compared(b, i, val).chips[i];
    var n := Remaining(c.count, val);
    forall k: nat | k < n
      ensures !Ticks(c, k).timer
    {
      TicksCount(c, k);
    }
    TicksCount(c, n - 1);
  }

  /** WAIT puts the processor to sleep if no line to it is up, and otherwise does
      nothing at all. */
  lemma WaitMeans(b: Board, i: nat)
    requires Connected(b) && i < |b.chips|
    ensures var quiet := !b.ports[i].interrupting && !b.ports[i].ipi && !b.chips[i].timer;
            && |Waited(b, i).chips| == |b.chips|
            && (quiet ==> Waited(b, i).chips[i].state.Idle? && i !in Waited(b, i).running)
            && (!quiet ==> Waited(b, i) == b)
  {
  }

  ghost function EnabledBits(b: Board): set<nat> {
    set i: nat | i < |b.ports| && b.ports[i].enabled
  }

  lemma {:induction false} CpueOnlyClears(b: Board, val: set<nat>, i: nat)
    requires WellFormed(b) && i <= |b.ports|
    ensures var r := CpueFrom(b, val, i);
            && |r.ports| == |b.ports| && |r.chips| == |b.chips|
            && forall j :: 0 <= j < |b.ports| ==> r.ports[j].enabled == (b.ports[j].enabled && (j < i || j in val))
    decreases |b.ports| - i
  {
    if i < |b.ports| {
      CpueOnlyClears(CpueBit(b, i, i in val), val, i + 1);
    }
  }

  /** Turning a processor on does not set its CPUE bit. What is read back after
      a write to CPUE is what was written exactly when it turns nothing on. */
  lemma CpueReadsBack(b: Board, val: set<nat>)
    requires WellFormed(b)
    ensures EnabledBits(CpueFrom(b, val, 0)) == val <==> val <= EnabledBits(b)
  {
    CpueOnlyClears(b, val, 0);
    assert EnabledBits(CpueFrom(b, val, 0)) == EnabledBits(b) * val;
  }
}
