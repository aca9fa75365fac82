# System/161 in Dafny

System/161 simulates a multiprocessor machine one processor cycle at a time.
This project models the parts of it where the state is intricate and where a
fast path has to agree with something simpler, and proves what those parts are
for:

- **The event scheduler and the main loop** (`EventQueue`, `ActionPool`,
  `History`, `Clock`, `Lateness`): the linked queue cut from a pool of 1024 nodes, re-entrant dispatch,
  the run-to flag, rounding to cycles, the rotor, and time passing while no
  processor runs. Over whole runs, what has fired followed by what is pending is
  the stable sort of everything ever scheduled; the passes and idle rounds tile
  the time; nothing fires early; an event that was pending when the pass or
  round that fired it began is less than one clock period late, and so is all that
  fires after a timed select; when anything else can be more is stated exactly, and
  so is when a run has more events outstanding than there are nodes.
- **The MIPS processor** (`MipsMmu`, `MipsState`, `MipsPcCache`, `MipsStale`,
  `MipsEffects`, `MipsCpu`, `StatusStack`): the pc/nextpc pair with branch delay slots and two cached page
  pointers, exception entry in its recursion with translation, the TLB, and the
  three-deep status stack. A run from reset keeps the cached pointers in
  agreement with translating both addresses afresh exactly if each of its writes
  to STATUS and TLBHI, and each TLBR, leaves the code about to run where it was. The
  physical address of every access, what each refusal reports and where each cycle
  goes next are stated in the numbers of the architecture.
- **Shared memory** (`LlSc`, `LinkLife`, `SubWord`): LL/SC as a comparison of values
  among any number of processors, how long a link lives on the processor itself, and
  why that is long enough; and bytes, halfwords and unaligned words made out
  of word accesses.
- **The RISC-V front end** (`RiscvMmu`, `RiscvFetch`, `RiscvEffects`,
  `RiscvFence`, `RiscvSwitch`): the one-entry translation cache in front of the Sv32 walk (section 4.3 of the
  RISC-V Instruction Set Manual, Volume II, 20190608), two- and four-byte
  instructions fetched across word and page boundaries, with the traps and
  interrupts in between, in every run; what turning paging on does to the code
  that does it; and what is left after a fence that fails.
- **The interrupt fabric** (`LameBus`): level-triggered lines through two masks
  to processors that may be asleep.
- **The devices** (`DiskTiming`, `Disk`, `Serial`, `Net`, `Emufs`, `Machine`):
  the disk's phases and its 32-bit time arithmetic, the serial port's ring
  buffer, busy flags, and all of them composed with the event queue.
- **The debugger's packets** (`GdbFrame`): the deframer over a fixed buffer and
  the framing it inverts.

## How the model is built

Code that changes state in place is a class with the source's fields, whose
methods have the source's branches. Each such method is proved against a
function from the old state to the new one (`View()` is the state as a value),
or states its result outright; the theorems are about those functions, and
about runs of them. Code that only computes is functions.

- A machine word is an integer below 2^32 (`Words.word`). A mask by a run of
  low or high bits is a remainder or a quotient; wrapping additions and
  subtractions are written out.
- Pointers into the action pool are indices, and -1 is NULL. Interrupt masks
  are sets of bit numbers. A page pointer is the page it points to.
- What is outside a component is an argument: the instruction executed in a
  cycle, what processors and handlers schedule, the jitter on a delay, the
  physical clock and how long a select slept, the time of day, the sectors per
  track and the seek time, whether the disk image fails, and the result of a
  host file operation.
- What an event handler schedules is a function of the event. Every event
  carries its own serial number, so such a function can do something different
  each time, and the theorems hold for all of them.
- `hang()`, `smoke()`, `crashdie()` and failed assertions end the simulation: a
  method returns a flag that says so, and a run ends there.

## Where the code differs from what it says

The model follows the code, and these are proved about it.

- LL/SC loses an update when a handler executes LL on a processor and returns
  without an exception clearing the link: the interrupted thread's SC then
  compares against the handler's value
  (`LlSc.HandlerLinkLosesUpdate`). An SC is atomic exactly when the value its
  thread loaded is the value in the link (`LlSc.AtomicExactly`). Where threads are
  switched only by exceptions and handlers do not use LL, no update is lost
  (`LinkLife.BoardLosesNoUpdate`).
- A processor can fall asleep in WAIT with its timer interrupt already pending,
  although a comment says it cannot: the counter advances once more in the
  cycle of the WAIT (`LameBus.WaitMissesTimer`).
- Turning a processor on does not set its CPUE bit, so CPUE reads back what was
  written exactly when nothing is turned on (`LameBus.CpueReadsBack`).
- The idle loop adds the leftover nanoseconds of one round to virtual time
  twice, and those of an earlier sleep once more, so virtual time runs ahead of
  the time slept unless no round begins with any (`History.IdleClockExact`).
- Events can be late. What a pass fires is less than a clock period late whatever
  the processors ask for exactly if an event was in reach when it began or the pass
  is less than a period longer than the least delay there is
  (`Lateness.PassInTimeExactly`): from power-on a pass can fire an event late by 2 ms
  less its delay (`Lateness.LateByAPass`). An idle round that waits in its select
  fires everything in time, because what comes in is scheduled at the time the select
  returns. One that only looks, since the next event is at most 10 ms ahead of real
  time, schedules it at the time before the jump to that event, and is in time
  whatever comes exactly if the jump is less than a period longer than the least
  delay (`Lateness.RoundInTimeExactly`, `Lateness.LateByASleep`).
- An aborted disk transfer leaves its passes on the try counter
  (`Disk.AbortsUseUpTries`). The "geometry modeling fault" path is out of reach
  of a transfer exactly if the tries used and the passes it may still need come
  to no more than the limit of ten (`Disk.FallbackExactly`): so of the first
  transfer always, and of one after aborts exactly if its three passes, or four
  with a seek, fit beside theirs (`Disk.FallbackAfterAborts`). After ten aborts
  the next operation takes it at once (`Disk.FallbackReached`).
- The serial port's busy flag is not raised while a character waits to be read,
  so each further key starts another chain of pushes
  (`Serial.SlowReaderPilesUpPushes`), and nothing bounds their number: for every n
  some typing leaves n pending with nothing to push (`Serial.ChainsHaveNoBound`),
  though the pool of the scheduler holds 1024 events.
- A debugger packet whose signed characters sum to a negative remainder is
  framed with a checksum that is refused (`GdbFrame.FrameAccepted`).
- On RISC-V a supervisor fetch from a user page that is in the translation cache
  succeeds though the walk refuses it (`RiscvMmu.CacheIsTransparent`).
- An SFENCE.VMA that fails takes an exception but leaves the cache as it was. The
  machine survives it with paging on exactly if the trap vector is on the cached
  page, and then has that page and nothing else (`RiscvFence.FailedFence`,
  `RiscvFence.StuckOnPage`); a run from reset gets there
  (`RiscvFence.FailureReached`).
- Writing SATP, or a fence that succeeds, does not look the pc up. The code runs on
  from the page it is on, which is where the pc led when it was last looked up
  (`RiscvFetch.RunFetchesRight`), and which is right after SATP is written exactly
  if the mode is off and the page is its own address, or the mode is on and the
  root table of the last fence leads there (`RiscvFetch.ExecutedExact`). From reset
  to the first fence there is no such table, so paging is always turned on under a
  pc that has no translation (`RiscvSwitch.NoRootYet`); the fence puts that right
  exactly if the new table leads to the page the code runs on
  (`RiscvSwitch.SwitchThenFence`). `RiscvSwitch.BootTurnsPagingOn` is such a run.
- On MIPS a write to STATUS or TLBHI, and TLBR, do not look the pc up again. The
  cached places stay right exactly if no user mode is set above the user segment
  (`MipsPcCache.StatusWriteExact`) and the new address space still maps the code
  about to run to the pages it is on (`MipsPcCache.EntryWriteExact`). The run
  theorems take all runs whose cycles meet those conditions, and
  `MipsPcCache.RunExact` shows that no other run stays right;
  `MipsStale.SwitchUnderMappedCode` has runs from reset in which a TLBHI write
  and a TLBR go wrong, and the same runs with a global mapping in which they do
  not, and `MipsStale.StatusUnderBootRom` one in which a STATUS write does.

## Model

| member | source | states |
|---|---|---|
| `EventQueue.InsertAt` | sys161/main/clock.c:310-321 | The sorted insertion puts an event after every event that is not later and before the first that is: position, not just order |
| `EventQueue.InsertOrdered` | sys161/main/clock.c:310-321 | Insertion keeps the queue in order of time and, at equal times, of scheduling |
| `EventQueue.InsertElements` | sys161/main/clock.c:310-321 | No event is lost or duplicated by an insertion |
| `EventQueue.ScheduleLater` | sys161/main/clock.c:236-256 | Handlers that schedule with positive delays change nothing about what is due now, only what is left |
| `EventQueue.NothingDueAmongLater` | sys161/main/clock.c:236-256 | The events left by a dispatch are exactly the later ones |
| `EventQueue.ScheduleKeepsHistory` | sys161/main/clock.c:293-321 | An event scheduled for a future time extends the stable sort of fired and pending events |
| `EventQueue.DispatchKeepsHistory` | sys161/main/clock.c:236-256 | A dispatch, handlers and all, leaves fired and pending events together the stable sort of everything ever scheduled, and nothing due |
| `ActionPool.AllocConsistent` | sys161/main/clock.c:200-211 | Taking a node off the free list keeps the three-way partition of the pool and both lists |
| `ActionPool.FreeConsistent` | sys161/main/clock.c:213-219 | Putting a node back keeps the partition, the lists, and what is queued |
| `ActionPool.PopConsistent` | sys161/main/clock.c:250 | Taking the head off the queue leaves the node in flight and the rest of the queue |
| `ActionPool.LinkConsistent` | sys161/main/clock.c:314-321 | Rewriting two links inserts the node at its place: the list that results is the sorted insertion |
| `ActionPool.LinkRunning` | sys161/main/clock.c:331-334 | Only the head is ever run to; inserting ahead of it clears its flag, inserting elsewhere leaves it |
| `Clock.Clock.constructor` | sys161/main/clock.c:221-229 | All 1024 nodes start on the free list, nothing is scheduled, and the history is empty |
| `Clock.Clock.AcAllocInit` | sys161/main/clock.c:221-229 | Freeing every node in turn builds a free list of all of them |
| `Clock.Clock.AcAlloc` | sys161/main/clock.c:200-211 | A node, or none exactly when the free list is empty |
| `Clock.Clock.AcFree` | sys161/main/clock.c:213-219 | The node goes from flight to the front of the free list; the queue is untouched |
| `Clock.Clock.FindPlace` | sys161/main/clock.c:314-318 | The place found is after every event not later than this one |
| `Clock.Clock.Relink` | sys161/main/clock.c:320-334 | The writes of the insertion, and that the processors stop exactly if it is ahead of the event they run to |
| `Clock.Clock.ScheduleEvent` | sys161/main/clock.c:293-335 | The queue gains the event in order; the processors stop if and only if it precedes the event they run to; fails exactly when no node is free |
| `Clock.Clock.FireHead` | sys161/main/clock.c:245-254 | The head leaves the queue, its handler schedules what it likes, and then the node is freed |
| `Clock.Clock.CheckQueue` | sys161/main/clock.c:236-256 | Exactly the due events fire, in order, once each, however much the handlers schedule; it terminates, and fails if and only if some handler asks for more than the nodes left then |
| `Clock.Clock.GetRunTicks` | sys161/main/clock.c:265-288 | Zero if the head is due, else the distance rounded up to less than a cycle past it with the head flagged, else the maximum |
| `History.VAhead` | sys161/main/clock.c:149-177 | Never further ahead than the event is in virtual time |
| `Clock.Clock.CpuCycle` | sys161/mipseb/mipscore.h:2788-2791 | One cycle: its events are scheduled at its moment and no event gets earlier than it was |
| `Clock.Clock.CpuCycles` | sys161/mipseb/mipscore.h:2779-2803 | At most the cycles asked for, fewer only if stopped, and stopped only when running to an event; the idle shortcut only when all are idle; running to an event leaves none late by a cycle; fails if and only if more is asked for than there are nodes |
| `Clock.Clock.Dispatch` | sys161/main/clock.c:344-352 | Time advances, what has come due fires in order, the log grows by exactly what the handlers ask for, and nothing is due afterwards |
| `Clock.Clock.RunProcessors` | sys161/main/main.c:153-157 | At least one cycle, at most the rotor, all of it if no event is in reach and not a cycle past the event if one is, and the bound on lateness that the queue at the start decides |
| `Clock.Clock.RunPass` | sys161/main/main.c:152-164 | One pass from history to history: time, log and firings all accounted for, the rotor between 1 and its maximum, every event fired within the pass that it came due in, and on time to within a cycle if it was pending or one was in reach; it fails if and only if it has more events outstanding than there are nodes |
| `Clock.Clock.Sleep` | sys161/main/clock.c:401-435 | To the next event if that is at most 10 ms ahead of real time; never past it; and how much of it is spent in a timed select |
| `Clock.Clock.TrySelect` | sys161/main/onsel.c:94-144 | What comes in while the select waits is scheduled from the time it returns, and nothing pending gets earlier |
| `Clock.Clock.WaitRound` | sys161/main/clock.c:400-444 | One idle round from history to history: the time slept is the one the next event and the physical clock give, virtual time ends less than 40 ns past the next event, every event that was pending is fired less than 40 ns late, and after a timed select every event; it fails if and only if nodes run out |
| `Clock.Clock.WaitIrq` | sys161/main/clock.c:393-445 | Over any number of rounds the time slept is 40 times the idle cycles credited plus the slop left, and the rounds are windows that tile the time; they fail if and only if some round lacks nodes |
| `History.IdleClockExact` | sys161/main/clock.c:437-442 | From any slop, virtual time advances by the time slept if and only if no round begins with slop, and is otherwise ahead by at least the slop it began with |
| `Clock.Clock.RunLoop` | sys161/main/main.c:144-175 | However long the machine runs: its windows are the passes and rounds it was given, with the rotor each began with; they tile the time; each accounts for all that was scheduled and fired in it; the history is the stable sort of all events; and it fails if and only if at some step more events are outstanding than there are nodes |
| `History.OneForOne` | sys161/main/clock.c:200-211 | When a handler asks for one event at most, firing events can exhaust the pool only at the first of them, with every node taken |
| `History.CoursePunctual` | sys161/main/main.c:144-175 | Every event fired in such a run falls in one window, is not early, within that pass, and less than 40 ns late if it was pending when the window began or the window is a timed select |
| `History.PassPunctual` | sys161/main/main.c:152-164 | What a pass fires: an event pending at its start is less than 40 ns late whether or not the processors were run to it |
| `History.WaitPunctual` | sys161/main/clock.c:400-444 | The same for what fires while no processor runs, and after a timed select for all of it, host input included |
| `Lateness.PassInTimeExactly` | sys161/main/clock.c:265-288 | Whatever the processors ask for, with no delay below a least one, all that a pass fires is less than 40 ns late if and only if an event is in reach at its start or the pass is less than 40 ns longer than that delay |
| `Lateness.RoundInTimeExactly` | sys161/main/clock.c:400-444 | Whatever host input comes, all that an idle round fires is less than 40 ns late if and only if nothing is pending, or the next event is over 10 ms ahead of real time, or the jump to it is less than 40 ns longer than the least delay |
| `Lateness.LateByAPass` | sys161/main/main.c:152-164 | From power-on, with processors at work, a pass that fires an event late by 2 ms less its delay |
| `Lateness.LateByASleep` | sys161/main/onsel.c:127-142 | With an event pending, an idle round that fires what a key asked for late by all of the time between the two |
| `MipsMmu.LocateNextWord` | sys161/mipseb/mipscore.h:258-340 | Within a page, the next word is at the same page pointer and an offset four higher |
| `MipsMmu.CheckTlbDups` | sys161/mipseb/mips.c:656-694 | Reports a clashing entry exactly when there is one, and which |
| `MipsMmu.WritesStayUnambiguous` | sys161/mipseb/mipscore.h:76-106 | While the clash check reports nothing no two entries can match one page of one address space |
| `MipsMmu.OnlyMatch` | sys161/mipseb/mipscore.h:24-49 | After any such writes from reset, the first match is the only match |
| `MipsMmu.ReportedExactlyWhenAmbiguous` | sys161/mipseb/mips.c:656-694 | A write is reported if and only if it leaves some page of some address space with two translations |
| `MipsMmu.ResetUnambiguous` | sys161/mipseb/mips.c:567-578 | The reset TLB has no clashes |
| `MipsState.VectorsLocated` | sys161/mipseb/mipscore.h:228-252 | The exception vectors and the words after them are direct-mapped and backed by memory |
| `MipsPcCache.OnlyOneRfe` | sys161/mipseb/mipscore.h:2407-2433 | Exactly one word decodes as RFE, the one that branches and page crossings compare against |
| `MipsPcCache.RaiseSettles` | sys161/mipseb/mipscore.h:185-252 | From any state exception entry ends in kernel mode, interrupts off, at a vector, with both places cached, the link cleared and one exception counted |
| `MipsPcCache.PrecomputedBothSettles` | sys161/mipseb/mipscore.h:521-559 | Looking both places up again leaves them right, whether or not one faults |
| `MipsPcCache.AdvancedSettles` | sys161/mipseb/mipscore.h:2571-2592 | Stepping to nextpc by offset, or by looking up across a page, keeps both cached places right |
| `MipsPcCache.BranchedInStep` | sys161/mipseb/mipscore.h:739-772 | A branch leaves the cached places right, or deferred when an RFE is in the delay slot |
| `MipsPcCache.StallNeverFaults` | sys161/mipseb/mipscore.h:155-183 | Going back to the interrupted instruction never faults, so no exception arises that the program did not cause |
| `MipsPcCache.AccessSettles` | sys161/mipseb/mipscore.h:258-340 | A data access, or the exception it takes, leaves the cached places right |
| `MipsPcCache.TlbWriteSettles` | sys161/mipseb/mipscore.h:76-106 | So does replacing any TLB entry, including the one the code runs through |
| `MipsPcCache.RfeSettles` | sys161/mipseb/mipscore.h:119-153 | RFE, or the trap it takes in user mode, settles the places that were left open for it |
| `MipsPcCache.StatusWriteExact` | sys161/mipseb/mipscore.h:834-873 | A write to STATUS leaves the cached places right exactly if it stays in kernel mode or all that is about to run is in the user segment |
| `MipsPcCache.EntryWriteExact` | sys161/mipseb/mipscore.h:1053-1056 | Changing TLBHI, by MTC0 or TLBR, leaves the cached places right if and only if the new space maps pc and nextpc to the pages they are on |
| `MipsPcCache.RegisterWriteExact` | sys161/mipseb/mipscore.h:834-1056 | STATUS, TLBLO and TLBHI writes and TLBR: exactly when each may be made under way |
| `MipsPcCache.TlbHiWriteLeavesStale` | sys161/mipseb/mipscore.h:1053-1056 | In particular a space that does not map the pc leaves a stale place behind |
| `MipsPcCache.CycledInStep` | sys161/mipseb/mipscore.h:2456-2600 | One whole cycle that keeps the space keeps the invariant: cached places right, restart possible |
| `MipsPcCache.CycleExact` | sys161/mipseb/mipscore.h:2456-2600 | And no other cycle does: keeping the space is necessary as well |
| `MipsPcCache.SlotFlagClears` | sys161/mipseb/mipscore.h:2480-2600 | No cycle begins with the delay-slot flag left over |
| `MipsPcCache.EpcNamesInstruction` | sys161/mipseb/mipscore.h:202-216 | An exception outside a delay slot reports the instruction's own address |
| `MipsPcCache.EpcNamesJump` | sys161/mipseb/mipscore.h:202-216 | One in a delay slot reports the jump before it, with the delay-slot bit set |
| `MipsPcCache.RunInStep` | sys161/mipseb/mipscore.h:2456-2600 | So does any run of such cycles |
| `MipsPcCache.RunExact` | sys161/mipseb/mipscore.h:2456-2600 | A run has the cached places right at every cycle if and only if each of its cycles keeps the space |
| `MipsPcCache.ResetInStep` | sys161/mipseb/mips.c:696-806 | The processor starts with both places cached |
| `MipsPcCache.CachedFetchIsFullFetch` | sys161/mipseb/mipscore.h:2571-2592 | In any run from reset whose cycles keep the space the word fetched through the cached pointer is the word full translation of the pc leads to |
| `MipsStale.ProgramRuns` | sys161/mipseb/mips.c:696-806 | A program sets up two TLB entries from reset and jumps to mapped code, in step all the way |
| `MipsStale.StatusUnderBootRom` | sys161/mipseb/mipscore.h:834-873 | The first STATUS write out of reset leaves the cached places right exactly if it stays in kernel mode |
| `MipsStale.SwitchUnderMappedCode` | sys161/mipseb/mipscore.h:2324-2335 | The next TLBHI write or TLBR leaves the cached places right exactly if the page is mapped globally: a failing and a harmless run of each |
| `MipsEffects.TranslationMeans` | sys161/mipseb/mipscore.h:258-340 | The same of the translation function, for every state, address and kind of access |
| `MipsEffects.RamOnce` | sys161/mipseb/mipscore.h:472-497 | Every page of RAM is at exactly one physical address, the ROM at 0x1fc00000, and nothing is fetched from the devices |
| `MipsEffects.PlacesMean` | sys161/mipseb/mipscore.h:521-539 | The place cached for an address is the page of RAM or ROM that its physical address is on, and its offset there |
| `MipsEffects.TlbRegistersReadBack` | sys161/mipseb/mips.c:580-626 | What is written to TLBLO and TLBHI reads back, without the bits that are not there |
| `MipsEffects.MappingIsUsed` | sys161/mipseb/mipscore.h:76-106 | After TLBHI, TLBLO and a TLB write an address on that page goes to the page written, by the valid, dirty and global bits and the address space, and otherwise gets the exception for it |
| `MipsEffects.NothingMapped` | sys161/mipseb/mips.c:561-578 | Out of reset every mapped address misses |
| `MipsEffects.StatusShifts` | sys161/mipseb/mipscore.h:803-873 | STATUS reads back what was written; an exception shifts its modes up and RFE shifts them down |
| `MipsEffects.CycleGoes` | sys161/mipseb/mipscore.h:2456-2600 | Every cycle without an exception: the delay slot before the target of a jump, back to the instruction or its jump on a stall, and otherwise the word after next, with expc and the modes |
| `MipsEffects.ExceptionsMean` | sys161/mipseb/mipscore.h:185-252 | Interrupts, misaligned jumps, bus errors and traps, each with its code and what it reports |
| `MipsCpu.MipsCpu.constructor` | sys161/mipseb/mips.c:696-806 | Reset, with both places looked up |
| `MipsCpu.MipsCpu.FindTlb` | sys161/mipseb/mipscore.h:24-49 | The first matching entry, or none |
| `MipsCpu.MipsCpu.Exception` | sys161/mipseb/mipscore.h:185-252 | The recursive exception entry terminates and comes to the closed form, wherever it started |
| `MipsCpu.MipsCpu.TranslateMem` | sys161/mipseb/mipscore.h:258-340 | Loads and stores alike get the low 29 bits in kseg0 and kseg1 and elsewhere the page of the first matching entry; each refusal is the exception with its code, about that address, at the UTLB vector exactly on a miss below 0x80000000 |
| `MipsCpu.MipsCpu.PrecomputePc` | sys161/mipseb/mipscore.h:521-539 | Caches the place of pc or takes the exception, in mutual recursion with both |
| `MipsCpu.MipsCpu.PrecomputeNextPc` | sys161/mipseb/mipscore.h:541-559 | The same for nextpc |
| `MipsCpu.MipsCpu.WriteTlb` | sys161/mipseb/mipscore.h:76-106 | Replaces one entry, looks both places up, and reports a clash exactly when there is one |
| `MipsCpu.MipsCpu.DoRfe` | sys161/mipseb/mipscore.h:119-153 | Pops the status stack and looks both places up in the new mode |
| `MipsCpu.MipsCpu.Restart` | sys161/mipseb/mipscore.h:155-183 | Back to the instruction at expc with both places looked up |
| `MipsCpu.MipsCpu.ABranch` | sys161/mipseb/mipscore.h:739-772 | Jumps, faults on a misaligned target, and leaves the lookup to an RFE in the delay slot |
| `MipsCpu.MipsCpu.Advance` | sys161/mipseb/mipscore.h:2571-2592 | On to nextpc, looking the next one up only across a page and not past an RFE |
| `MipsCpu.MipsCpu.Cycle` | sys161/mipseb/mipscore.h:2456-2600 | A cycle follows no missing page pointer, does what its specification says and keeps the invariant |
| `StatusStack.ModeRestored` | sys161/mipseb/mipscore.h:222-228 | After any well-nested exceptions and returns, of any length, mode and interrupt enable are back exactly if the nesting was at most two deep or there was nothing to lose |
| `StatusStack.SlotOfLevel` | sys161/mipseb/mipscore.h:222-228 | In every handler the processor is in kernel mode with interrupts off, and the slot of the current level holds the mode to return to |
| `StatusStack.ThreeDeepLosesTheMode` | sys161/mipseb/mipscore.h:222-228 | Three levels lose the mode of user code |
| `StatusStack.ProcessorTurns` | sys161/mipseb/mipscore.h:119-153 | Exception entry, and a return with its lookups and the exceptions they take, move the status stack that way |
| `StatusStack.RunTakesTurns` | sys161/mipseb/mipscore.h:2456-2600 | So does every cycle and every run of the processor that does not write STATUS: one entry for each exception and one return for each RFE |
| `StatusStack.RunRestoresMode` | sys161/mipseb/mipscore.h:2456-2600 | And so over any run of the processor that is well nested mode and interrupt enable come back exactly if it was never more than two deep or there was nothing to lose |
| `LlSc.Processors.Ll` | sys161/mipseb/mipscore.h:1625-1646 | Notes address and value, or takes an exception that clears the link |
| `LlSc.Processors.Sc` | sys161/mipseb/mipscore.h:1716-1800 | Stores exactly if the link is live for this address and memory still holds the value noted |
| `LlSc.Processors.Exception` | sys161/mipseb/mipscore.h:220 | An exception clears the link of its processor and nothing else |
| `LlSc.ScExactly` | sys161/mipseb/mipscore.h:1716-1800 | An SC stores if and only if the last LL, with no exception since, was to that address and the word is what it read; and changes no other word |
| `LlSc.AtomicExactly` | sys161/mipseb/mipscore.h:1774-1794 | A successful SC is an atomic update for every operation if and only if its thread loaded the value in the link |
| `LlSc.NoLostUpdate` | sys161/mipseb/mipscore.h:1717-1800 | For any number of processors and any interleaving the final value is the fold of the operations of exactly the successful SCs, in order |
| `LlSc.CounterCounts` | sys161/mipseb/mipscore.h:1717-1800 | A counter incremented by LL/SC loops counts the successes |
| `LlSc.HandlerLinkLosesUpdate` | sys161/mipseb/mipscore.h:119-153 | A run in which a handler leaves a link behind and two successful increments add one |
| `LinkLife.CycleLink` | sys161/mipseb/mipscore.h:2456-2600 | A cycle without LL leaves a link exactly if there was one and it took no exception; an LL that is not interrupted leaves one exactly if it completes |
| `LinkLife.LinkOutlivesRun` | sys161/mipseb/mipscore.h:185-220 | After any run of a processor without LL its link is live if and only if it was before and no exception came in between |
| `LinkLife.TurnLegal` | sys161/mipseb/mipscore.h:1625-1800 | Whatever instruction a processor of the board executes, interrupted or faulting or not, is a legal run of its thread |
| `LinkLife.DisciplineIsLegal` | sys161/mipseb/mipscore.h:119-153 | In every run of any number of processors whose threads are switched only by returns from exceptions, with no LL in handlers, a live link belongs to the thread that is running, and what the threads do is a legal run |
| `LinkLife.BoardLosesNoUpdate` | sys161/mipseb/mipscore.h:1717-1800 | So in all those runs the final value of a shared word is the fold of the successful SCs |
| `LinkLife.PowerOnGood` | sys161/mipseb/mips.c:696-806 | Processors out of reset are such a board |
| `LinkLife.IncrementFromPowerOn` | sys161/mipseb/mipscore.h:1625-1800 | A run of it: LL and SC from reset increment a word |
| `SubWord.LoadIsBytes` | sys161/mipseb/mipscore.h:562-642 | The masks and shifts of each kind of load pick out the bytes of its address and extend or merge them |
| `SubWord.StoreIsBytes` | sys161/mipseb/mipscore.h:644-737 | The read-modify-write of each kind of store replaces the bytes of its address and no others |
| `SubWord.WordMemory.DoMem` | sys161/mipseb/mipscore.h:507-519 | One aligned word, or an exception |
| `SubWord.WordMemory.DoLoad` | sys161/mipseb/mipscore.h:562-642 | Loads are reads of a big-endian byte array; an odd halfword address and a missing word fail and leave the register |
| `SubWord.WordMemory.DoStore` | sys161/mipseb/mipscore.h:644-737 | Stores are writes to that array; a refused access at either step changes nothing |
| `SubWord.UnalignedLoad` | sys161/mipseb/mipscore.h:603-638 | LWL a; LWR a+3 loads the four bytes at any address |
| `SubWord.UnalignedStore` | sys161/mipseb/mipscore.h:689-732 | SWL a; SWR a+3 stores them there and changes no other byte |
| `SubWord.StoreThenLoad` | sys161/mipseb/mipscore.h:562-737 | What was stored comes back, bytes and halfwords unsigned or sign-extended |
| `SubWord.SignExtends` | sys161/mipseb/mipscore.h:562-600 | Sign extension keeps the signed value and the low bits |
| `LameBus.Bus.constructor` | sys161/bus/lamebus.c:597-606 | Processor 0 runs, the others are off, nothing is masked or raised |
| `LameBus.Bus.IrqUpdate` | sys161/bus/lamebus.c:153-180 | The loop over the processors, proved equal to the recursive routing function |
| `LameBus.Bus.RaiseIrq` | sys161/bus/lamebus.c:183-189 | The line is up, and every processor is told if it is to be interrupted now |
| `LameBus.Bus.LowerIrq` | sys161/bus/lamebus.c:191-197 | The line is down, and a processor stays interrupted exactly if another line passes both masks |
| `LameBus.Bus.StoreIrqe` | sys161/bus/lamebus.c:493-496 | The mask is what was stored, and every processor is told what it lets through |
| `LameBus.Bus.StoreCirqe` | sys161/bus/lamebus.c:380-383 | The same for the mask of one processor |
| `LameBus.Bus.StoreCipi` | sys161/bus/lamebus.c:384-387 | A store to CIPI reaches that processor's line |
| `LameBus.Bus.SetCpue` | sys161/bus/lamebus.c:244-292 | Turning processors off and on, bit by bit |
| `LameBus.Bus.CpuSetIrqs` | sys161/mipseb/mips.c:1148-1171 | Both lines are set, and a sleeping processor wakes for either |
| `LameBus.Bus.DoWait` | sys161/mipseb/mipscore.h:108-117 | A processor sleeps only if nothing is pending for it |
| `LameBus.Bus.Tick` | sys161/mipseb/mipscore.h:2711-2718 | The end-of-cycle step of the timer, with its 32-bit counter |
| `LameBus.Bus.SetCompare` | sys161/mipseb/mipscore.h:1057-1068 | A write to COMPARE clears the timer interrupt |
| `LameBus.NoLostWakeup` | sys161/bus/lamebus.c:153-197 | In every reachable state each processor is interrupted exactly when a raised line passes both masks, both sides agree, the running mask is the running processors, and no sleeper has LAMEbus or IPI asserted |
| `LameBus.LinesMean` | sys161/bus/lamebus.c:153-197 | After any step the lines and registers are what was last done to them, and a processor is interrupted exactly if some raised line passes both masks |
| `LameBus.WaitMeans` | sys161/mipseb/mipscore.h:108-117 | WAIT sleeps if no line is up and otherwise does nothing |
| `LameBus.TimerPeriod` | sys161/mipseb/mipscore.h:1057-1068 | After a store to COMPARE the timer interrupt comes after exactly the cycles left to it, and then the counter starts again |
| `LameBus.PowerOnRouted` | sys161/bus/lamebus.c:597-606 | The power-on state is one of them: every line let through to everyone, and processor 0 alone running |
| `LameBus.RaiseWakes` | sys161/mipseb/mips.c:1160-1171 | A sleeper wakes for a raised slot exactly if both masks let that slot through |
| `LameBus.WaitMissesTimer` | sys161/mipseb/mipscore.h:2711-2718 | Exactly when a processor falls asleep with its timer interrupt already there |
| `LameBus.CpueReadsBack` | sys161/bus/lamebus.c:229-292 | CPUE reads back what was written if and only if nothing was turned on |
| `DiskTiming.LocateSector` | sys161/bus/dev_disk.c:547-574 | The track and offset of a sector, counting from the outermost track; fails exactly past the end |
| `DiskTiming.OnePlace` | sys161/bus/dev_disk.c:547-574 | No two places have one sector number: locating inverts numbering |
| `DiskTiming.Numbering` | sys161/bus/dev_disk.c:547-574 | Sector numbers run along the outermost track and then inwards, one by one |
| `DiskTiming.ReadRotDelay` | sys161/bus/dev_disk.c:592-646 | Despite wrapping 32-bit arithmetic the delay is exactly the time left until the sector has been read, and less than a revolution |
| `DiskTiming.FirstIsEarliest` | sys161/bus/dev_disk.c:617-621 | The target time is the earliest one a whole number of revolutions on |
| `DiskTiming.WriteRotDelay` | sys161/bus/dev_disk.c:648-685 | At least a sector time and, when that is not zero, less than a revolution and a sector |
| `DiskTiming.RotDelayMeans` | sys161/bus/dev_disk.c:592-685 | The delay ends when the start of the next sector first comes round after the arrival, for a read, or a sector time after its own start does, for a write |
| `DiskTiming.RevolutionFits` | sys161/bus/dev_disk.c:737-744 | A speed that is a multiple of 60 rpm gives a revolution between 1 ns and 1 s, the longest whose turns fit a second |
| `Disk.Controller.Approach` | sys161/bus/dev_disk.c:905-994 | A pass that looks for its sector asks for the seek time to its track, or goes on there |
| `Disk.Controller.OnTrack` | sys161/bus/dev_disk.c:923-994 | The part of a pass after the seek: the event asked for is the rotational delay the geometry and the clock give, or 500 ns for a copy, or none |
| `Disk.Controller.GiveUp` | sys161/bus/dev_disk.c:879-900 | The fallback: reset the head position and do the transfer |
| `Disk.Controller.Work` | sys161/bus/dev_disk.c:848-994 | One pass does what the state machine says in the environment that geometry and clock determine |
| `Disk.Controller.SetStatus` | sys161/bus/dev_disk.c:1013-1043 | Only idle, read and write are legal; each restarts the phases and updates, in the environment that geometry and clock determine |
| `Disk.Controller.Fire` | sys161/bus/dev_disk.c:823-846 | A seek or a wait ends: position or phase is updated, the flag falls, and the next pass runs, in the environment that geometry and clock determine |
| `Disk.Controller.RunOperation` | sys161/bus/dev_disk.c:848-1043 | From a status write at rest to the interrupt, events fired at any later times: at most four passes, one transfer, the head on the one track that holds the sector, the fallback not taken; and what it waited for, in order: the seek, the copy of what is written, the rotation left when that was over, the copy of what is read |
| `Disk.Finishes` | sys161/bus/dev_disk.c:848-994 | From any point of a transfer with tries left it ends within the passes remaining, with one transfer, the counter reset, the interrupt up, and the fallback not taken |
| `Disk.FallbackExactly` | sys161/bus/dev_disk.c:879-900 | No behaviour of platter and image file makes a transfer take the fallback if and only if tries used plus passes remaining are at most ten |
| `Disk.OperationFinishes` | sys161/bus/dev_disk.c:848-1043 | From rest every read or write of a valid sector completes or reports a media error within four passes, on its own track, with the fallback out of reach |
| `Disk.StatusMeans` | sys161/bus/dev_disk.c:1013-1043 | What a status write does at once: stop, wait for the pending event, or complete with an error for a sector that is not there |
| `Disk.RunSound` | sys161/bus/dev_disk.c:823-1043 | Through aborts and restarts: the timed flag is one pending event and the interrupt line is the COMPLETE bit |
| `Disk.AbortUsesTries` | sys161/bus/dev_disk.c:1013-1043 | An operation given up after k passes, anywhere in it, leaves the drive idle with k tries more on the counter |
| `Disk.AbortsUseUpTries` | sys161/bus/dev_disk.c:1013-1043 | Any sequence of aborted transfers leaves all their passes on the counter |
| `Disk.FallbackAfterAborts` | sys161/bus/dev_disk.c:879-900 | After any aborts the fallback is out of reach of the next transfer if and only if its three passes, four with a seek, fit beside theirs |
| `Disk.FallbackAfterOverlap` | sys161/bus/dev_disk.c:823-846 | An operation started before the event of the aborted one takes that event for its own, track or phase, with the tries of the other, and the condition for the fallback is the same |
| `Disk.FallbackReached` | sys161/bus/dev_disk.c:879-900 | Ten aborts from power-on make the next operation take the fallback, without seeking or waiting |
| `Serial.RingAdd` | sys161/bus/dev_serial.c:163-164 | Writing at the tail and advancing it appends to the queue the ring stands for |
| `Serial.RingTake` | sys161/bus/dev_serial.c:124-125 | Reading at the head and advancing it removes the first |
| `Serial.SerialPort.PushInput` | sys161/bus/dev_serial.c:103-143 | Puts the next character in the register, unread and announced, or waits for the processor, or goes quiet |
| `Serial.SerialPort.Input` | sys161/bus/dev_serial.c:145-169 | Takes the low byte of a key exactly when fewer than 511 are waiting, and starts a push if the port is not busy |
| `Serial.SerialPort.FirePush` | sys161/bus/dev_serial.c:103-143 | A timed push |
| `Serial.SerialPort.FetchChar` | sys161/bus/dev_serial.c:180-184 | The character, marked as read |
| `Serial.SerialPort.StoreChar` | sys161/bus/dev_serial.c:204-212 | A character is sent only when no write is in progress |
| `Serial.SerialPort.WriteDone` | sys161/bus/dev_serial.c:91-101 | The write flag falls and the interrupt goes up |
| `Serial.SerialPort.SetIrq` | sys161/bus/dev_serial.c:75-89 | The line is up exactly when an enabled register is ready or forced |
| `Serial.LosslessFifo` | sys161/bus/dev_serial.c:103-223 | In every run delivered and buffered characters are, in order, exactly the accepted ones; the register holds the one delivered last; fewer than 512 wait; while any does a push is on its way; the write flag is one pending event |
| `Serial.StepKeeps` | sys161/bus/dev_serial.c:103-223 | And a character not read stays in the register while its ready bit is set |
| `Serial.AcceptedArrive` | sys161/bus/dev_serial.c:103-184 | In every run in which a read comes before each push, n pushes have delivered the first n characters that were waiting, or all; and exactly those if nothing is typed meanwhile |
| `Serial.ReadsAreDelivered` | sys161/bus/dev_serial.c:103-184 | What the processor reads, in every run in which it acknowledges nothing unread: the characters typed, in order and each once, as far as they have been delivered |
| `Serial.ChainsOfPushes` | sys161/bus/dev_serial.c:103-169 | Exactly when a key starts another chain of pushes and when a push ends one |
| `Serial.SlowReaderPilesUpPushes` | sys161/bus/dev_serial.c:112-121 | While a character lies unread every key adds a pending push |
| `Serial.ChainsHaveNoBound` | sys161/bus/dev_serial.c:103-169 | For every n a run from power-on ends with n pushes pending, an empty buffer and the busy flag down |
| `Net.Interface.SetCtl` | sys161/bus/dev_net.c:321-347 | A start schedules one send; START cannot be cleared by a store; a second start changes nothing but PROMISC |
| `Net.Interface.TriggerSend` | sys161/bus/dev_net.c:309-319 | The send ends, reporting unless the packet is too long |
| `Net.Interface.SetIrq` | sys161/bus/dev_net.c:291-307 | The interrupt registers hold one bit, and the line follows them |
| `Net.InterruptsMean` | sys161/bus/dev_net.c:291-319 | A send ends with the write interrupt up exactly if the packet fits, and a packet that comes in puts the read interrupt up |
| `Emufs.Device.DoOp` | sys161/bus/dev_emufs.c:753-771 | An operation starts only if none is in progress |
| `Emufs.Device.Done` | sys161/bus/dev_emufs.c:736-751 | It is reported with the result it had |
| `Emufs.ReportsItsOwn` | sys161/bus/dev_emufs.c:736-771 | Whatever is stored meanwhile, an operation completes once, with its own result |
| `Emufs.Device.PickHandle` | sys161/bus/dev_emufs.c:247-269 | The handle already open on the file if any, else the first free one |
| `Machine.RunKeepsAgreement` | sys161/bus/dev_disk.c:823-965 | In every run of any devices with the scheduler the queue holds for each slot exactly the events its device waits for |
| `Machine.BusyIsOnePending` | sys161/bus/dev_net.c:309-347 | Disk, serial, network and file busy flags are set exactly while one completion event is queued for the slot, aborts and second starts included |
| `Machine.DeliveredWasAwaited` | sys161/bus/dev_emufs.c:736-751 | A completion is only delivered to a device that is busy, and the disk is told of the seek or wait it asked for |
| `Machine.CompletionTimes` | sys161/bus/dev_net.c:321-347 | What each device asks the clock for, and after how long |
| `RiscvMmu.TranslationUnit.TranslateMem` | sys161/riscv/riscvcore.h:208-270 | Cache, walk, checks in order of priority, and the fill |
| `RiscvMmu.TranslationUnit.WalkTables` | sys161/riscv/riscvcore.h:272-418 | The two-level walk with superpages, faults in the documented order, and the fill for ordinary pages only; with the answer that the words read at the two levels give |
| `RiscvMmu.WalkMeans` | sys161/riscv/riscvcore.h:272-418 | The walk by the words of the tables: which word is read at each level, what its bits allow, and the frame and offset or the fault that results |
| `RiscvMmu.TranslationUnit.WriteSatp` | sys161/riscv/riscv.c:573-584 | The cache is emptied; the root table is not yet mapped |
| `RiscvMmu.TranslationUnit.SfenceVma` | sys161/riscv/riscvcore.h:2164-2188 | Maps the root table and empties the cache, or fails |
| `RiscvMmu.HitAgreesExactly` | sys161/riscv/riscvcore.h:240-270 | A hit gives the walk's answer if and only if the page may be reached in the present mode or forbids the access anyway |
| `RiscvMmu.CacheIsTransparent` | sys161/riscv/riscvcore.h:208-418 | After any accesses with root, tables, mode and SUM unchanged, translation through the cache is the walk, except exactly for a supervisor fetch from a user page |
| `RiscvMmu.WalkGrantsExactly` | sys161/riscv/riscvcore.h:290-403 | The walk grants an access exactly on a leaf in range that the mode may use and the page permits, accessed, and dirty for a write |
| `RiscvMmu.DebuggerSeesTheSame` | sys161/riscv/riscvcore.h:420-573 | The debugger's copy of translation gives the processor's address, except that it ignores the mode on a walk |
| `RiscvMmu.OnlySuccessEmpties` | sys161/riscv/riscvcore.h:720-737 | SATP writes and successful fences empty the cache; a failed fence does not |
| `RiscvMmu.FailedFenceLeavesAccess` | sys161/riscv/riscvcore.h:720-737 | After a failed fence no walk can start, and an access succeeds exactly if the cached page allows it |
| `RiscvFetch.Frontend.Trap` | sys161/riscv/riscvcore.h:21-99 | The recursion of trap and lookup terminates: the second trap stops the machine |
| `RiscvFetch.Frontend.TakeInterrupt` | sys161/riscv/riscvcore.h:4418-4454 | An interrupt is a trap with the interrupt bit of the cause set, taken before the fetch |
| `RiscvFetch.Frontend.SfenceVma` | sys161/riscv/riscvcore.h:720-737 | Maps the root table and empties the cache, or takes an access fault at the pc |
| `RiscvFetch.Frontend.PrecomputePc` | sys161/riscv/riscvcore.h:690-718 | Finds the page of the pc or traps |
| `RiscvFetch.Frontend.Fetch` | sys161/riscv/riscvcore.h:4534-4581 | Two or four bytes, the second half in the same word, the next word or the next page |
| `RiscvFetch.Frontend.NextPage` | sys161/riscv/riscvcore.h:4551-4566 | The excursion to the next page and back, with sepc put right if it traps |
| `RiscvFetch.Frontend.Finish` | sys161/riscv/riscvcore.h:4583-4594 | On to nextpc, by lookup at a page start and by offset elsewhere |
| `RiscvFetch.TrapLands` | sys161/riscv/riscvcore.h:21-99 | A trap lands on the vector with its page cached, unless it was there already or the vector cannot be fetched: exactly then the machine stops |
| `RiscvFetch.FetchAssembles` | sys161/riscv/riscvcore.h:4534-4581 | What is decoded is the halfword where the pc led when it was looked up and, for four bytes, the halfword where pc + 2 leads, then or, on the next page, now |
| `RiscvFetch.FetchLeavesReady` | sys161/riscv/riscvcore.h:4551-4581 | After the fetch the next instruction in sequence is in place; a fault on the second half reports the instruction's address as sepc |
| `RiscvFetch.SequentialFollows` | sys161/riscv/riscvcore.h:4583-4594 | After a sequential step pcoff is the offset of the pc, on the page of the last lookup or on one looked up now |
| `RiscvFetch.OnlyCachedPage` | sys161/riscv/riscvcore.h:240-280 | With no root table only the cached page translates, and nothing refills the cache |
| `RiscvFetch.ExecutedFollows` | sys161/riscv/riscvcore.h:4534-4594 | Every instruction stops the machine or goes on from where the pc led when it was last looked up |
| `RiscvFetch.ExecutedExact` | sys161/riscv/riscvcore.h:4534-4594 | And that is where it leads now if and only if the instruction looked it up, or switched to a translation that leads to the page, or it was right before and nothing was switched |
| `RiscvFetch.CycleExact` | sys161/riscv/riscvcore.h:4396-4594 | The same for every cycle, with or without an interrupt before the fetch |
| `RiscvFetch.CycleCoherent` | sys161/riscv/riscvcore.h:4396-4594 | So a cycle that begins with the right page ends with it, or with the machine stopped, unless an SATP write or fence puts the next instruction elsewhere |
| `RiscvFetch.RunFollows` | sys161/riscv/riscvcore.h:4396-4594 | Every run at all: instructions come from where the last lookup led, and whether that is right at the end is what the switches since decide |
| `RiscvFetch.RunFetchesRight` | sys161/riscv/riscvcore.h:4396-4594 | After every run the instruction decoded next, interrupt or not, is the one at the pc, by the translation of the last lookup |
| `RiscvFetch.StartsCoherent` | sys161/riscv/riscv.c:645-712 | The invariant holds out of reset |
| `RiscvEffects.FetchReadsMemory` | sys161/riscv/riscvcore.h:4534-4581 | The halves of the instruction are the halfwords of memory at the places found, two or four bytes by its low bits |
| `RiscvEffects.MemoryIsWhere` | sys161/riscv/riscvcore.h:635-661 | Instructions and page tables are read from RAM at 0xc0000000 or the boot ROM at 0xffc00000 and nowhere else |
| `RiscvEffects.LookupReports` | sys161/riscv/riscvcore.h:690-718 | Looking the pc up finds its page or reports code 12 for a page fault and 1 for an access fault, at that address |
| `RiscvEffects.InstructionDoes` | sys161/riscv/riscvcore.h:4396-4594 | Every instruction: jumps and returns reach their destination or report it, traps report the instruction, the mode and the value, and everything else goes on to the next; with the registers it writes |
| `RiscvEffects.InterruptDoes` | sys161/riscv/riscvcore.h:4418-4454 | An interrupt reports its number, before the instruction at the pc |
| `RiscvSwitch.SwitchThenFence` | sys161/riscv/riscv.c:573-584 | Between an SATP write and a fence on one page the code runs on there, rightly if and only if the old root table says so, and after the fence if and only if the new one does |
| `RiscvSwitch.NoRootYet` | sys161/riscv/riscv.c:573-584 | With no root table mapped, turning paging on leaves the machine running at a pc that leads nowhere |
| `RiscvSwitch.BootTurnsPagingOn` | sys161/riscv/riscv.c:645-712 | A run from reset: wrong after the SATP write, right after the fence |
| `RiscvFence.FailedFence` | sys161/riscv/riscvcore.h:720-737 | A failed fence traps; with paging on the machine survives exactly if the vector is on the cached page, executable and in memory, and then an address is reachable exactly if it is on that page and allowed |
| `RiscvFence.StuckOnPage` | sys161/riscv/riscvcore.h:240-280 | From there, until SATP is written, every instruction of every run comes from the cached page |
| `RiscvFence.FailureReached` | sys161/riscv/riscvcore.h:720-737 | A run from reset that ends in that state, still running in its right place, with the walk refusing every address |
| `GdbFrame.ChunksDoNotMatter` | sys161/gdb/gdb_fe.c:165-215 | The packets of a stream are those of a first piece and then of what it left with the rest |
| `GdbFrame.AnyPieces` | sys161/gdb/gdb_fe.c:125-218 | However a stream is cut, while what is left over does not fill the buffer the packets handed on are those of the whole |
| `GdbFrame.Connection.Read` | sys161/gdb/gdb_fe.c:142-163 | What is read is appended; an overfull buffer is emptied first |
| `GdbFrame.Connection.FindPacket` | sys161/gdb/gdb_fe.c:165-191 | The first complete packet, if there is one |
| `GdbFrame.Connection.Receive` | sys161/gdb/gdb_fe.c:165-215 | Every complete packet is handed on in order and the rest kept; it fails exactly on a packet as long as the buffer |
| `GdbFrame.Connection.Serve` | sys161/gdb/gdb_fe.c:125-218 | Reading and handing on, piece after piece: what the buffer gives, with its emptying when full; and with room the packets and the rest of the joined stream; stops exactly at a packet as long as the buffer |
| `GdbFrame.DebugSend` | sys161/gdb/gdb_be.c:97-124 | The loop computes the frame: payload between dollar and checksum |
| `GdbFrame.FrameExtracted` | sys161/gdb/gdb_fe.c:165-215 | A framed payload is cut out intact whatever follows it |
| `GdbFrame.GarbageSkipped` | sys161/gdb/gdb_fe.c:165-191 | What comes before the dollar is skipped, stray hashes included |
| `GdbFrame.FrameAccepted` | sys161/gdb/gdb_be.c:432-465 | It passes the checksum if and only if its sum leaves no negative remainder |
| `GdbFrame.SumOfParts` | sys161/gdb/gdb_be.c:97-124 | The checksum is the sum of the characters |
| `GdbFrame.DigitsDecide` | sys161/gdb/gdb_be.c:432-465 | A packet is accepted if and only if its two digits are the sum modulo 256 |
| `GdbFrame.OkReply` | sys161/gdb/gdb_be.c:97-124 | The reply OK is framed as $OK#9a |
| `GdbFrame.DeframingInvertsFraming` | sys161/gdb/gdb_be.c:97-124 | A stream of framed seven-bit payloads comes out as those payloads, all accepted, nothing left over |

## Left out

- Host input and output and the user interface: sockets, files, termios, select, tracing, message formatting, configuration, ELF loading, console, meter and disk tools.
- The progress deadline, the run and idle statistics other than the idle loop's credit, and overflow of 64-bit virtual time.
- Breakpoints, the debugger's restart of a processor, and the debugger's own accesses: they stop the run.
- Instruction decoding and register contents: in the fetch models the instruction of a cycle is an argument, tied to the word fetched only where RFE and instruction length are concerned; branch targets and data addresses are arbitrary.
- Self-modifying code and page tables changed under the RISC-V cache: code and tables are fixed during a run. Reads of page tables that reach device registers are reads without effect.
- The MIPS cache bits of STATUS, the interrupt masks as bits of STATUS and CAUSE, and the hi/lo counters that decide when an instruction stalls: an interrupt and a stall are inputs to the cycle.
- The RISC-V interrupt enables (an interrupt may come in any cycle) and SRET's effect on them, MXR (translation does not consult it), and the parts of the RISC-V core outside translation and fetch.
- Floating-point disk geometry and seek times: the sectors per track and the seek time are arguments.
- The contents of sectors, packets, emulated files and the start-up code given to secondary processors.
- hub161, profiling, the timer, random and trace devices, byte swapping and the boot ROM tables: small, and they would only add easy members.
- Machine.BusyIsOnePending: register stores, host input and events are steps of one run; keepalives, timers and the power-off event appear only as events of others in the same queue.
- LlSc.NoLostUpdate: takes runs in which a thread's SC finds a link that the thread itself made; LlSc.AtomicExactly says why, LlSc.HandlerLinkLosesUpdate that it is needed, and LinkLife.DisciplineIsLegal where it holds. The other reads and writes of a word access, sub-word stores among them, are plain stores here.
- LinkLife.DisciplineIsLegal: an address is the word it leads to, so one virtual address is not moved to another word between an LL and its SC; a kernel that switches threads without an exception, or uses LL in handlers, is outside it.
- SubWord.WordMemory.DoMem: translation is reduced to which words can be accessed, which for writing, and which are read-only.
- MipsPcCache.CachedFetchIsFullFetch: false of runs with a cycle that does not keep the space; MipsPcCache.RunExact says that those are all of them.
- Emufs.Device.PickHandle: needs a free handle or a match; with a full table and no match the code would write outside the table.
