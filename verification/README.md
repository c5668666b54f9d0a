# VMIPS: a verified model of its core

VMIPS simulates a MIPS R3000 machine. This project models the parts of it in which state, time and
bit manipulation meet, and proves what they promise:

- **The clock.** Tasks wait in a delta list, and callbacks add to it while it is being drained. The list
  (`DeltaList.dfy`, class `Clock` in `Clock.dfy`) refines a queue of absolute due times (`Agenda.dfy`);
  over every run each task fires exactly when it is due, once, in order (`ClockRuns.dfy`). Devices share
  it without noticing each other (`SharedClock.dfy`). Host time drives it without running ahead
  (`Timespec.dfy`, `Pacing.dfy`).
- **Physical memory.** Ranges, the mapper with its memoised lookup and two write-through caches, and
  devices behind word access (`Range.dfy`, `Mapper.dfy`, `DeviceMap.dfy`) against flat byte memory
  (`Memory.dfy`, `Caches.dfy`), for both byte orders of host and target (`Endian.dfy`).
- **The system control coprocessor.** Translation, refill, the mode stack and Random (`Tlb.dfy`, `Cp0.dfy`,
  `Refill.dfy`, `StatusStack.dfy`, `RandomRegister.dfy`, `Cp0Runs.dfy`, `Cp0Registers.dfy`, class `CPZero`
  in `CPZero.dfy`).
- **The processor.** Every instruction as an equation between the machine before and after it
  (`Execution.dfy`), a step (`Steps.dfy`), and class `CPU`, whose methods are proved to take that step
  (`Cpu.dfy`). Over steps and runs: precise exceptions and delay slots (`Precision.dfy`, `MachineSteps.dfy`,
  `MachineRuns.dfy`, `DelaySlot.dfy`), Random, the translation buffer and its refills (`BufferRuns.dfy`), and
  the same runs without caches (`CachelessRuns.dfy`).
  Arithmetic: `Multiply.dfy`, `Unaligned.dfy`, `Arithmetic.dfy`, `Division.dfy`, `Instructions.dfy`.
- **Devices on the clock.** The terminal controller (`Terminal*.dfy`), the clock device (`ClockDevice.dfy`),
  and interrupt lines (`Interrupts.dfy`).
- **The debugger's protocol.** Frames and run lengths (`RemoteGdb.dfy`), the register packet
  (`RegisterPacket.dfy`), and both through the processor's registers (`DebugRegisters.dfy`).

Data words are bit vectors; addresses and times are integers. An exception handler, a callback or a host
answer that the model does not contain is a parameter over which the theorems quantify.

## Model

| member | source | states |
|---|---|---|
| DeltaList.AddAtIsInsert | clock.cc:106-143 | splitting the list's distances puts a task last among those with its absolute due time, and moves no other |
| DeltaList.AddAtKeepsShape | clock.cc:117-142 | adding a positive delay keeps every distance behind the front positive |
| Clocks.Clock.AddDeferredTask | clock.cc:106-143 | the list, changed in place, is the inserted one, whether or not the front group is overdue |
| Clocks.Clock.IncrementTime | clock.cc:48-71 | time and the queue afterwards are those of the absolute queue advanced by the increment; terminates however callbacks re-arm |
| Clocks.Clock.RunTasks | clock.cc:176-186 | while the front group's callbacks run and add tasks, these go behind the group and do not run with it |
| ClockRuns.AdvanceRunsExactlyTheDue | clock.cc:48-71 | one advance runs exactly the tasks due by the new time, in order, and none that its callbacks add |
| ClockRuns.RunIsGood | clock.cc:48-143 | any run keeps the queue in due order, first come first served, and neither loses nor repeats a task |
| ClockRuns.FiredExactlyWhenDue | clock.cc:48-186 | from the start, a task has fired if and only if its due time has come; firing order is due order, then request order; each request fires once |
| SharedClock.AfterOwn | clock.cc:48-71 | what one device sees of an increment of a clock shared with others, of which it knows nothing but that they leave its state alone, is the increment of a clock of its own |
| Timespecs.TimespecAdd | clock.h:132-141 | the sum is exact, and normal if both operands are |
| Timespecs.TimespecSub | clock.h:145-153 | the difference is exact, and normal if both operands are |
| Pacing.PaceOfOneCall | clock.cc:88-101 | one call lets no more through than the host time passed, keeps a spill below the ratio, and loses less than the ratio for each whole second and one more |
| Pacing.ExactWhenNothingToDrop | clock.cc:88-101 | a call loses nothing if and only if the second and the rest leave no remainder |
| Pacing.PaceOfRun | clock.cc:73-104 | the same bounds over any run of calls |
| Pacing.ClockKeepsPace | clock.cc:48-104 | over any run of calls, with any tasks run, the ratio times the clock's own progress plus the spill never exceeds the host time, and lags it by at most the losses |
| Clocks.Clock.PassRealtime | clock.cc:73-104 | the clock and the spill after a call are those of the increments counted for it, and the visible time has grown by their sum |
| Memory.LoadAfterStore | mapper.cc:538-642 | flat memory: a load finds what was stored, cut to its width |
| Ranges.IncorporatesIsHas | range.cc:26-30 | the address check is right for every address if and only if the range does not wrap around (or is empty) |
| Ranges.OverlapsIsSharing | range.cc:33-57 | non-empty ranges that do not wrap overlap if and only if they share an address |
| Ranges.OverlapsIsRightExactly | range.cc:33-57 | the overlap check of a non-empty range, aligned or not, is right against every non-empty range that does not wrap if and only if that range does not wrap itself |
| Ranges.Range.StoreWord | range.cc:78-85 | the bytes at the word's offset become the word in host order, and no others change |
| Mappers.Mapper.AddRange | mapper.cc:74-99 | refuses exactly the ranges that overlap one that is mapped, and otherwise maps the range and its bytes |
| Mappers.AddedRegionAgrees | mapper.cc:74-99 | adding a range leaves right what the caches hold |
| Mappers.Mapper.FindMappingRange | mapper.cc:101-116 | the unique range that has the address, or none, whatever was looked up before |
| Mappers.Mapper.Fetch | mapper.cc:398-536 | what a fetch of any width returns and leaves in the caches, free of host byte order |
| Mappers.Mapper.Store | mapper.cc:538-642 | the same for a store |
| Mappers.Mapper.CacheDoFill | mapper.cc:366-395 | the line afterwards holds the word of memory, and the piece asked for is returned |
| Mappers.Mapper.CacheWrite | mapper.cc:320-362 | write-through: line and memory afterwards, isolated or not |
| Mappers.EntryPieceIsPart | mapper.cc:266-287 | the piece of a line that byte swapping and shifting select is the piece at that address in target order |
| Mappers.EntryWithIsWithPart | mapper.cc:290-310 | the same for a piece set into a line |
| Caches.FetchAgrees | mapper.cc:230-263 | when its cache agrees with memory, a load or fetch returns what flat memory holds and the cache goes on agreeing |
| Caches.CachedStoreAgrees | mapper.cc:320-362 | a store through the cache acts on flat memory as a plain store and keeps agreement |
| Caches.UncachedStoreAgrees | mapper.cc:538-573 | a store around the cache keeps agreement if and only if the cache does not hold the word or memory holds the value already |
| Caches.CachesAreInvisible | mapper.cc:230-377 | over any interleaving of accesses to caches that are not isolated, in which stores around the data cache go to words that it does not hold, data loads, stores and memory are those of flat memory |
| Caches.CodeIsFlat | mapper.cc:398-453 | if moreover no store goes to a word that the instruction cache holds, every instruction fetch after any run returns what flat memory holds |
| CachelessRuns.RunIsFlat | mapper.cc:230-642 | the processor over every run with the caches in use, swapped at will, whose stores go around the data cache only to words that it does not hold, and to no word that the instruction cache holds: registers, HI, LO, control, coprocessor and memory are, step by step, those of a processor that makes every access to flat memory |
| CachelessRuns.FlatRunIsRun | mapper.cc:230-642 | and every run of that processor is one with caches, up to the first step that breaks these rules |
| Caches.FaultyStore | mapper.cc:538-642 | a store that faults changes nothing |
| DeviceMaps.DeviceReadsHalvesLikeMemory | devicemap.cc:33-50 | a halfword read from a device is that of memory holding the device's word, in either order |
| DeviceMaps.DeviceReadsBytesLikeMemory | devicemap.cc:52-70 | the same for a byte |
| DeviceMaps.DeviceIsSentThePiece | devicemap.cc:72-109 | the word a device is sent has the piece where memory would, and zero around it |
| DeviceMaps.DeviceStoresLikeMemory | devicemap.cc:91-109 | so it acts as memory for a byte if and only if the rest of the word was zero |
| DeviceMaps.DeviceMap.StoreHalfword | devicemap.cc:72-89 | the device is sent that word, once |
| Tlb.LookUpAfterWrite | cpzero.cc:165-192 | after a failed lookup, writing a serving entry makes it succeed if and only if no earlier entry matches |
| Tlb.TheOneMatch | cpzero.cc:165-172 | in a buffer where no page is matched twice the first match is the only one |
| Tlb.WriteKeepsUnique | cpzero.cc:265-282 | an entry written where nothing matches keeps that so if and only if, when global, no other entry has its page |
| Tlb.ClashMeansBothMatch | tlbentry.h:45-51 | two entries clash if and only if some page in some address space matches both |
| Refill.RefillVectorExactly | cpzero.cc:174-207 | the user miss flag is set if and only if the address is in the user segment and no entry matches |
| Refill.FaultNamesThePage | cpzero.cc:157-163 | EntryHi, BadVAddr and Context after a fault, and nothing else changed |
| Refill.ContextHoldsThePage | cpzero.cc:157-163 | Context holds the page number above two zero bits |
| Refill.RetryAfterRefill | cpzero.cc:174-282 | after any fault of the buffer in the user segment, writing a serving entry with the EntryHi left behind makes the retry map to its frame and offset, unless an earlier entry matches: then the fault comes back |
| Refill.MissIsCareful | cpzero.cc:265-282 | a handler's write after a fault without a match falls where nothing matches, if and only if, when global, no entry has the page |
| Refill.ProbeFindsTheOne | cpzero.cc:284-294 | `tlbp` selects the one entry that matches |
| Refill.ProbeFindsNone | cpzero.cc:284-294 | and has the top bit set if and only if none does |
| StatusStack.EnterPushes | cpzero.cc:354-361 | an exception pushes kernel mode with interrupts off onto the three modes in Status |
| StatusStack.RfePops | cpzero.cc:296-300 | `rfe` pops them |
| StatusStack.NestingByDepth | cpzero.cc:296-361 | the effect of a well-nested sequence of entries and returns depends on its depth alone |
| StatusStack.RestoredByDepth | cpzero.cc:296-361 | the current mode comes back if and only if the depth is at most two, the previous one at most one, or nothing shows |
| StatusStack.StatusFollows | cpzero.cc:296-361 | the Status register itself follows that stack |
| RandomRegister.ClosedForm | cpzero.cc:327-340 | after k steps Random is 8 + ((r - 8 - k) mod 56), and within 8 to 63 |
| RandomRegister.VisitsEverySlot | cpzero.cc:327-340 | every slot comes up within 56 steps |
| RandomRegister.VisitsOnce | cpzero.cc:327-340 | and once |
| Cp0Runs.RandomOverRuns | cpzero.cc:220-340 | over any run of coprocessor operations Random counts clock cycles alone, and entries below 8 change only by indexed writes |
| Cp0Runs.UniqueOverRuns | cpzero.cc:265-294 | any run of operations whose buffer writes fall where nothing matches keeps pages unique |
| Cp0Registers.WriteThenRead | cpzero.cc:209-229 | `mfc0` after `mtc0` finds the writable bits written and the others as before |
| Cp0Registers.CauseTellsTheCode | cpzero.cc:354-373 | the handler finds the exception code in Cause |
| Cp0Registers.DebugTranslatesAsLoad | cpzero.cc:436-466 | the debugger's translation is that of a load |
| CPZeros.CPZero.AddressTrans | cpzero.cc:127-155 | the coprocessor in its arrays translates as its value does |
| CPZeros.CPZero.TlbTranslate | cpzero.cc:174-207 | the same for the buffer, with its loop over the entries |
| CPZeros.CPZero.TlbWrite | cpzero.cc:265-270 | the entry's two words mean the entry that EntryHi and EntryLo say |
| CPZeros.CPZero.TlbrEmulate | cpzero.cc:256-263 | the registers afterwards are the entry's |
| CPZeros.CPZero.EnterException | cpzero.cc:354-373 | the registers after an exception |
| Multiply.Mult64 | cpu.cc:1254-1291 | the two words computed from 16-bit limbs in wrapping 32-bit arithmetic are the exact product |
| Multiply.Mult64s | cpu.cc:1293-1328 | the same with signs, for every operand including the most negative |
| Multiply.WordsOfProduct | cpu.cc:1257-1299 | so they are the words of the native 64-bit product, signed or unsigned |
| Unaligned.StorePair | cpu.cc:900-1031 | `swl` and `swr`, in either order of execution and byte order, write exactly the four bytes from any address |
| Unaligned.LoadPair | cpu.cc:647-844 | `lwl` and `lwr` gather exactly those bytes, whatever the register held |
| Unaligned.UnalignedRoundTrip | cpu.cc:647-1031 | so the register stored is the register loaded |
| Arithmetic.SrlBits | cpu.cc:1130-1140 | a logical shift right, bit by bit, whichever way the host shifts |
| Arithmetic.SraBits | cpu.cc:1142-1150 | the same for the arithmetic shift |
| Arithmetic.AddOverflowExactly | cpu.cc:1356-1369 | the sign check of `add` finds exactly the sums that do not fit |
| Arithmetic.SubOverflowExactly | cpu.cc:1381-1394 | and that of `sub` the differences |
| Division.DivisionIsC | cpu.cc:1340-1354 | quotient and rest are the only ones that C's rules for division allow |
| DelaySlot.StepSimulates | cpu.cc:1846-1922 | a step keeps the simulation of the architecture's two program counters if and only if it takes no branch in a delay slot |
| DelaySlot.RunSimulates | cpu.cc:1846-1922 | so does every run without one, with the restart address of each exception |
| Cpus.CPU.Exception | cpu.cc:257-351 | the machine after an exception, unless one of this instruction outranks it |
| Cpus.CPU.LoadEmulate | cpu.cc:581-816 | `lb`, `lbu`, `lh`, `lhu` and `lw` |
| Cpus.CPU.LoadPartEmulate | cpu.cc:706-844 | `lwl` and `lwr` through translation and caches |
| Cpus.CPU.StoreEmulate | cpu.cc:846-1000 | `sb`, `sh` and `sw` |
| Cpus.CPU.StorePartEmulate | cpu.cc:942-1031 | `swl` and `swr`: read, merge and write back |
| Cpus.CPU.MultiplyEmulate | cpu.cc:1244-1252 | HI and LO hold the product |
| Cpus.CPU.CpzeroEmulate | cpu.cc:354-366 | the coprocessor's instructions, and the control bits of the caches after them |
| Cpus.CPU.Emulate | cpu.cc:1810-1832 | each instruction word does what its group is specified to do |
| Cpus.CPU.Step | cpu.cc:1807-1923 | one step: Random, restart address, fetch, interrupt, instruction, register zero, next program counter |
| MachineSteps.StepTraps | cpu.cc:257-351 | a step that ends with an exception pending has entered it once, from a coprocessor state in which it arises; the whole machine afterwards is given |
| MachineRuns.StepIsPrecise | cpu.cc:1807-1923 | of every step: at most one exception, exactly when one is pending at the end; registers, HI, LO and memory are then as before; Status is pushed, the vector and the restart record are right; otherwise control goes on as the delay slot machine says |
| MachineRuns.RefillVectorOfStep | cpu.cc:311-329 | a step goes to the refill vector if and only if Cause has a miss code, BadVAddr is in the user segment and no entry matches it |
| MachineRuns.TrapEntersKernel | cpzero.cc:354-361 | a step that traps lands in kernel mode with interrupts off, the modes pushed |
| MachineRuns.RunFollowsArchitecture | cpu.cc:1807-1923 | every run of the processor that takes no branch in a delay slot follows the two program counters of an architecture in which taken branches have a delay slot, and its handlers find the restart address and slot mark that go with them |
| MachineRuns.RunFromReset | cpu.cc:84-95 | in particular from a reset, starting at the reset address |
| Cpus.CPU.Reset | cpu.cc:84-95 | the machine after a reset: register zero, the program counter and the coprocessor; the delay state is not touched |
| BufferRuns.RandomOverRuns | cpzero.cc:327-340 | over every run of the processor Random counts its steps and entries below 8 change only by `tlbwi` |
| BufferRuns.RandomFromReset | cpzero.cc:58-77 | from a reset, after k steps Random is 8 + ((55 - k) mod 56), and the entries below 8 are as before unless a `tlbwi` changed them |
| BufferRuns.UniqueOverRuns | cpzero.cc:265-294 | every run of the processor whose buffer writes fall where nothing matches keeps pages unique |
| BufferRuns.HandlerFindsTheFault | cpzero.cc:157-207 | after a step with a fault of the buffer, BadVAddr is the address of the access that this step made: the program counter if the fetch faulted, else the effective address of its instruction, cut to the word for left and right loads and stores; and EntryHi has its page |
| BufferRuns.RefillIsCareful | cpzero.cc:265-282 | the write of a handler that has kept that page falls where nothing matches, if and only if, when global, no entry has the page |
| BufferRuns.RefillOverRuns | cpzero.cc:157-282 | miss, refill, retry over any run: after the handler's one write, any time later in the old address space, the access that the faulting step made is translated by that entry (or an earlier match faults as before) |
| BufferRuns.RetrySucceeds | cpzero.cc:157-282 | so, when that entry serves the access, the instruction executed again does not fault in the buffer |
| TerminalControllers.TerminalController.ConnectTerminal | terminalcontroller.cc:74-115 | the controller in its arrays connects as its value does |
| TerminalControllers.TerminalController.RemoveTerminal | terminalcontroller.cc:117-159 | disconnects, cancels both tasks and recomputes the largest descriptor |
| TerminalControllers.TerminalController.PollKeyboards | terminalcontroller.cc:237-267 | polls, with its loop over the lines |
| TerminalControllers.TerminalController.RunTask | task.h:37-56 | a cancelled task does nothing |
| TerminalInvariant.RunKeeps | terminalcontroller.cc:174-267 | running any task keeps the relation between lines and pending tasks |
| TerminalInvariant.FailsExactly | terminalcontroller.cc:117-210 | when that relation holds, an internal assertion of an operation fails if and only if its caller breaks its rule |
| TerminalRuns.LinesFollowTheirTasks | terminalcontroller.cc:74-267 | over every run, on a clock shared with any other devices: no assertion fails; a connected line's keyboard is ready if and only if it has a live repoll task, and if and only if its descriptor is not awaited; its display is unready if and only if it has a live delay task; exactly one poll is live |
| ClockDevices.TickOnce | clockdev.cc:26-58 | one increment of a clock shared with any other devices fires the trigger exactly if it is due, once, and re-arms it a period later |
| ClockDevices.RunsAreGood | clockdev.cc:26-130 | over every run, on a clock shared with any other devices, one trigger of this device is pending and due within a period; firings are at least a period, and less than a period and the largest increment, apart; the line asserted implies ready, and ready with interrupts enabled implies asserted |
| ClockDevices.BeginningIsGood | clockdev.cc:26-39 | a new device on a connected line, joining a clock in use, is in such a state |
| ClockDevices.ClockDevice.StoreControl | clockdev.cc:126-130 | enabling interrupts while ready asserts the line |
| Interrupts.SeenIffAsserted | intctrl.cc:25-32 | a line is seen if and only if some device asserts it |
| Interrupts.IntCtrl.CalculateIP | intctrl.cc:25-32 | the loop computes that for every line |
| Interrupts.IntCtrl.ConnectLine | intctrl.cc:34-46 | a device is listed once, however many lines it has |
| Interrupts.DeviceInt.AssertInt | deviceint.cc:110-118 | asserts a line that is connected, and only that |
| Interrupts.DeviceInt.DeassertInt | deviceint.cc:125-133 | the same for deasserting |
| RemoteGdb.PutPkt | remotegdb.cc:400-427 | the frame of a payload, refused if and only if it does not fit |
| RemoteGdb.ReadFrame | remotegdb.cc:521-601 | the loop is the reader that the theorems are about |
| RemoteGdb.FrameRoundTrip | remotegdb.cc:400-601 | what is sent is what is read |
| RemoteGdb.FramesAreAccepted | remotegdb.cc:521-601 | every frame of literals and runs that fit is accepted, as its expansion |
| RemoteGdb.AcceptedIsFrame | remotegdb.cc:521-601 | whatever is accepted is, cut to seven bits, such a frame, with its sum |
| RemoteGdb.OneWrongCharacter | remotegdb.cc:545-562 | a frame in which one character was changed is rejected |
| RegisterPacket.WordsComeBack | cpu.cc:2071-2080 | popping word k of a packet gives word k of what was pushed, in either byte order |
| RegisterPacket.PacketPopWord | debug.cc:160-179 | the word at the pointer, which moves on by eight characters |
| DebugRegisters.DebugRegistersToPacket | cpu.cc:1987-2023 | the packet of all registers in the debugger's order |
| DebugRegisters.DebugPacketToRegisters | cpu.cc:2027-2042 | every register takes the word of the packet, and the coprocessor's others stay |
| DebugRegisters.DumpRestores | cpu.cc:1987-2042 | a dump written back restores every register |
| DebugRegisters.DumpIsFramed | cpu.cc:1987-2042 | a dump, and the command to write it, go through a frame unchanged |

## Findings

Where the code does not do what it is meant to, the model keeps the code, and these members give the input
and the exact condition.

| instance | source | what goes wrong, and exactly when |
|---|---|---|
| Ranges.WrappedOverlapUnseen | range.cc:33-57 | a range that wraps around shares an address unnoticed, and another that shares none is reported (`Ranges.FalseAlarm`); never otherwise (`Ranges.OverlapsIsRightExactly`) |
| Caches.StaleLoadHappens | mapper.cc:538-573 | a store around the cache leaves a stale line; exactly when the cache holds the word and the value is new (`Caches.UncachedStoreAgrees`, `Caches.StaleLoad`) |
| Cp0Registers.RequestIsGone | cpzero.cc:354-373 | every exception drops the software interrupt requests in Cause; they survive if and only if there are none (`Cp0Registers.SoftwareInterruptsSurvive`) |
| DelaySlot.TargetIsDropped | cpu.cc:1846-1922 | a branch taken in a delay slot drops the first target; the flow is wrong unless that branch went to the word after its slot, and the restart record always is (`DelaySlot.TakenInSlotDropsTarget`) |
| MachineRuns.ResetStarts | cpu.cc:84-95 | a reset leaves the delay state, so the processor follows the architecture from the reset address if and only if it was not in a delay slot |
| Pacing.NanosecondIsDropped | clock.cc:88-101 | remainders of host time are dropped, unless there are none (`Pacing.ExactWhenNothingToDrop`) |
| DeviceMaps.NeighboursAreCleared | devicemap.cc:91-109 | a byte stored to a device clears the rest of its word, unless that was zero (`DeviceMaps.DeviceStoresLikeMemory`) |
| StatusStack.UserModeIsLost | cpzero.cc:296-361 | nesting deeper than two loses modes (`StatusStack.RestoredByDepth`) |

## Left out

- Clock: `long` is unbounded; the first read of the front group is guarded by the emptiness check (clock.cc:58-59 reads it first); a callback is a function of the world that returns its requests, and the loop over a group's tasks is the clock's. Due times are measured by a ghost elapsed time, because set_time rewrites the visible one without touching the list.
- Clocks.Clock.PassRealtime: host readings are parameters; a ratio above a second together with a whole second passed is excluded, because the source's own increment would then be zero and its assertion fails.
- Mappers.Mapper.AddRange: the ranges are RAM and ROM: word-aligned, not wrapping around, and writable only if readable. Devices behind the mapper are modelled on their own (`DeviceMaps`); setPerms, map_at_physical_address and the record of bus errors (mapper.cc:190-212) are left out.
- Mappers.Mapper.Fetch: the three fetch methods are one with a width, and so are the stores.
- Caches.CachesAreInvisible: data accesses are not isolated and the swap bit is fixed; isolated accesses are specified (`Mappers.Mapper.CacheWrite`) as the code has them, where a full-word store sets neither the valid bit nor the tag, against the comment at mapper.cc:312-313.
- CPZeros.CPZero.Reset: the contents of the buffer before it is written are unspecified.
- Cpus.CPU.Step: the interrupt controller's lines are an input of each step; tracing, dumps, messages and the options that halt the machine are left out.
- Cpus.CPU.Exception: the ranking is modelled as the code has it, with the TLBS code equal to the wildcard and the last rank not refreshed when the restart address changes; no order of exceptions is proved, since a step enters at most one.
- Cpus.CPU.DivideEmulate: for a zero divisor, and for the most negative number by -1, HI and LO are arbitrary, as the host decides.
- Cpus.CPU.JumpRegisterEmulate: follows the code, which compares the register that rd names with zero (cpu.cc:1185).
- Cpus.CPU.CpOneEmulate: no floating-point unit; coprocessors 1 to 3 only report that they are unusable.
- Multiply.Mult64: products of two 16-bit values are taken as unsigned 32-bit values; C computes them as signed, where the largest overflow.
- MachineRuns.RunFollowsArchitecture: excludes branches taken in delay slots, for which `DelaySlot.TakenInSlotDropsTarget` says what happens. The word after a branch that is not taken counts as an ordinary one, as in the code; an R3000 would mark an exception there as one in a delay slot.
- CachelessRuns.RunIsFlat: steps with the caches isolated are excluded, since the program then asks to see the cache instead of memory (`Mappers.Mapper.CacheWrite`).
- ClockDevices.RunsAreGood: tasks of other devices on the same clock may look at this device but do not change it; the same holds for `TerminalRuns.LinesFollowTheirTasks`.
- TerminalControllers.TerminalController.ConnectTerminal: whether the terminal could be prepared is an input, descriptors are not shared between lines, and writing always succeeds; descriptors that are ready and characters read are inputs of each poll. The attention character is not delivered; the debugger's attention that it calls for is left out.
- ClockDevices.ClockDevice.StoreControl: the words that read and set the real time, and the value of the control word when read, are left out.
- RemoteGdb.ReadFrame: a run as the first character of a frame has no character to repeat; the model reports it as undefined, where the program reads outside its buffer.
- RegisterPacket.PacketPopWord: eight hexadecimal digits are required; what strtoul makes of other characters is left out. The breakpoint instruction check, memory packets, acknowledgements and timeouts are left out.
- Sockets, files, signals, terminal attributes, options, the executable loader, the SPIM console, the DEC devices, the halt device and the disassembler: input and output, or members without an invariant of interest.
