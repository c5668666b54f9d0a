/** The processor over all its runs: precise exceptions and their handlers, the Random
    register, and the translation buffer. */
module MachineRuns {
  import opened Exceptions
  import Caches
  import opened Tlb
  import opened Cp0
  import opened Refill
  import opened DelaySlot
  import opened StatusStack
  import opened Execution
  import opened Steps
  import opened Precision
  import opened MachineSteps

  lemma ArisesKeeps(c: Cp0.State, at: Access, code: Code, d: Cp0.State)
    requires c.Valid() && d.Valid() && Arises(c, at, code, d)
    ensures d.tlb == c.tlb && d.reg[STATUS] == c.reg[STATUS] && d.reg[RANDOM] == c.reg[RANDOM] && d.Asid() == c.Asid()
    ensures IsBuffer(code) ==> d.reg[BAD_VADDR] == at.va
  {
    hide AddressTrans, SpaceOf, Page, WithBadVpn;
    if IsBuffer(code) {
      FaultNamesThePage(c, at.va, at.mode);
    }
  }

  // No entry of the buffer matches an address of the user segment.
  ghost predicate UserMiss(c: Cp0.State, va: bv32)
    requires c.Valid()
  {
    UserAddress(va) && FindMatching(c.tlb, Page(va), c.Asid()) < 0
  }

  lemma MissUserExactly(c: Cp0.State, at: Access, code: Code, d: Cp0.State)
    requires c.Valid() && d.Valid() && Arises(c, at, code, d) && IsMiss(code)
    ensures d.missUser <==> UserMiss(c, d.reg[BAD_VADDR])
  {
    hide AddressTrans, SpaceOf, Page, UserAddress, FindMatching, Arises;
    ArisesKeeps(c, at, code, d);
    MissRaised(c, at, code, d);
  }

  lemma MissRaised(c: Cp0.State, at: Access, code: Code, d: Cp0.State)
    requires c.Valid() && Arises(c, at, code, d) && IsMiss(code)
    ensures d.missUser <==> UserMiss(c, at.va)
  {
    hide AddressTrans, SpaceOf, Page, UserAddress, FindMatching;
    RefillVectorExactly(c, at.va, at.mode);
  }

  lemma MissNumbers(code: Code)
    ensures IsMiss(code)
       <==> Exceptions.Number(code) == Exceptions.Number(TLBL) || Exceptions.Number(code) == Exceptions.Number(TLBS)
  {
  }

  predicate MissCodeIn(cause: bv32) {
    CodeField(cause) == Exceptions.Number(TLBL) || CodeField(cause) == Exceptions.Number(TLBS)
  }

  // What a program can tell after a step that trapped.
  ghost predicate TrapPrecise(was: Machine, now: Machine)
    requires was.Valid() && now.Valid()
  {
    && now.entries == was.entries + 1 && now.reg == was.reg && now.hi == was.hi && now.lo == was.lo
    && now.mem.space == was.mem.space
    && now.Control() == DelaySlot.Next(was.Control(), Trap(now.pc))
    && Record(now.cp0.reg[EPC], SlotBit(now.cp0.reg[CAUSE])) == Recorded(was.Control())
    && now.cp0.reg[STATUS] == PushModes(was.cp0.reg[STATUS])
    && now.pc == Vector(now.cp0.reg[STATUS],
                        MissCodeIn(now.cp0.reg[CAUSE]) && UserMiss(was.cp0, now.cp0.reg[BAD_VADDR]))
    && now.cp0.tlb == was.cp0.tlb && now.cp0.reg[RANDOM] == NextRandomWord(was.cp0.reg[RANDOM])
  }

  lemma EnteredKeeps(d: Cp0.State, pc: bv32, code: Code, ce: bv32, slot: bool, lines: bv32)
    requires d.Valid()
    ensures var e := Cp0.EnterException(d, pc, code, ce, slot, lines);
            && e.Valid() && e.tlb == d.tlb && e.missUser == d.missUser && e.reg[STATUS] == PushModes(d.reg[STATUS])
            && (forall r :: 0 <= r < REGISTERS && r != EPC && r != STATUS && r != CAUSE ==> e.reg[r] == d.reg[r])
  {
    hide PushModes, CauseOf;
  }

  lemma BegunKeeps(c: Cp0.State)
    requires c.Valid()
    ensures var b := Cp0.AdjustRandom(c);
            && b.Valid() && b.tlb == c.tlb && b.missUser == c.missUser && b.reg[RANDOM] == NextRandomWord(c.reg[RANDOM])
            && (forall r :: 0 <= r < REGISTERS && r != RANDOM ==> b.reg[r] == c.reg[r])
  {
    hide NextRandomWord;
  }

  lemma TrapIsPrecise(was: Machine, lines: bv32, now: Machine)
    requires Resting(was) && LinesOk(lines) && Stepped(was, lines, now) && now.pending && now.Valid()
    ensures Resting(now) && TrapPrecise(was, now)
  {
    hide Stepped, Arises, AccessBy, Cp0.EnterException, Cp0.AdjustRandom, Vector, SlotBit, CodeField, LinesOk,
         PushModes, FindMatching, Page, SpaceOf, UserAddress, NextRandomWord, Caches.State.Valid, Exceptions.Number,
         Issues;
    var code, ce, d := StepTraps(was, lines, now);
    var b := Cp0.AdjustRandom(was.cp0);
    BegunKeeps(was.cp0);
    ArisesKeeps(b, AccessBy(Begun(was, lines)), code, d);
    EnteredKeeps(d, Epc(was.Control()), code, ce, was.phase == DelaySlot, lines);
    EnteredRegisters(d, Epc(was.Control()), code, ce, was.phase == DelaySlot, lines);
    MissNumbers(code);
    if IsMiss(code) {
      MissUserExactly(b, AccessBy(Begun(was, lines)), code, d);
    }
  }

  lemma SteppedIsValid(was: Machine, lines: bv32, now: Machine)
    requires was.Valid() && LinesOk(lines) && Stepped(was, lines, now)
    ensures now.Valid()
  {
    hide Turned, Begun, LinesOk, Plus4, Cp0.State.Valid, Caches.State.Valid;
  }

  // Of each step: at most one exception is entered, exactly when one is pending at the end,
  // and such a step leaves the registers and memory alone, enters the kernel with interrupts
  // off, and goes to the refill vector exactly for a miss of the user segment. Control flows as
  // in the delay slot machine, which also says what the exception records.
  lemma StepIsPrecise(was: Machine, lines: bv32, now: Machine)
    requires Resting(was) && LinesOk(lines) && Stepped(was, lines, now)
    ensures Resting(now)
    ensures if now.pending then TrapPrecise(was, now) else now.entries == was.entries
    ensures now.Control() == DelaySlot.Next(was.Control(), EventOf(now))
  {
    hide Stepped, Readied, Issues, Passed, Operated, LinesOk, Cp0.State.Valid, Caches.State.Valid;
    SteppedIsValid(was, lines, now);
    if now.pending {
      TrapIsPrecise(was, lines, now);
    } else {
      StepGoes(was, lines, now);
    }
  }

  lemma TrapEntersKernel(was: Machine, now: Machine)
    requires was.Valid() && now.Valid() && TrapPrecise(was, now)
    ensures StackOf(now.cp0.reg[STATUS]) == Push(StackOf(was.cp0.reg[STATUS]), KERNEL)
    ensures KernelMode(now.cp0.reg[STATUS]) && !InterruptsEnabled(now.cp0.reg[STATUS])
  {
    hide PushModes, StackOf, SlotBit, Vector;
    EnterPushes(was.cp0.reg[STATUS]);
    EntersKernel(was.cp0.reg[STATUS]);
  }

  lemma VectorsDiffer(status: bv32)
    ensures Vector(status, true) != Vector(status, false)
  {
  }

  // The refill vector is used exactly for misses of the user segment that no entry matches.
  lemma RefillVectorOfStep(was: Machine, lines: bv32, now: Machine)
    requires Resting(was) && LinesOk(lines) && Stepped(was, lines, now) && now.pending
    ensures now.Valid()
    ensures now.pc == Vector(now.cp0.reg[STATUS], true)
       <==> MissCodeIn(now.cp0.reg[CAUSE]) && UserMiss(was.cp0, now.cp0.reg[BAD_VADDR])
  {
    hide Stepped, LinesOk, Vector, MissCodeIn, UserMiss, PushModes, SlotBit, NextRandomWord, Caches.State.Valid;
    StepIsPrecise(was, lines, now);
    VectorsDiffer(now.cp0.reg[STATUS]);
  }

  // A run of the processor, with what the controller asserts before each step.
  ghost predicate Runs(ms: seq<Machine>, lines: seq<bv32>)
    decreases |lines|
  {
    |ms| == |lines| + 1 && ms[0].Valid()
    && (lines == [] || (LinesOk(lines[0]) && Stepped(ms[0], lines[0], ms[1]) && Runs(ms[1..], lines[1..])))
  }

  function Events(ms: seq<Machine>): seq<Event>
    requires ms != []
  {
    if |ms| == 1 then [] else [EventOf(ms[1])] + Events(ms[1..])
  }

  // What the handler of a step finds, if it trapped.
  ghost function FoundAt(m: Machine): seq<Record>
    requires m.Valid()
  {
    if m.pending then [Record(m.cp0.reg[EPC], SlotBit(m.cp0.reg[CAUSE]))] else []
  }

  ghost function Found(ms: seq<Machine>, lines: seq<bv32>): seq<Record>
    requires Runs(ms, lines)
    decreases |lines|
  {
    if lines == [] then []
    else
      SteppedIsValid(ms[0], lines[0], ms[1]);
      FoundAt(ms[1]) + Found(ms[1..], lines[1..])
  }

  lemma FoundIsRecorded(was: Machine, lines: bv32, now: Machine)
    requires Resting(was) && now.Valid() && LinesOk(lines) && Stepped(was, lines, now)
    ensures FoundAt(now) == if EventOf(now).Trap? then [Recorded(was.Control())] else []
  {
    hide SlotBit, LinesOk, Stepped, Cp0.State.Valid, Caches.State.Valid, MissCodeIn, UserMiss, Vector, PushModes,
         NextRandomWord;
    StepIsPrecise(was, lines, now);
  }

  // Every run that takes no branch in a delay slot follows the architecture's two program
  // counters, and its handlers find what the architecture says.
  lemma {:induction false} RunFollowsArchitecture(ms: seq<Machine>, lines: seq<bv32>, a: Arch)
    requires Runs(ms, lines) && Resting(ms[0])
    requires Simulates(ms[0].Control(), a) && NeverTakenInSlot(ms[0].Control(), Events(ms))
    ensures Simulates(ms[|ms| - 1].Control(), ArchRun(a, Events(ms)))
    ensures Found(ms, lines) == ArchRecords(a, Events(ms))
    decreases |lines|
  {
    if lines != [] {
      hide SlotBit, LinesOk, Stepped, Simulates, FoundAt, Recorded, ArchRecorded, EventOf, DelaySlot.Next, ArchNext,
           TakenInSlot, Machine.Valid, Machine.Control, Resting, TrapPrecise;
      var c, e := ms[0].Control(), EventOf(ms[1]);
      SteppedIsValid(ms[0], lines[0], ms[1]);
      StepIsPrecise(ms[0], lines[0], ms[1]);
      FoundIsRecorded(ms[0], lines[0], ms[1]);
      StepSimulates(c, a, e);
      RunFollowsArchitecture(ms[1..], lines[1..], ArchNext(a, e));
      assert Events(ms) == [e] + Events(ms[1..]);
      assert Events(ms)[1..] == Events(ms[1..]);
    }
  }

  lemma ResetModes(c: Cp0.State)
    requires c.Valid()
    ensures Cp0.Reset(c).Valid() && KernelMode(Cp0.Reset(c).reg[STATUS]) && !InterruptsEnabled(Cp0.Reset(c).reg[STATUS])
  {
  }

  // A reset between two steps starts the processor in kernel mode with interrupts off; it follows
  // the architecture from the reset address exactly unless it interrupted a branch, whose delay
  // slot is then still to come.
  lemma ResetStarts(m: Machine)
    requires m.Valid() && m.phase != Delaying
    ensures var r := WasReset(m);
            && Resting(r) && KernelMode(r.cp0.reg[STATUS]) && !InterruptsEnabled(r.cp0.reg[STATUS])
            && (Simulates(r.Control(), Arch(0xbfc0_0000, 0xbfc0_0004, NoBranch)) <==> m.phase == Normal)
  {
    hide LinesOk, Caches.State.Valid, Cp0.Reset, KernelMode, InterruptsEnabled;
    ResetModes(m.cp0);
    if m.phase == Normal {
      ResetSimulates(WasReset(m).Control());
    }
  }

  // So every run from a reset that takes no branch in a delay slot follows the architecture from there.
  lemma RunFromReset(m: Machine, ms: seq<Machine>, lines: seq<bv32>)
    requires m.Valid() && m.phase == Normal
    requires Runs(ms, lines) && ms[0] == WasReset(m) && NeverTakenInSlot(ms[0].Control(), Events(ms))
    ensures var start := Arch(0xbfc0_0000, 0xbfc0_0004, NoBranch);
            && Simulates(ms[|ms| - 1].Control(), ArchRun(start, Events(ms)))
            && Found(ms, lines) == ArchRecords(start, Events(ms))
  {
    hide Stepped, Simulates, LinesOk, Caches.State.Valid, Cp0.Reset, KernelMode, InterruptsEnabled;
    ResetStarts(m);
    RunFollowsArchitecture(ms, lines, Arch(0xbfc0_0000, 0xbfc0_0004, NoBranch));
  }
}
