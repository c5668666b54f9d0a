/** What every step of the processor keeps. */
module MachineSteps {
  import opened Exceptions
  import opened Memory
  import Caches
  import opened Tlb
  import opened Cp0
  import opened Cp0Runs
  import opened DelaySlot
  import opened Execution
  import opened Steps
  import opened Precision

  lemma MissForgotten(c: Cp0.State, va: bv32, mode: Mode)
    requires c.Valid()
    ensures var t, u := AddressTrans(c, va, mode), AddressTrans(c.(missUser := false), va, mode);
            u.0 == t.0 && (t.0.Fault? && IsBuffer(t.0.code) ==> u.1 == t.1)
  {
    hide LookUp, Page, SpaceOf, Physical, WithPage, WithBadVpn, KernelMode, UserAddress, SegmentOf;
  }

  lemma ArisesBefore(c: Cp0.State, c': Cp0.State, at: Access, code: Code, d: Cp0.State)
    requires c.Valid() && c'.Valid() && Passed(c, c') && Arises(c', at, code, d)
    ensures Arises(c, at, code, d)
  {
    hide AddressTrans;
    if IsBuffer(code) {
      MissForgotten(c, at.va, at.mode);
    }
  }

  // The machine that the next instruction finds, and the operation it issues.
  ghost function Readied(was: Machine): (m: Machine)
    requires was.Valid()
    ensures m.Valid()
  {
    Behind(was, FetchOf(was))
  }

  ghost function Issues(was: Machine): (issue: Issue)
    requires was.Valid()
    ensures issue.Issued? ==> WellFormedOp(issue.op) && ByInstruction(issue.op)
  {
    if FetchOf(was).Faulted? || Interrupted(Readied(was)) then Nothing
        else Operation(FetchOf(was).value.data, Readied(was))
  }

  lemma FetchIsExplained(was: Machine)
    requires was.Valid()
    ensures Explained(was.cp0, was.mem, Access(was.pc, InstFetch), FetchOf(was))
        && Readied(was) == Behind(was, FetchOf(was))
    ensures FetchOf(was).mem.space == was.mem.space
  {
    hide LoadedFrom, LinesOk, Cp0.State.Valid, Caches.State.Valid;
    LoadIsExplained(was.cp0, was.mem, was.pc, Word, InstFetch);
  }

  lemma TrapsBefore(was: Machine, a: Attempt<Loaded>, at: Access, code: Code, ce: bv32, d: Cp0.State, now: Machine)
    requires was.Valid() && Behind(was, a).Valid() && Passed(was.cp0, a.cp0) && a.mem.space == was.mem.space
    requires Traps(Behind(was, a), at, code, ce, d, now)
    ensures Traps(was, at, code, ce, d, now)
  {
    hide Arises, Excepted;
    ArisesBefore(was.cp0, a.cp0, at, code, d);
  }

  // The access that a turn makes: the fetch, if that is as far as it gets.
  ghost function AccessBy(was: Machine): Access
    requires was.Valid()
  {
    if FetchOf(was).Faulted? then Access(was.pc, InstFetch) else AccessOf(FetchOf(was).value.data, Readied(was))
  }

  // A turn that traps.
  lemma TurnTraps(was: Machine, now: Machine) returns (code: Code, ce: bv32, d: Cp0.State)
    requires was.Valid() && !was.pending && Turned(was, now) && now.pending
    ensures Traps(was, AccessBy(was), code, ce, d, now) && Issues(was).Nothing?
  {
    hide Traps, Excepted, FetchOf, Interrupted, Executed, LinesOk, Cp0.State.Valid, Caches.State.Valid, Operation,
         Arises, AccessOf;
    FetchIsExplained(was);
    var a, ready := FetchOf(was), Readied(was);
    if a.Faulted? {
      code, ce, d := a.code, NO_COPROCESSOR, a.cp0;
      AttemptTraps(was, AccessBy(was), a);
    } else {
      if Interrupted(ready) {
        code, ce, d := Int, NO_COPROCESSOR, ready.cp0;
        PlainTraps(ready, AccessBy(was), Int, ce, now);
      } else {
        code, ce, d := ExecutedTraps(a.value.data, ready, now);
      }
      TrapsBefore(was, a, AccessBy(was), code, ce, d, now);
    }
  }

  // And one that does not.
  lemma TurnGoes(was: Machine, now: Machine)
    requires was.Valid() && !was.pending && Turned(was, now) && !now.pending
    ensures Goes(was, now) && Passed(was.cp0, Readied(was).cp0) && Operated(Readied(was).cp0, Issues(was), now.cp0)
  {
    hide Excepted, FetchOf, Interrupted, Executed, LinesOk, Cp0.State.Valid, Caches.State.Valid, Operation, Arises,
         Operated;
    FetchIsExplained(was);
    ExecutedGoes(FetchOf(was).value.data, Readied(was), now);
  }

  // What a step did to the flow of control.
  function EventOf(now: Machine): Event {
    if now.pending then Trap(now.pc) else if now.phase == DelaySlot then Taken(now.delayPc) else Plain
  }

  // Between two steps.
  ghost predicate Resting(m: Machine) { m.Valid() && m.phase != Delaying && m.reg[0] == 0 }

  // The machine after a step that trapped, which is all that has happened to it.
  function Handled(was: Machine, lines: bv32, code: Code, ce: bv32, d: Cp0.State, mem: Caches.State): Machine
    requires d.Valid()
  {
    var c := Cp0.EnterException(d, Epc(was.Control()), code, ce, was.phase == DelaySlot, lines);
    was.(pc := Vector(c.reg[STATUS], IsMiss(code) && c.missUser), nextEpc := Epc(was.Control()), phase := Normal,
         lines := lines, pending := true, entries := was.entries + 1, cp0 := c, mem := mem)
  }

  lemma HandledIsFinished(was: Machine, lines: bv32, code: Code, ce: bv32, d: Cp0.State, mem: Caches.State)
    requires Resting(was) && LinesOk(lines) && d.Valid()
    ensures Finished(Excepted(code, ce, Begun(was, lines).(cp0 := d, mem := mem)))
        == Handled(was, lines, code, ce, d, mem)
  {
    hide Cp0.EnterException, Vector, Cp0.AdjustRandom, LinesOk, Cp0.State.Valid, Caches.State.Valid;
    assert was.reg[0 := 0] == was.reg;
  }

  // A step that ends with an exception pending has entered it once, at this instruction, from
  // a coprocessor state in which it arises; registers and memory are as they were.
  lemma StepTraps(was: Machine, lines: bv32, now: Machine) returns (code: Code, ce: bv32, d: Cp0.State)
    requires Resting(was) && LinesOk(lines) && Stepped(was, lines, now) && now.pending
    ensures d.Valid() && Arises(Cp0.AdjustRandom(was.cp0), AccessBy(Begun(was, lines)), code, d)
    ensures now == Handled(was, lines, code, ce, d, now.mem) && now.mem.space == was.mem.space
    ensures Issues(Begun(was, lines)).Nothing?
  {
    hide Turned, AccessBy, Excepted, Handled, Arises, Issues, LinesOk, Cp0.AdjustRandom, Cp0.State.Valid,
         Caches.State.Valid;
    var begun := Begun(was, lines);
    var turned: Machine :| turned.Valid() && Turned(begun, turned) && now == Finished(turned);
    code, ce, d := TurnTraps(begun, turned);
    HandledIsFinished(was, lines, code, ce, d, turned.mem);
  }

  // A step that does not only goes on: the next program counter is that of the delay slot machine,
  // and the coprocessor has at most carried out the operation that the step issues.
  lemma StepGoes(was: Machine, lines: bv32, now: Machine)
    requires Resting(was) && LinesOk(lines) && Stepped(was, lines, now) && !now.pending
    ensures now.entries == was.entries && now.phase != Delaying && now.reg[..1] == [0]
    ensures now.Control() == DelaySlot.Next(was.Control(), EventOf(now))
    ensures var begun := Begun(was, lines);
            Passed(begun.cp0, Readied(begun).cp0) && Operated(Readied(begun).cp0, Issues(begun), now.cp0)
  {
    hide Turned, Issues, Readied, Operated, LinesOk, Cp0.AdjustRandom, Cp0.State.Valid, Caches.State.Valid, Plus4;
    var begun := Begun(was, lines);
    var turned: Machine :| turned.Valid() && Turned(begun, turned) && now == Finished(turned);
    TurnGoes(begun, turned);
  }
}
