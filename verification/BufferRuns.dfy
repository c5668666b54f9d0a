/** Random, the translation buffer and its refills over runs of the processor. */
module BufferRuns {
  import opened Exceptions
  import Caches
  import opened Tlb
  import opened Cp0
  import opened Cp0Runs
  import opened RandomRegister
  import opened Refill
  import opened DelaySlot
  import opened Execution
  import opened Steps
  import opened Precision
  import opened MachineSteps
  import opened MachineRuns

  // The coprocessor as the instruction of a step finds it, and what that does to it.
  ghost function ReadyCp0(was: Machine, lines: bv32): (c: Cp0.State)
    requires was.Valid() && LinesOk(lines)
    ensures c.Valid()
  {
    Readied(Begun(was, lines)).cp0
  }

  ghost function IssuedBy(was: Machine, lines: bv32): (issue: Issue)
    requires was.Valid() && LinesOk(lines)
    ensures issue.Issued? ==> WellFormedOp(issue.op) && ByInstruction(issue.op)
  {
    Issues(Begun(was, lines))
  }

  ghost predicate Writes(was: Machine, lines: bv32)
    requires was.Valid() && LinesOk(lines)
  {
    IssuedBy(was, lines).Issued? && WritesTlb(IssuedBy(was, lines).op)
  }

  ghost function WriteBy(was: Machine, lines: bv32): (w: Write<bv32, bv32, bv32>)
    requires was.Valid() && LinesOk(lines) && Writes(was, lines)
    ensures 0 <= w.i < TLB_ENTRIES
  {
    WriteOf(ReadyCp0(was, lines), IssuedBy(was, lines).op)
  }

  // Until the instruction itself the coprocessor changes only in Random and in the flag of the
  // last miss; unless the fetch faults.
  lemma ReadyIsLike(was: Machine, lines: bv32)
    requires was.Valid() && LinesOk(lines) && IssuedBy(was, lines).Issued?
    ensures var c := ReadyCp0(was, lines);
            c.tlb == was.cp0.tlb && c.reg == was.cp0.reg[RANDOM := NextRandomWord(was.cp0.reg[RANDOM])]
  {
    hide FetchOf, Interrupted, Operation, NextRandomWord, Arises, LinesOk, Caches.State.Valid;
    FetchIsExplained(Begun(was, lines));
  }

  predicate ByProgram(issue: Issue) { issue.Issued? ==> WellFormedOp(issue.op) && ByInstruction(issue.op) }

  // The buffer with an entry written.
  function BufferWith<V, A, F>(tlb: seq<Entry<V, A, F>>, w: Write<V, A, F>): seq<Entry<V, A, F>>
    requires 0 <= w.i < |tlb|
  {
    tlb[w.i := w.e]
  }

  lemma OperatedRandom(c: Cp0.State, issue: Issue, d: Cp0.State)
    requires c.Valid() && RandomOk(c.reg[RANDOM]) && ByProgram(issue)
    requires Operated(c, issue, d) && d.Valid()
    ensures d.reg[RANDOM] == c.reg[RANDOM]
    ensures d.tlb == if issue.Issued? && WritesTlb(issue.op) then BufferWith(c.tlb, WriteOf(c, issue.op)) else c.tlb
  {
    hide Apply, RandomOk, Selected, EntryOf;
    if issue.Issued? {
      OtherOpsKeepRandom(c, issue.op);
      BufferAfter(c, issue.op);
    }
  }

  lemma PassedIsLike(c: Cp0.State, d: Cp0.State)
    requires Passed(c, d)
    ensures d.reg == c.reg && d.tlb == c.tlb
  {
  }

  // Every step counts Random down, and writes the buffer only if its instruction does.
  lemma StepOfBuffer(was: Machine, lines: bv32, now: Machine)
    requires Resting(was) && LinesOk(lines) && Stepped(was, lines, now) && RandomOk(was.cp0.reg[RANDOM])
    ensures now.Valid() && now.cp0.reg[RANDOM] == NextRandomWord(was.cp0.reg[RANDOM])
    ensures now.cp0.tlb == if Writes(was, lines) then BufferWith(was.cp0.tlb, WriteBy(was, lines)) else was.cp0.tlb
  {
    hide Stepped, TrapPrecise, Readied, Issues, Operated, LinesOk, Caches.State.Valid, RandomOk, NextRandomWord,
         Passed, Cp0.AdjustRandom, WriteOf;
    SteppedIsValid(was, lines, now);
    BegunKeeps(was.cp0);
    if now.pending {
      var code, ce, d := StepTraps(was, lines, now);
      TrapKeepsBuffer(was, lines, now);
    } else {
      StepGoes(was, lines, now);
      PassedIsLike(Begun(was, lines).cp0, ReadyCp0(was, lines));
      StepsTheField(was.cp0.reg[RANDOM]);
      OperatedRandom(ReadyCp0(was, lines), IssuedBy(was, lines), now.cp0);
    }
  }

  lemma TrapKeepsBuffer(was: Machine, lines: bv32, now: Machine)
    requires Resting(was) && LinesOk(lines) && Stepped(was, lines, now) && now.pending && now.Valid()
    ensures now.cp0.tlb == was.cp0.tlb && now.cp0.reg[RANDOM] == NextRandomWord(was.cp0.reg[RANDOM])
  {
    hide Stepped, LinesOk, Caches.State.Valid, NextRandomWord, PushModes, Vector, MissCodeIn, UserMiss, SlotBit;
    TrapIsPrecise(was, lines, now);
  }

  // No step of a run writes the buffer; or none does at an index that the program chose.
  ghost predicate NoneWrites(ms: seq<Machine>, lines: seq<bv32>)
    requires Runs(ms, lines)
    decreases |lines|
  {
    lines == [] || (!Writes(ms[0], lines[0]) && NoneWrites(ms[1..], lines[1..]))
  }

  ghost predicate NoneIndexed(ms: seq<Machine>, lines: seq<bv32>)
    requires Runs(ms, lines)
    decreases |lines|
  {
    lines == [] || (IssuedBy(ms[0], lines[0]) != Issued(Tlbwi) && NoneIndexed(ms[1..], lines[1..]))
  }

  lemma LowEntriesOfStep(was: Machine, lines: bv32, now: Machine)
    requires Resting(was) && LinesOk(lines) && Stepped(was, lines, now) && RandomOk(was.cp0.reg[RANDOM])
    requires IssuedBy(was, lines) != Issued(Tlbwi) && now.Valid()
    ensures now.cp0.tlb[..8] == was.cp0.tlb[..8]
  {
    hide Stepped, IssuedBy, ReadyCp0, LinesOk, RandomOk, NextRandomWord, EntryOf, Caches.State.Valid, Selected;
    StepOfBuffer(was, lines, now);
    if Writes(was, lines) {
      ReadyIsLike(was, lines);
      StepsTheField(was.cp0.reg[RANDOM]);
      FieldInRange(NextRandomWord(was.cp0.reg[RANDOM]));
      assert WriteBy(was, lines).i >= 8;
    }
  }

  lemma StaysResting(was: Machine, lines: bv32, now: Machine)
    requires Resting(was) && LinesOk(lines) && Stepped(was, lines, now)
    ensures Resting(now)
  {
    hide Stepped, LinesOk, TrapPrecise, DelaySlot.Next, Caches.State.Valid;
    StepIsPrecise(was, lines, now);
  }

  // Over every run Random stays between 8 and 63 and counts the steps, and the entries below 8
  // change only by indexed writes.
  lemma {:induction false} RandomOverRuns(ms: seq<Machine>, lines: seq<bv32>)
    requires Runs(ms, lines) && Resting(ms[0]) && RandomOk(ms[0].cp0.reg[RANDOM])
    ensures var last := ms[|lines|];
            && last.Valid() && RandomOk(last.cp0.reg[RANDOM])
            && Field(last.cp0.reg[RANDOM]) == AfterSteps(Field(ms[0].cp0.reg[RANDOM]), |lines|)
            && (NoneIndexed(ms, lines) ==> last.cp0.tlb[..8] == ms[0].cp0.tlb[..8])
    decreases |lines|
  {
    if lines != [] {
      hide Stepped, LinesOk, RandomOk, Field, IssuedBy, Writes, NextRandom, NextRandomWord, Resting,
           Caches.State.Valid;
      var was, now := ms[0], ms[1];
      StaysResting(was, lines[0], now);
      StepOfBuffer(was, lines[0], now);
      StepsTheField(was.cp0.reg[RANDOM]);
      RandomOverRuns(ms[1..], lines[1..]);
      StepFirst(Field(was.cp0.reg[RANDOM]), |lines| - 1);
      if NoneIndexed(ms, lines) {
        LowEntriesOfStep(was, lines[0], now);
      }
    }
  }

  // From a reset, Random has counted down from 63 once for each step.
  lemma RandomFromReset(m: Machine, ms: seq<Machine>, lines: seq<bv32>)
    requires m.Valid() && m.phase != Delaying && Runs(ms, lines) && ms[0] == WasReset(m)
    ensures var last := ms[|lines|];
            && last.Valid() && RandomOk(last.cp0.reg[RANDOM])
            && Field(last.cp0.reg[RANDOM]) == 8 + (55 - |lines|) % 56
            && (NoneIndexed(ms, lines) ==> last.cp0.tlb[..8] == m.cp0.tlb[..8])
  {
    hide Stepped, LinesOk, RandomOk, Field, IssuedBy, NextRandom, Cp0.Reset, Caches.State.Valid, Simulates, AfterSteps;
    ResetStarts(m);
    ResetStartsRandom(m.cp0);
    ResetKeepsBuffer(m.cp0);
    RandomOverRuns(ms, lines);
    ClosedForm(63, |lines|);
  }

  lemma ResetKeepsBuffer(c: Cp0.State)
    requires c.Valid()
    ensures Cp0.Reset(c).tlb == c.tlb
  {
    hide ResetStatus, NothingPending;
  }

  // Entries are written only where nothing matches.
  ghost predicate Carefully(was: Machine, line: bv32)
    requires was.Valid() && LinesOk(line)
  {
    Writes(was, line) ==> Careful(was.cp0.tlb, WriteBy(was, line))
  }

  ghost predicate AllCarefully(ms: seq<Machine>, lines: seq<bv32>)
    requires Runs(ms, lines)
    decreases |lines|
  {
    lines == [] || (Carefully(ms[0], lines[0]) && AllCarefully(ms[1..], lines[1..]))
  }

  // Then no page is ever matched twice.
  lemma {:induction false} UniqueOverRuns(ms: seq<Machine>, lines: seq<bv32>)
    requires Runs(ms, lines) && Resting(ms[0]) && RandomOk(ms[0].cp0.reg[RANDOM])
    requires Unique(ms[0].cp0.tlb) && AllCarefully(ms, lines)
    ensures ms[|lines|].Valid() && Unique(ms[|lines|].cp0.tlb)
    decreases |lines|
  {
    if lines != [] {
      hide Stepped, LinesOk, RandomOk, Unique, Writes, WriteBy, NextRandomWord, Resting, Caches.State.Valid,
           FindMatching;
      var was, now := ms[0], ms[1];
      StaysResting(was, lines[0], now);
      StepOfBuffer(was, lines[0], now);
      StepsTheField(was.cp0.reg[RANDOM]);
      if Writes(was, lines[0]) {
        WriteKeepsUnique(was.cp0.tlb, WriteBy(was, lines[0]).i, WriteBy(was, lines[0]).e);
      }
      UniqueOverRuns(ms[1..], lines[1..]);
    }
  }

  lemma {:induction false} BufferKept(ms: seq<Machine>, lines: seq<bv32>)
    requires Runs(ms, lines) && Resting(ms[0]) && RandomOk(ms[0].cp0.reg[RANDOM]) && NoneWrites(ms, lines)
    ensures ms[|lines|].cp0.tlb == ms[0].cp0.tlb && Resting(ms[|lines|]) && RandomOk(ms[|lines|].cp0.reg[RANDOM])
    decreases |lines|
  {
    if lines != [] {
      hide Stepped, LinesOk, RandomOk, Writes, WriteBy, NextRandomWord, Resting, Caches.State.Valid;
      StaysResting(ms[0], lines[0], ms[1]);
      StepOfBuffer(ms[0], lines[0], ms[1]);
      StepsTheField(ms[0].cp0.reg[RANDOM]);
      BufferKept(ms[1..], lines[1..]);
    }
  }

  predicate BufferCodeIn(cause: bv32) { MissCodeIn(cause) || CodeField(cause) == Exceptions.Number(Mod) }

  lemma BufferNumbers(code: Code, cause: bv32)
    requires CodeField(cause) == Exceptions.Number(code)
    ensures BufferCodeIn(cause) <==> IsBuffer(code)
  {
    hide CodeField;
  }

  lemma BufferIsAgeless(c: Cp0.State, w: bv32, user: bool, va: bv32, mode: Mode)
    requires c.Valid()
    ensures TlbTranslate(c.(reg := c.reg[RANDOM := w]), user, va, mode).0 == TlbTranslate(c, user, va, mode).0
  {
    hide LookUp, Page, SpaceOf, Physical, WithPage, WithBadVpn;
  }

  lemma AgeForgotten(c: Cp0.State, va: bv32, mode: Mode)
    requires c.Valid()
    ensures AddressTrans(Cp0.AdjustRandom(c), va, mode).0 == AddressTrans(c, va, mode).0
  {
    hide TlbTranslate, KernelMode, UserAddress, SegmentOf, NextRandomWord;
    var w := NextRandomWord(c.reg[RANDOM]);
    BufferIsAgeless(c, w, true, va, mode);
    BufferIsAgeless(c, w, false, va, mode);
  }

  // The access that a step makes.
  ghost function AccessOfStep(was: Machine, lines: bv32): Access
    requires was.Valid() && LinesOk(lines)
  {
    AccessBy(Begun(was, lines))
  }

  // What the handler of a fault of the buffer finds: the address of the access that faulted, and its
  // page and address space in EntryHi.
  ghost predicate FaultFound(was: Machine, at: Access, fault: Machine)
    requires was.Valid() && fault.Valid()
  {
    var t := AddressTrans(was.cp0, at.va, at.mode).0;
    && fault.cp0.reg[BAD_VADDR] == at.va
    && TlbFault(t) && CodeField(fault.cp0.reg[CAUSE]) == Exceptions.Number(t.code)
    && Page(fault.cp0.reg[ENTRY_HI]) == Page(at.va) && fault.cp0.Asid() == was.cp0.Asid()
    && fault.cp0.tlb == was.cp0.tlb && fault.cp0.reg[RANDOM] == NextRandomWord(was.cp0.reg[RANDOM])
  }

  lemma HandlerFindsTheFault(was: Machine, lines: bv32, fault: Machine)
    requires Resting(was) && LinesOk(lines) && Stepped(was, lines, fault) && fault.pending && fault.Valid()
    requires BufferCodeIn(fault.cp0.reg[CAUSE])
    ensures FaultFound(was, AccessOfStep(was, lines), fault)
  {
    hide Stepped, Arises, AccessBy, Cp0.EnterException, Cp0.AdjustRandom, AddressTrans, Vector, SlotBit, CodeField,
         LinesOk, Page, SpaceOf, NextRandomWord, WithBadVpn, Caches.State.Valid, Exceptions.Number, Issues,
         BufferCodeIn;
    var code, ce, d := StepTraps(was, lines, fault);
    var b, at := Cp0.AdjustRandom(was.cp0), AccessOfStep(was, lines);
    EnteredKeeps(d, Epc(was.Control()), code, ce, was.phase == DelaySlot, lines);
    EnteredRegisters(d, Epc(was.Control()), code, ce, was.phase == DelaySlot, lines);
    BufferNumbers(code, fault.cp0.reg[CAUSE]);
    BegunKeeps(was.cp0);
    RaisedByAccess(b, at, code, d);
    FaultNamesThePage(b, at.va, at.mode);
    AgeForgotten(was.cp0, at.va, at.mode);
  }

  lemma RaisedByAccess(c: Cp0.State, at: Access, code: Code, d: Cp0.State)
    requires c.Valid() && Arises(c, at, code, d) && IsBuffer(code)
    ensures RaisedBy(c, at, code, d)
  {
  }

  // The write of a handler that has kept the page and address space it found.
  ghost predicate Refills(fault: Machine, w: Machine, lines: bv32)
    requires fault.Valid() && w.Valid() && LinesOk(lines)
  {
    Writes(w, lines) && Page(w.cp0.reg[ENTRY_HI]) == Page(fault.cp0.reg[ENTRY_HI]) && w.cp0.Asid() == fault.cp0.Asid()
  }

  lemma RetryAfterWrite(was: Machine, at: Access, fault: Machine, w: Machine, lines: bv32, r: Cp0.State)
    requires was.Valid() && fault.Valid() && FaultFound(was, at, fault) && UserAddress(at.va)
    requires w.Valid() && LinesOk(lines) && Refills(fault, w, lines) && w.cp0.tlb == fault.cp0.tlb
    requires r.Valid() && r.tlb == BufferWith(w.cp0.tlb, WriteBy(w, lines)) && r.Asid() == was.cp0.Asid()
    ensures RefillServes(was, at, WriteBy(w, lines), r)
  {
    hide AddressTrans, Page, SpaceOf, CodeField, UserAddress, EntryOf, Physical, WithBadVpn, IssuedBy, ReadyCp0,
         Caches.State.Valid, LinesOk, NextRandomWord, FindMatching;
    var c, e := ReadyCp0(w, lines), WriteBy(w, lines).e;
    ReadyIsLike(w, lines);
    FaultNamesThePage(was.cp0, at.va, at.mode);
    if Serves(e, at.mode.DataStore?) {
      RetryAfterRefill(was.cp0, at.va, at.mode, c, WriteBy(w, lines).i, r);
    }
  }

  // After a fault that no entry matched, such a write is careful exactly when, if it is global,
  // no entry has the page; so runs of a handler that refills on such faults keep pages unique.
  lemma RefillIsCareful(was: Machine, at: Access, fault: Machine, w: Machine, lines: bv32)
    requires was.Valid() && fault.Valid() && FaultFound(was, at, fault)
    requires FindMatching(was.cp0.tlb, Page(at.va), was.cp0.Asid()) < 0
    requires w.Valid() && LinesOk(lines) && Refills(fault, w, lines) && w.cp0.tlb == fault.cp0.tlb
    ensures var e := WriteBy(w, lines).e;
            Carefully(w, lines) <==> (e.global ==> forall j :: 0 <= j < TLB_ENTRIES ==> w.cp0.tlb[j].vpn != e.vpn)
  {
    hide AddressTrans, Page, SpaceOf, CodeField, EntryOf, WithBadVpn, IssuedBy, ReadyCp0, Caches.State.Valid, LinesOk,
         NextRandomWord, FindMatching;
    ReadyIsLike(w, lines);
    FaultNamesThePage(was.cp0, at.va, at.mode);
    MissIsCareful(was.cp0, at.va, at.mode, ReadyCp0(w, lines), WriteBy(w, lines).i);
  }

  // No entry before the written one matches, and it allows the access.
  ghost predicate ServedBy(was: Machine, at: Access, write: Write<bv32, bv32, bv32>)
    requires was.Valid()
  {
    var m := FindMatching(was.cp0.tlb, Page(at.va), was.cp0.Asid());
    Serves(write.e, at.mode.DataStore?) && (m < 0 || write.i <= m)
  }

  // If the entry serves the access, it now succeeds - unless an entry before the one written
  // matches: then the fault comes back.
  ghost predicate RefillServes(was: Machine, at: Access, write: Write<bv32, bv32, bv32>, r: Cp0.State)
    requires was.Valid() && r.Valid()
  {
    Serves(write.e, at.mode.DataStore?) ==>
      AddressTrans(r, at.va, at.mode).0
      == if ServedBy(was, at, write) then Mapped(Physical(write.e.frame, at.va), !write.e.noncacheable)
         else AddressTrans(was.cp0, at.va, at.mode).0
  }

  // A step faults on an address of the user segment; its handler runs for any time and writes one
  // entry of the buffer, with the page and the address space that it found; and any time more
  // passes, to the old address space.
  ghost predicate Refilled(was: Machine, line: bv32, fault: Machine, ms: seq<Machine>, lines: seq<bv32>,
                           line': bv32, ns: seq<Machine>, lines': seq<bv32>) {
    && Resting(was) && LinesOk(line) && Stepped(was, line, fault) && fault.pending
    && RandomOk(was.cp0.reg[RANDOM])
    && fault.Valid() && BufferCodeIn(fault.cp0.reg[CAUSE]) && UserAddress(fault.cp0.reg[BAD_VADDR])
    && Runs(ms, lines) && ms[0] == fault && NoneWrites(ms, lines)
    && ms[|lines|].Valid() && LinesOk(line') && Refills(fault, ms[|lines|], line')
    && Runs(ns, lines') && NoneWrites(ns, lines') && Stepped(ms[|lines|], line', ns[0])
    && ns[|lines'|].Valid() && ns[|lines'|].cp0.Asid() == was.cp0.Asid()
  }

  // Miss, refill, retry, over any run: the access that the step made is then translated by that entry.
  lemma RefillOverRuns(was: Machine, line: bv32, fault: Machine, ms: seq<Machine>, lines: seq<bv32>,
                       line': bv32, ns: seq<Machine>, lines': seq<bv32>)
    requires Refilled(was, line, fault, ms, lines, line', ns, lines')
    ensures Resting(ns[|lines'|])
    ensures FaultFound(was, AccessOfStep(was, line), fault)
    ensures RefillServes(was, AccessOfStep(was, line), WriteBy(ms[|lines|], line'), ns[|lines'|].cp0)
  {
    hide Stepped, FaultFound, RefillServes, NoneWrites, RandomOk, LinesOk, BufferCodeIn, UserAddress, AccessOfStep,
         Refills, Writes, WriteBy, SpaceOf, Caches.State.Valid;
    var w := ms[|lines|];
    HandlerRuns(was, line, fault, ms, lines);
    RefillsWrites(fault, w, line');
    WrittenOnce(w, line', ns, lines');
    RetryAfterWrite(was, AccessOfStep(was, line), fault, w, line', ns[|lines'|].cp0);
  }

  // From the fault to the write.
  lemma HandlerRuns(was: Machine, line: bv32, fault: Machine, ms: seq<Machine>, lines: seq<bv32>)
    requires Resting(was) && LinesOk(line) && Stepped(was, line, fault) && fault.pending
    requires RandomOk(was.cp0.reg[RANDOM]) && fault.Valid() && BufferCodeIn(fault.cp0.reg[CAUSE])
    requires Runs(ms, lines) && ms[0] == fault && NoneWrites(ms, lines)
    ensures FaultFound(was, AccessOfStep(was, line), fault) && fault.cp0.reg[BAD_VADDR] == AccessOfStep(was, line).va
    ensures Resting(ms[|lines|]) && RandomOk(ms[|lines|].cp0.reg[RANDOM]) && ms[|lines|].cp0.tlb == fault.cp0.tlb
  {
    hide Stepped, FaultFound, NoneWrites, RandomOk, NextRandomWord, LinesOk, BufferCodeIn, AccessOfStep, SpaceOf,
         Caches.State.Valid;
    HandlerFindsTheFault(was, line, fault);
    StaysResting(was, line, fault);
    StepsTheField(was.cp0.reg[RANDOM]);
    FaultKeeps(was, AccessOfStep(was, line), fault);
    BufferKept(ms, lines);
  }

  lemma RefillsWrites(fault: Machine, w: Machine, lines: bv32)
    requires fault.Valid() && w.Valid() && LinesOk(lines) && Refills(fault, w, lines)
    ensures Writes(w, lines)
  {
    hide Writes;
  }

  // A step that writes the buffer, and then any run that does not.
  lemma WrittenOnce(w: Machine, line: bv32, ns: seq<Machine>, lines: seq<bv32>)
    requires Resting(w) && RandomOk(w.cp0.reg[RANDOM]) && LinesOk(line) && Writes(w, line)
    requires Runs(ns, lines) && NoneWrites(ns, lines) && Stepped(w, line, ns[0])
    ensures ns[|lines|].cp0.tlb == BufferWith(w.cp0.tlb, WriteBy(w, line)) && Resting(ns[|lines|])
  {
    hide Stepped, NoneWrites, RandomOk, NextRandomWord, LinesOk, Writes, WriteBy, SpaceOf, Caches.State.Valid;
    StaysResting(w, line, ns[0]);
    StepOfBuffer(w, line, ns[0]);
    StepsTheField(w.cp0.reg[RANDOM]);
    BufferKept(ns, lines);
  }

  lemma FaultKeeps(was: Machine, at: Access, fault: Machine)
    requires was.Valid() && fault.Valid() && FaultFound(was, at, fault)
    ensures fault.cp0.reg[RANDOM] == NextRandomWord(was.cp0.reg[RANDOM]) && fault.cp0.reg[BAD_VADDR] == at.va
  {
  }

  // And so, whatever step is made then, the buffer does not fault on that access again.
  lemma RetryDoesNotFault(was: Machine, at: Access, write: Write<bv32, bv32, bv32>, r: Machine, line: bv32,
          next: Machine)
    requires was.Valid() && Resting(r) && RefillServes(was, at, write, r.cp0) && ServedBy(was, at, write)
    requires LinesOk(line) && Stepped(r, line, next) && next.pending && next.Valid() && AccessOfStep(r, line) == at
    ensures !BufferCodeIn(next.cp0.reg[CAUSE])
  {
    hide Stepped, AddressTrans, AccessBy, CodeField, LinesOk, Page, SpaceOf, NextRandomWord, Caches.State.Valid,
         BufferCodeIn, FindMatching;
    if BufferCodeIn(next.cp0.reg[CAUSE]) {
      HandlerFindsTheFault(r, line, next);
    }
  }

  // A step comes as far as another did: to the same instruction with the same registers, or only to
  // the fetch from the same address.
  ghost predicate Repeats(m: Machine, line: bv32, n: Machine, line': bv32)
    requires m.Valid() && n.Valid() && LinesOk(line) && LinesOk(line')
  {
    var a, b := FetchOf(Begun(m, line)), FetchOf(Begun(n, line'));
    if a.Faulted? then b.Faulted? && m.pc == n.pc else b.Done? && a.value.data == b.value.data && m.reg == n.reg
  }

  lemma SameAccess(m: Machine, line: bv32, n: Machine, line': bv32)
    requires m.Valid() && n.Valid() && LinesOk(line) && LinesOk(line') && Repeats(m, line, n, line')
    ensures AccessOfStep(m, line) == AccessOfStep(n, line')
  {
    hide LoadedFrom, LinesOk, Cp0.AdjustRandom, Caches.State.Valid, Cp0.State.Valid;
  }

  // So a handler's refill serves its purpose: executed again, the instruction that faulted does not fault
  // in the buffer.
  lemma RetrySucceeds(was: Machine, line: bv32, fault: Machine, ms: seq<Machine>, lines: seq<bv32>, line': bv32,
                      ns: seq<Machine>, lines': seq<bv32>, line'': bv32, next: Machine)
    requires Refilled(was, line, fault, ms, lines, line', ns, lines')
    requires ServedBy(was, AccessOfStep(was, line), WriteBy(ms[|lines|], line'))
    requires var r := ns[|lines'|];
             LinesOk(line'') && Stepped(r, line'', next) && next.Valid() && Repeats(was, line, r, line'')
    ensures next.pending ==> !BufferCodeIn(next.cp0.reg[CAUSE])
  {
    var r, at := ns[|lines'|], AccessOfStep(was, line);
    hide Stepped, FaultFound, RefillServes, ServedBy, NoneWrites, RandomOk, LinesOk, BufferCodeIn, UserAddress,
         AccessOfStep, Refills, Repeats, Writes, WriteBy, SpaceOf, Caches.State.Valid;
    RefillOverRuns(was, line, fault, ms, lines, line', ns, lines');
    SameAccess(was, line, r, line'');
    if next.pending {
      RetryDoesNotFault(was, at, WriteBy(ms[|lines|], line'), r, line'', next);
    }
  }
}
