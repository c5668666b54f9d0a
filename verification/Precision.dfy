/** Exceptions are precise, and control flows through delay slots as in the architecture. */
module Precision {
  import opened Exceptions
  import opened Memory
  import Caches
  import opened Tlb
  import opened Cp0
  import opened Cp0Runs
  import opened Instructions
  import opened DelaySlot
  import opened Division
  import opened Execution
  import Multiply

  // The coprocessor after a translation that did not fault.
  predicate Passed(c: Cp0.State, d: Cp0.State) { d == c || d == c.(missUser := false) }

  predicate IsBuffer(code: Code) { code == TLBL || code == TLBS || code == Mod }

  // An access to memory: its address, cut to what is translated, and its kind.
  datatype Access = Access(va: bv32, mode: Mode)

  ghost predicate RaisedBy(c: Cp0.State, at: Access, code: Code, d: Cp0.State)
    requires c.Valid()
  {
    var t := AddressTrans(c, at.va, at.mode);
    t.0.Fault? && t.0.code == code && d == t.1
  }

  // The coprocessor is d where an exception arises after it was c; if it is one of the buffer,
  // the access is the one that faulted.
  ghost predicate Arises(c: Cp0.State, at: Access, code: Code, d: Cp0.State)
    requires c.Valid()
  {
    if IsBuffer(code) then RaisedBy(c, at, code, d) else Passed(c, d)
  }

  lemma TranslationPasses(c: Cp0.State, at: Access)
    requires c.Valid()
    ensures var t := AddressTrans(c, at.va, at.mode);
            if t.0.Mapped? then Passed(c, t.1) else Arises(c, at, t.0.code, t.1)
  {
    hide LookUp, Page, SpaceOf, Physical, WithPage, WithBadVpn, KernelMode, UserAddress, SegmentOf;
  }

  lemma FetchRaises(m: Caches.State, width: Width, a: Address, mode: Mode, cacheable: bool)
    requires m.Valid()
    ensures var r := Caches.Fetch(m, width, a, mode, cacheable);
            r.state.space == m.space && (r.outcome.Raised? ==> !IsBuffer(r.outcome.code))
  {
    hide Caches.Hit, Caches.Part, Gather, Holds, WellFormed, Memory.Readable;
  }

  lemma StoreRaises(m: Caches.State, width: Width, a: Address, data: bv32, cacheable: bool)
    requires m.Valid() && Caches.StoreAt(m, width, a, data, cacheable).outcome.Raised?
    ensures var r := Caches.StoreAt(m, width, a, data, cacheable);
            r.state == m && !IsBuffer(r.outcome.code)
  {
    Caches.FaultyStore(m, width, a, data, cacheable);
    hide Caches.CacheWrite, Store, Owner;
  }

  ghost predicate Explained<T>(c: Cp0.State, m: Caches.State, at: Access, a: Attempt<T>)
    requires c.Valid()
  {
    if a.Faulted? then Arises(c, at, a.code, a.cp0) && a.mem.space == m.space else Passed(c, a.cp0)
  }

  lemma LoadIsExplained(c: Cp0.State, m: Caches.State, va: bv32, width: Width, mode: Mode)
    requires c.Valid() && m.Valid()
    ensures Explained(c, m, Access(va, mode), LoadedFrom(c, m, va, width, mode))
    ensures LoadedFrom(c, m, va, width, mode).mem.space == m.space
  {
    hide AddressTrans, Caches.Fetch, Phys, RaisedBy;
    TranslationPasses(c, Access(va, mode));
    var t := AddressTrans(c, va, mode).0;
    if t.Mapped? {
      FetchRaises(m, width, Phys(t.address), mode, t.cacheable);
    }
  }

  lemma SentIsExplained(c: Cp0.State, at: Access, d: Cp0.State, m: Caches.State, width: Width, a: Address, data: bv32,
          cacheable: bool)
    requires c.Valid() && Passed(c, d) && m.Valid()
    ensures Explained(c, m, at, Sent(d, Caches.StoreAt(m, width, a, data, cacheable)))
  {
    hide Caches.StoreAt, RaisedBy;
    if Caches.StoreAt(m, width, a, data, cacheable).outcome.Raised? {
      StoreRaises(m, width, a, data, cacheable);
    }
  }

  lemma StoreIsExplained(c: Cp0.State, m: Caches.State, va: bv32, width: Width, data: bv32)
    requires c.Valid() && m.Valid()
    ensures Explained(c, m, Access(va, DataStore), StoredTo(c, m, va, width, data))
  {
    hide AddressTrans, Caches.StoreAt, Phys, RaisedBy, Sent;
    TranslationPasses(c, Access(va, DataStore));
    var t := AddressTrans(c, va, DataStore);
    if t.0.Mapped? {
      SentIsExplained(c, Access(va, DataStore), t.1, m, width, Phys(t.0.address), data, t.0.cacheable);
    }
  }

  lemma StorePartIsExplained(c: Cp0.State, m: Caches.State, va: bv32, left: bool, reg: bv32)
    requires c.Valid() && m.Valid()
    ensures Explained(c, m, Access(WordBase(va), DataStore), StoredPart(c, m, va, left, reg))
  {
    hide LoadedFrom, WordBase, Phys, StoreMerge, Caches.StoreAt, Arises, Sent;
    LoadIsExplained(c, m, WordBase(va), Word, DataStore);
    var l := LoadedFrom(c, m, WordBase(va), Word, DataStore);
    if l.Done? {
      var data, t := StoreMerge(left, m.big, reg, l.value.data, va), l.value.at;
      SentIsExplained(c, Access(WordBase(va), DataStore), l.cp0, l.mem, Word, Phys(t.address), data, t.cacheable);
    }
  }

  // An exception that a program can tell from its registers and memory only by where it goes.
  ghost predicate Traps(was: Machine, at: Access, code: Code, ce: bv32, d: Cp0.State, now: Machine)
    requires was.Valid()
  {
    && Arises(was.cp0, at, code, d) && d.Valid() && now.mem.space == was.mem.space
    && now == Excepted(code, ce, was.(cp0 := d, mem := now.mem))
  }

  // No exception: execution goes on, or control is transferred.
  ghost predicate Goes(was: Machine, now: Machine) {
    && !now.pending && now.entries == was.entries && now.lines == was.lines && now.pc == was.pc
    && now.nextEpc == was.nextEpc
    && ((now.phase == was.phase && now.delayPc == was.delayPc) || now.phase == Delaying)
  }

  lemma AttemptTraps<T>(was: Machine, at: Access, a: Attempt<T>)
    requires was.Valid() && a.Faulted? && a.cp0.Valid() && Explained(was.cp0, was.mem, at, a)
    ensures Traps(was, at, a.code, NO_COPROCESSOR, a.cp0, Excepted(a.code, NO_COPROCESSOR, Behind(was, a)))
  {
    hide Arises;
  }

  lemma PlainTraps(was: Machine, at: Access, code: Code, ce: bv32, now: Machine)
    requires was.Valid() && !IsBuffer(code) && now == Excepted(code, ce, was)
    ensures Traps(was, at, code, ce, was.cp0, now)
  {
    hide Cp0.State.Valid, Caches.State.Valid, LinesOk;
  }

  lemma LoadTraps(i: bv32, width: Width, signed: bool, was: Machine, now: Machine) returns (code: Code, d: Cp0.State)
    requires was.Valid() && !was.pending && LoadDone(i, width, signed, was, now) && now.pending
    ensures Traps(was, Access(Effective(was.reg[Rs(i)], i), DataLoad), code, NO_COPROCESSOR, d, now)
  {
    hide Traps, Explained, Excepted, LoadedFrom, Effective, Misaligned, Extended, Rs, Rt, LinesOk, Cp0.State.Valid,
         Caches.State.Valid;
    var va := Effective(was.reg[Rs(i)], i);
    if Misaligned(va, width) {
      code, d := AdEL, was.cp0;
      PlainTraps(was, Access(va, DataLoad), code, NO_COPROCESSOR, now);
    } else {
      LoadIsExplained(was.cp0, was.mem, va, width, DataLoad);
      var a := LoadedFrom(was.cp0, was.mem, va, width, DataLoad);
      code, d := a.code, a.cp0;
      AttemptTraps(was, Access(va, DataLoad), a);
    }
  }

  lemma LoadPartTraps(i: bv32, left: bool, was: Machine, now: Machine) returns (code: Code, d: Cp0.State)
    requires was.Valid() && !was.pending && LoadPartDone(i, left, was, now) && now.pending
    ensures Traps(was, Access(WordBase(Effective(was.reg[Rs(i)], i)), DataLoad), code, NO_COPROCESSOR, d, now)
  {
    hide Traps, Explained, Excepted, LoadedFrom, Effective, WordBase, LoadMerge, Rs, Rt, LinesOk, Cp0.State.Valid,
         Caches.State.Valid;
    var va := WordBase(Effective(was.reg[Rs(i)], i));
    LoadIsExplained(was.cp0, was.mem, va, Word, DataLoad);
    var a := LoadedFrom(was.cp0, was.mem, va, Word, DataLoad);
    code, d := a.code, a.cp0;
    AttemptTraps(was, Access(va, DataLoad), a);
  }

  lemma CompletedTraps(was: Machine, at: Access, a: Attempt<()>, now: Machine) returns (code: Code, d: Cp0.State)
    requires was.Valid() && !was.pending && a.cp0.Valid() && Explained(was.cp0, was.mem, at, a)
        && Completed(was, a, now)
        && now.pending
    ensures Traps(was, at, code, NO_COPROCESSOR, d, now)
  {
    hide Traps, Explained, Excepted, LinesOk, Cp0.State.Valid, Caches.State.Valid;
    code, d := a.code, a.cp0;
    AttemptTraps(was, at, a);
  }

  lemma StoreTraps(i: bv32, width: Width, was: Machine, now: Machine) returns (code: Code, d: Cp0.State)
    requires was.Valid() && !was.pending && StoreDone(i, width, was, now) && now.pending
    ensures Traps(was, Access(Effective(was.reg[Rs(i)], i), DataStore), code, NO_COPROCESSOR, d, now)
  {
    hide Traps, Explained, Excepted, StoredTo, Completed, Effective, Misaligned, Rs, Rt, LinesOk, Cp0.State.Valid,
         Caches.State.Valid;
    var va := Effective(was.reg[Rs(i)], i);
    if Misaligned(va, width) {
      code, d := AdES, was.cp0;
      PlainTraps(was, Access(va, DataStore), code, NO_COPROCESSOR, now);
    } else {
      StoreIsExplained(was.cp0, was.mem, va, width, was.reg[Rt(i)]);
      code, d := CompletedTraps(was, Access(va, DataStore), StoredTo(was.cp0, was.mem, va, width, was.reg[Rt(i)]), now);
    }
  }

  lemma StorePartTraps(i: bv32, left: bool, was: Machine, now: Machine) returns (code: Code, d: Cp0.State)
    requires was.Valid() && !was.pending && StorePartDone(i, left, was, now) && now.pending
    ensures Traps(was, Access(WordBase(Effective(was.reg[Rs(i)], i)), DataStore), code, NO_COPROCESSOR, d, now)
  {
    hide Traps, Explained, Excepted, StoredPart, Completed, Effective, Rs, Rt, LinesOk, Cp0.State.Valid,
         Caches.State.Valid;
    var va, data := Effective(was.reg[Rs(i)], i), was.reg[Rt(i)];
    StorePartIsExplained(was.cp0, was.mem, va, left, data);
    code, d := CompletedTraps(was, Access(WordBase(va), DataStore), StoredPart(was.cp0, was.mem, va, left, data), now);
  }

  // An instruction that traps where it stands, or goes on without the coprocessor.
  ghost predicate Settles(code: Code, ce: bv32, was: Machine, now: Machine)
    requires was.Valid()
  {
    if now.pending then now == Excepted(code, ce, was) else Goes(was, now) && now.cp0 == was.cp0
  }

  lemma OverflowSettles(rd: RegNo, a: bv32, b: bv32, subtract: bool, was: Machine, now: Machine)
    requires was.Valid() && !was.pending && OverflowDone(rd, a, b, subtract, was, now)
    ensures Settles(Ov, NO_COPROCESSOR, was, now)
  {
    hide Excepted, Rs, Rt, Rd, LinkAddress, LinesOk, Cp0.State.Valid, Caches.State.Valid, Signed, Unsigned;
  }

  lemma JumpRegisterSettles(i: bv32, link: bool, was: Machine, now: Machine)
    requires was.Valid() && !was.pending && JumpRegisterDone(i, link, was, now)
    ensures Settles(RI, NO_COPROCESSOR, was, now)
  {
    hide Excepted, Rs, Rt, Rd, LinkAddress, LinesOk, Cp0.State.Valid, Caches.State.Valid;
  }

  lemma MoveToSettles(i: bv32, high: bool, was: Machine, now: Machine)
    requires was.Valid() && !was.pending && MoveToDone(i, high, was, now)
    ensures Settles(RI, NO_COPROCESSOR, was, now)
  {
    hide Excepted, Rs, Rt, Rd, LinkAddress, LinesOk, Cp0.State.Valid, Caches.State.Valid;
  }

  lemma MultiplySettles(i: bv32, signed: bool, was: Machine, now: Machine)
    requires was.Valid() && !was.pending && MultiplyDone(i, signed, was, now)
    ensures Settles(RI, NO_COPROCESSOR, was, now)
  {
    hide Excepted, Rs, Rt, Rd, LinkAddress, LinesOk, Cp0.State.Valid, Caches.State.Valid, Signed, Instructions.Number,
         Multiply.Signed64;
  }

  lemma DivideSettles(i: bv32, signed: bool, was: Machine, now: Machine)
    requires was.Valid() && !was.pending && DivideDone(i, signed, was, now)
    ensures Settles(RI, NO_COPROCESSOR, was, now)
  {
    hide Excepted, Rs, Rt, Rd, LinkAddress, LinesOk, Cp0.State.Valid, Caches.State.Valid, Operand, Divisible, Quotient,
         Rest, WordFor;
  }

  lemma WriteSettles(r: RegNo, x: bv32, code: Code, ce: bv32, was: Machine)
    requires was.Valid() && !was.pending
    ensures Settles(code, ce, was, With(was, r, x))
  {
    hide Excepted, LinesOk, Cp0.State.Valid, Caches.State.Valid;
  }

  lemma TrapSettles(code: Code, ce: bv32, was: Machine)
    requires was.Valid()
    ensures Settles(code, ce, was, Excepted(code, ce, was))
  {
    hide Excepted;
  }

  lemma FunctSettles(i: bv32, was: Machine, now: Machine) returns (code: Code)
    requires was.Valid() && !was.pending && FunctDone(i, was, now)
    ensures !IsBuffer(code) && Settles(code, NO_COPROCESSOR, was, now)
  {
    hide Settles, Excepted, With, OverflowDone, JumpRegisterDone, MoveToDone, MultiplyDone, DivideDone, Funct,
         Computed, Computes, Rs, Rt, Rd, LinesOk, Cp0.State.Valid, Caches.State.Valid;
    var f := Funct(i);
    code := if f == 32 || f == 34 then Ov else if f == 12 then Sys else if f == 13 then Bp else RI;
    if Computes(f) {
      WriteSettles(Rd(i), Computed(was.arithmetic, i, was.reg[Rs(i)], was.reg[Rt(i)]), code, NO_COPROCESSOR, was);
    } else if f == 32 || f == 34 {
      OverflowSettles(Rd(i), was.reg[Rs(i)], was.reg[Rt(i)], f == 34, was, now);
    } else if f == 8 || f == 9 {
      JumpRegisterSettles(i, f == 9, was, now);
    } else if f == 16 || f == 18 {
      WriteSettles(Rd(i), if f == 16 then was.hi else was.lo, code, NO_COPROCESSOR, was);
    } else if f == 17 || f == 19 {
      MoveToSettles(i, f == 17, was, now);
    } else if f == 24 || f == 25 {
      MultiplySettles(i, f == 24, was, now);
    } else if f == 26 || f == 27 {
      DivideSettles(i, f == 26, was, now);
    } else {
      TrapSettles(code, NO_COPROCESSOR, was);
    }
  }

  // Writing a register, changing the coprocessor and transferring control are ways to go on.
  lemma WaysOn(was: Machine, d: Cp0.State, r: RegNo, x: bv32, target: bv32)
    requires was.Valid() && !was.pending
    ensures Goes(was, was) && Goes(was, was.(cp0 := d)) && Goes(was, Jump(target, was))
    ensures Goes(was, With(was.(cp0 := d), r, x)) && With(was.(cp0 := d), r, x).cp0 == d
    ensures With(was, r, x).cp0 == was.cp0 == Jump(target, was).cp0 && |With(was, r, x).reg| == 32
    ensures Goes(was, With(was, r, x)) && Goes(was, Jump(target, With(was, r, x)))
        && Jump(target, With(was, r, x)).cp0 == was.cp0
  {
    hide LinesOk, Cp0.State.Valid, Caches.State.Valid;
  }

  lemma RegimmSettles(i: bv32, was: Machine, now: Machine)
    requires was.Valid() && !was.pending && RegimmDone(i, was, now)
    ensures Settles(RI, NO_COPROCESSOR, was, now)
  {
    WaysOn(was, was.cp0, 31, LinkAddress(was.pc), BranchTarget(i, was.pc));
    hide Goes, With, Jump, Excepted, Rs, Rt, IsRegimm, Links, RegimmTaken, BranchTarget, LinkAddress, LinesOk,
         Cp0.State.Valid, Caches.State.Valid;
  }

  lemma BranchSettles(i: bv32, op: int, was: Machine, now: Machine)
    requires was.Valid() && !was.pending && BranchDone(i, op, was, now)
    ensures Settles(RI, NO_COPROCESSOR, was, now)
  {
    hide Excepted, Rs, Rt, Rd, LinkAddress, LinesOk, Cp0.State.Valid, Caches.State.Valid, BranchTaken, BranchTarget;
  }

  lemma CpOneSettles(i: bv32, was: Machine, now: Machine)
    requires was.Valid() && !was.pending && CpOneDone(i, was, now)
    ensures Settles(CpU, 1, was, now)
  {
    hide Excepted, Rs, Rt, Rd, LinkAddress, LinesOk, Cp0.State.Valid, Caches.State.Valid, CopOneUsable;
  }

  lemma JumpSettles(i: bv32, link: bool, was: Machine, now: Machine)
    requires was.Valid() && !was.pending && JumpDone(i, link, was, now)
    ensures Settles(RI, NO_COPROCESSOR, was, now)
  {
    hide Excepted, Rs, Rt, Rd, LinkAddress, LinesOk, Cp0.State.Valid, Caches.State.Valid, JumpTarget;
  }

  // The operation of the coprocessor that an instruction carries out, if any.
  datatype Issue = Nothing | Issued(op: Op)

  function Operation(i: bv32, m: Machine): Issue
    requires |m.reg| == 32
  {
    if Opcode(i) != 16 then Nothing
    else
      match CpzeroOp(i, m.reg[Rt(i)], m.lines) case Does(op) => Issued(op) case Fails(_) => Nothing
  }

  ghost predicate Operated(c: Cp0.State, issue: Issue, d: Cp0.State)
    requires c.Valid() && (issue.Issued? ==> WellFormedOp(issue.op))
  {
    if issue.Issued? then d == Apply(c, issue.op) else Passed(c, d)
  }

  ghost predicate RunSettles(was: Machine, issue: Issue, m: Machine)
    requires was.Valid() && (issue.Issued? ==> WellFormedOp(issue.op))
  {
    if m.pending then m == Excepted(RI, 0, was) && issue.Nothing? else Goes(was, m) && Operated(was.cp0, issue, m.cp0)
  }

  lemma CpzeroRunSettles(i: bv32, was: Machine)
    requires was.Valid() && !was.pending && Opcode(i) == 16
    ensures RunSettles(was, Operation(i, was), CpzeroRun(i, was))
  {
    hide With, Jump, Excepted, Rs, Rt, IsBc0, CpzeroOp, Apply, Cp0.ReadReg, BranchTarget, Opcode, LinesOk,
         Cp0.State.Valid, Caches.State.Valid;
    WaysOn(was, was.cp0, 0, 0, BranchTarget(i, was.pc));
    match CpzeroOp(i, was.reg[Rt(i)], was.lines)
    case Does(op) =>
      WaysOn(was, Apply(was.cp0, op), Rt(i), if op.Mfc0? then Cp0.ReadReg(was.cp0, op.r, op.lines).0 else 0, 0);
    case Fails(_) =>
  }

  lemma ControlledTraps(was: Machine, at: Access, m: Caches.State)
    requires was.Valid() && m.space == was.mem.space
    ensures Traps(was, at, RI, 0, was.cp0, Excepted(RI, 0, was).(mem := m))
  {
    hide Cp0.EnterException, Vector, LinesOk, Cp0.State.Valid, Caches.State.Valid;
  }

  lemma CpzeroSettles(i: bv32, at: Access, was: Machine, now: Machine)
    requires was.Valid() && !was.pending && CpzeroDone(i, was, now) && Opcode(i) == 16
    ensures if now.pending then Traps(was, at, RI, 0, was.cp0, now) && Operation(i, was).Nothing?
            else Goes(was, now) && Operated(was.cp0, Operation(i, was), now.cp0)
  {
    hide CpzeroRun, Excepted, Opcode, Operation, CachesIsolated, CachesSwapped, Traps, LinesOk, Cp0.State.Valid,
         Caches.State.Valid, Operated;
    CpzeroRunSettles(i, was);
    ControlledTraps(was, at, now.mem);
  }

  lemma OtherSettles(i: bv32, was: Machine, now: Machine) returns (code: Code, ce: bv32)
    requires was.Valid() && !was.pending && Executed(i, was, now)
    requires Opcode(i) != 0 && Opcode(i) != 16 && !(32 <= Opcode(i) < 48)
    ensures !IsBuffer(code) && Settles(code, ce, was, now)
  {
    hide Settles, Excepted, With, FunctDone, CpzeroDone, LoadDone, LoadPartDone, StoreDone, StorePartDone, RegimmDone,
         JumpDone, BranchDone, OverflowDone, CpOneDone, Opcode, ComputedImmediate, Rs, Rt, SImmed, CoprocessorOf,
         LinesOk, Cp0.State.Valid, Caches.State.Valid;
    var op := Opcode(i);
    code := if op == 8 then Ov else if op == 17 || UsesCoprocessor(op) then CpU else RI;
    ce := if op == 17 then 1 else if UsesCoprocessor(op) then CoprocessorOf(op) else NO_COPROCESSOR;
    if op == 1 {
      RegimmSettles(i, was, now);
    } else if op == 2 || op == 3 {
      JumpSettles(i, op == 3, was, now);
    } else if 4 <= op <= 7 {
      BranchSettles(i, op, was, now);
    } else if op == 8 {
      OverflowSettles(Rt(i), was.reg[Rs(i)], SImmed(i), false, was, now);
    } else if 9 <= op <= 15 {
      WriteSettles(Rt(i), ComputedImmediate(i, was.reg[Rs(i)]), code, ce, was);
    } else if op == 17 {
      CpOneSettles(i, was, now);
    } else {
      TrapSettles(code, ce, was);
    }
  }

  // The access to memory that an instruction makes, if it makes one: the left and right loads and
  // stores access the word around their address.
  function AccessOf(i: bv32, m: Machine): Access
    requires |m.reg| == 32
  {
    var op, va := Opcode(i), Effective(m.reg[Rs(i)], i);
    Access(if op in {34, 38, 42, 46} then WordBase(va) else va, if op >= 40 then DataStore else DataLoad)
  }

  lemma MemoryTraps(i: bv32, was: Machine, now: Machine) returns (code: Code, d: Cp0.State)
    requires was.Valid() && !was.pending && Executed(i, was, now) && now.pending && 32 <= Opcode(i) < 48
    ensures Traps(was, AccessOf(i, was), code, NO_COPROCESSOR, d, now)
  {
    hide Traps, Excepted, LoadDone, LoadPartDone, StoreDone, StorePartDone, Opcode, Effective, WordBase, Rs, LinesOk,
         Cp0.State.Valid, Caches.State.Valid;
    var op := Opcode(i);
    if op == 32 || op == 36 {
      code, d := LoadTraps(i, Byte, op == 32, was, now);
    } else if op == 33 || op == 37 {
      code, d := LoadTraps(i, Half, op == 33, was, now);
    } else if op == 35 {
      code, d := LoadTraps(i, Word, true, was, now);
    } else if op == 34 || op == 38 {
      code, d := LoadPartTraps(i, op == 34, was, now);
    } else if op == 40 {
      code, d := StoreTraps(i, Byte, was, now);
    } else if op == 41 {
      code, d := StoreTraps(i, Half, was, now);
    } else if op == 43 {
      code, d := StoreTraps(i, Word, was, now);
    } else if op == 42 || op == 46 {
      code, d := StorePartTraps(i, op == 42, was, now);
    } else {
      code, d := RI, was.cp0;
      PlainTraps(was, AccessOf(i, was), RI, NO_COPROCESSOR, now);
    }
  }

  lemma SettledTraps(at: Access, code: Code, ce: bv32, was: Machine, now: Machine)
    requires was.Valid() && !IsBuffer(code) && Settles(code, ce, was, now) && now.pending
    ensures Traps(was, at, code, ce, was.cp0, now)
  {
    hide Excepted;
    PlainTraps(was, at, code, ce, now);
  }

  // An instruction that traps.
  lemma ExecutedTraps(i: bv32, was: Machine, now: Machine) returns (code: Code, ce: bv32, d: Cp0.State)
    requires was.Valid() && !was.pending && Executed(i, was, now) && now.pending
    ensures Traps(was, AccessOf(i, was), code, ce, d, now) && Operation(i, was).Nothing?
  {
    hide Traps, Settles, Excepted, FunctDone, CpzeroDone, LoadDone, LoadPartDone, StoreDone, StorePartDone, RegimmDone,
         JumpDone, BranchDone, OverflowDone, CpOneDone, With, AccessOf, Opcode, CpzeroOp, LinesOk, Cp0.State.Valid,
         Caches.State.Valid;
    ce, d := NO_COPROCESSOR, was.cp0;
    if Opcode(i) == 0 {
      code := FunctSettles(i, was, now);
      SettledTraps(AccessOf(i, was), code, ce, was, now);
    } else if Opcode(i) == 16 {
      code, ce := RI, 0;
      CpzeroSettles(i, AccessOf(i, was), was, now);
    } else if 32 <= Opcode(i) < 48 {
      code, d := MemoryTraps(i, was, now);
    } else {
      code, ce := OtherSettles(i, was, now);
      SettledTraps(AccessOf(i, was), code, ce, was, now);
    }
  }

  lemma CompletedGoes(was: Machine, at: Access, a: Attempt<()>, now: Machine)
    requires was.Valid() && !was.pending && a.cp0.Valid() && Explained(was.cp0, was.mem, at, a)
        && Completed(was, a, now)
        && !now.pending
    ensures Goes(was, now) && Passed(was.cp0, now.cp0)
  {
    hide Arises, Cp0.EnterException, Vector, Cp0.State.Valid, Caches.State.Valid, LinesOk;
  }

  lemma LoadGoes(i: bv32, width: Width, signed: bool, was: Machine, now: Machine)
    requires was.Valid() && !was.pending && LoadDone(i, width, signed, was, now) && !now.pending
    ensures Goes(was, now) && Passed(was.cp0, now.cp0)
  {
    hide Arises, LoadedFrom, Effective, Misaligned, Extended, Rs, Rt, Cp0.EnterException, Vector, LinesOk,
         Cp0.State.Valid, Caches.State.Valid;
    LoadIsExplained(was.cp0, was.mem, Effective(was.reg[Rs(i)], i), width, DataLoad);
  }

  lemma LoadPartGoes(i: bv32, left: bool, was: Machine, now: Machine)
    requires was.Valid() && !was.pending && LoadPartDone(i, left, was, now) && !now.pending
    ensures Goes(was, now) && Passed(was.cp0, now.cp0)
  {
    hide Arises, LoadedFrom, Effective, WordBase, LoadMerge, Rs, Rt, Cp0.EnterException, Vector, LinesOk,
         Cp0.State.Valid, Caches.State.Valid;
    LoadIsExplained(was.cp0, was.mem, WordBase(Effective(was.reg[Rs(i)], i)), Word, DataLoad);
  }

  lemma StoreGoes(i: bv32, width: Width, was: Machine, now: Machine)
    requires was.Valid() && !was.pending && StoreDone(i, width, was, now) && !now.pending
    ensures Goes(was, now) && Passed(was.cp0, now.cp0)
  {
    hide Goes, Passed, Completed, Explained, StoredTo, Effective, Misaligned, Rs, Rt, Cp0.EnterException, Vector,
         LinesOk, Cp0.State.Valid, Caches.State.Valid;
    var va := Effective(was.reg[Rs(i)], i);
    if !Misaligned(va, width) {
      StoreIsExplained(was.cp0, was.mem, va, width, was.reg[Rt(i)]);
      CompletedGoes(was, Access(va, DataStore), StoredTo(was.cp0, was.mem, va, width, was.reg[Rt(i)]), now);
    }
  }

  lemma StorePartGoes(i: bv32, left: bool, was: Machine, now: Machine)
    requires was.Valid() && !was.pending && StorePartDone(i, left, was, now) && !now.pending
    ensures Goes(was, now) && Passed(was.cp0, now.cp0)
  {
    hide Goes, Passed, Completed, Explained, StoredPart, Effective, Rs, Rt, LinesOk, Cp0.State.Valid,
         Caches.State.Valid;
    var va, data := Effective(was.reg[Rs(i)], i), was.reg[Rt(i)];
    StorePartIsExplained(was.cp0, was.mem, va, left, data);
    CompletedGoes(was, Access(WordBase(va), DataStore), StoredPart(was.cp0, was.mem, va, left, data), now);
  }

  lemma MemoryGoes(i: bv32, was: Machine, now: Machine)
    requires was.Valid() && !was.pending && Executed(i, was, now) && !now.pending && 32 <= Opcode(i) < 48
    ensures Goes(was, now) && Passed(was.cp0, now.cp0)
  {
    hide Goes, Passed, LoadDone, LoadPartDone, StoreDone, StorePartDone, Opcode, Cp0.EnterException, Vector, LinesOk,
         Cp0.State.Valid, Caches.State.Valid;
    var op := Opcode(i);
    if op == 32 || op == 36 {
      LoadGoes(i, Byte, op == 32, was, now);
    } else if op == 33 || op == 37 {
      LoadGoes(i, Half, op == 33, was, now);
    } else if op == 35 {
      LoadGoes(i, Word, true, was, now);
    } else if op == 34 || op == 38 {
      LoadPartGoes(i, op == 34, was, now);
    } else if op == 40 {
      StoreGoes(i, Byte, was, now);
    } else if op == 41 {
      StoreGoes(i, Half, was, now);
    } else if op == 43 {
      StoreGoes(i, Word, was, now);
    } else if op == 42 || op == 46 {
      StorePartGoes(i, op == 42, was, now);
    }
  }

  lemma SettledGoes(code: Code, ce: bv32, was: Machine, now: Machine)
    requires was.Valid() && Settles(code, ce, was, now) && !now.pending
    ensures Goes(was, now) && Passed(was.cp0, now.cp0)
  {
    hide Excepted, Goes;
  }

  // An instruction that does not trap.
  lemma ExecutedGoes(i: bv32, was: Machine, now: Machine)
    requires was.Valid() && !was.pending && Executed(i, was, now) && !now.pending
    ensures Goes(was, now) && Operated(was.cp0, Operation(i, was), now.cp0)
  {
    hide Goes, Passed, Settles, FunctDone, CpzeroDone, LoadDone, LoadPartDone, StoreDone, StorePartDone, RegimmDone,
         JumpDone, BranchDone, OverflowDone, CpOneDone, With, Excepted, Opcode, CpzeroOp, Apply, LinesOk,
         Cp0.State.Valid, Caches.State.Valid;
    if Opcode(i) == 0 {
      var code := FunctSettles(i, was, now);
      SettledGoes(code, NO_COPROCESSOR, was, now);
    } else if Opcode(i) == 16 {
      CpzeroSettles(i, AccessOf(i, was), was, now);
    } else if 32 <= Opcode(i) < 48 {
      MemoryGoes(i, was, now);
    } else {
      var code, ce := OtherSettles(i, was, now);
      SettledGoes(code, ce, was, now);
    }
  }
}
