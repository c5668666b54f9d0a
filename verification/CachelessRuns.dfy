/** The processor with its caches against one without any: a program cannot tell them apart. */
module CachelessRuns {
  import opened Exceptions
  import opened Memory
  import Caches
  import opened Cp0
  import opened Instructions
  import opened DelaySlot
  import opened Execution
  import opened Steps
  import opened Precision
  import opened MachineSteps
  import opened MachineRuns

  // Accesses to flat memory.
  ghost function FlatLoaded(c: Cp0.State, m: Caches.State, va: bv32, width: Width, mode: Mode): (r: Attempt<Loaded>)
    requires c.Valid() && m.Valid()
    ensures r.cp0.Valid() && r.mem == m
    ensures r.Done? ==> r.value.at.Mapped?
  {
    var t := AddressTrans(c, va, mode);
    match t.0
    case Fault(code, _) => Faulted(code, t.1, m)
    case Mapped(pa, _) =>
      match Load(m.space, m.big, width, Phys(pa), mode)
      case Raised(code, _) => Faulted(code, t.1, m)
      case Value(value) => Done(Loaded(value, t.0), t.1, m)
  }

  ghost function FlatSent(c: Cp0.State, m: Caches.State, width: Width, a: Address, data: bv32): (r: Attempt<()>)
    ensures r.cp0 == c
  {
    match StoreOutcome(m.space, width, a)
    case Raised(code, _) => Faulted(code, c, m)
    case Value(_) => Done((), c, m.(space := Store(m.space, m.big, width, a, data)))
  }

  ghost function FlatStored(c: Cp0.State, m: Caches.State, va: bv32, width: Width, data: bv32): (r: Attempt<()>)
    requires c.Valid() && m.Valid()
    ensures r.cp0.Valid()
  {
    var t := AddressTrans(c, va, DataStore);
    match t.0
    case Fault(code, _) => Faulted(code, t.1, m)
    case Mapped(pa, _) => FlatSent(t.1, m, width, Phys(pa), data)
  }

  ghost function FlatStoredPart(c: Cp0.State, m: Caches.State, va: bv32, left: bool, reg: bv32): (r: Attempt<()>)
    requires c.Valid() && m.Valid()
    ensures r.cp0.Valid()
  {
    hide FlatLoaded, WordBase, Phys, StoreMerge, FlatSent;
    match FlatLoaded(c, m, WordBase(va), Word, DataStore)
    case Faulted(code, d, n) => Faulted(code, d, n)
    case Done(l, d, n) => FlatSent(d, n, Word, Phys(l.at.address), StoreMerge(left, m.big, reg, l.data, va))
  }

  // The instructions that load and store, and the width of those that do so at an aligned address.
  predicate AccessesMemory(op: int) { 32 <= op <= 38 || 40 <= op <= 43 || op == 46 }

  function WidthOf(op: int): Width {
    if op in {32, 36, 40} then Byte else if op in {33, 37, 41} then Half else Word
  }

  // The processor without caches.
  ghost predicate FlatAccess(i: bv32, was: Machine, now: Machine)
    requires was.Valid()
  {
    var op, va, data := Opcode(i), Effective(was.reg[Rs(i)], i), was.reg[Rt(i)];
    if op == 34 || op == 38 then
      now == LoadPartEnd(i, op == 34, va, was, FlatLoaded(was.cp0, was.mem, WordBase(va), Word, DataLoad))
    else if op == 42 || op == 46 then
      Completed(was, FlatStoredPart(was.cp0, was.mem, va, op == 42, data), now)
    else if Misaligned(va, WidthOf(op)) then
      now == Excepted(if op >= 40 then AdES else AdEL, NO_COPROCESSOR, was)
    else if op >= 40 then Completed(was, FlatStored(was.cp0, was.mem, va, WidthOf(op), data), now)
    else now == LoadEnd(i, WidthOf(op), op < 36, was, FlatLoaded(was.cp0, was.mem, va, WidthOf(op), DataLoad))
  }

  ghost predicate FlatExecuted(i: bv32, was: Machine, now: Machine)
    requires was.Valid()
  {
    if AccessesMemory(Opcode(i)) then FlatAccess(i, was, now) else Executed(i, was, now)
  }

  ghost function FlatFetchOf(m: Machine): (a: Attempt<Loaded>)
    requires m.Valid()
    ensures Behind(m, a).Valid()
  {
    FlatLoaded(m.cp0, m.mem, m.pc, Word, InstFetch)
  }

  ghost predicate FlatTurned(was: Machine, now: Machine)
    requires was.Valid()
  {
    var a := FlatFetchOf(was);
    var ready := Behind(was, a);
    if a.Faulted? then now == Excepted(a.code, NO_COPROCESSOR, ready)
    else if Interrupted(ready) then now == Excepted(Int, NO_COPROCESSOR, ready)
    else FlatExecuted(a.value.data, ready, now)
  }

  ghost predicate FlatStepped(was: Machine, lines: bv32, now: Machine)
    requires was.Valid() && LinesOk(lines)
  {
    exists turned: Machine :: turned.Valid() && FlatTurned(Begun(was, lines), turned) && now == Finished(turned)
  }

  // The same machine with other contents of its caches.
  type Lines = ls: seq<Caches.Line> | |ls| == Caches.LINES witness EmptyLines()

  function EmptyLines(): (ls: seq<Caches.Line>)
    ensures |ls| == Caches.LINES
  {
    seq(Caches.LINES, i => Caches.Line(false, 0, 0))
  }

  function Refitted(m: Caches.State, x: Lines, y: Lines): Caches.State { m.(icache := x, dcache := y) }

  function Fitted(m: Machine, x: Lines, y: Lines): Machine { m.(mem := Refitted(m.mem, x, y)) }

  function FittedTo<T>(a: Attempt<T>, x: Lines, y: Lines): Attempt<T> { a.(mem := Refitted(a.mem, x, y)) }

  // Memory as it was, but for the control bits of the caches.
  ghost predicate Left(m: Caches.State, n: Caches.State) {
    n == m.(isolated := n.isolated, swapped := n.swapped)
  }

  lemma FittedKeeps(m: Machine, x: Lines, y: Lines)
    ensures var n := Fitted(m, x, y);
            && n.reg == m.reg && n.hi == m.hi && n.lo == m.lo && n.pc == m.pc && n.cp0 == m.cp0 && n.lines == m.lines
            && n.arithmetic == m.arithmetic && n.mem == Refitted(m.mem, x, y)
    ensures m.Valid() ==> Fitted(m, x, y).Valid()
  {
    hide LinesOk, Cp0.State.Valid;
  }

  // The instructions that do not access memory do not look at the caches.
  lemma ExceptedFits(code: Code, ce: bv32, m: Machine, x: Lines, y: Lines)
    requires m.cp0.Valid()
    ensures Excepted(code, ce, Fitted(m, x, y)) == Fitted(Excepted(code, ce, m), x, y)
    ensures Excepted(code, ce, m).mem == m.mem
  {
    hide Cp0.EnterException, Vector, Cp0.State.Valid;
  }

  lemma ChangesFit(m: Machine, r: RegNo, d: bv32, target: bv32, x: Lines, y: Lines)
    requires |m.reg| == 32
    ensures With(Fitted(m, x, y), r, d) == Fitted(With(m, r, d), x, y) && |With(m, r, d).reg| == 32
    ensures Jump(target, Fitted(m, x, y)) == Fitted(Jump(target, m), x, y)
    ensures With(m, r, d).mem == m.mem && Jump(target, m).mem == m.mem
  {
  }

  lemma OverflowFits(rd: RegNo, a: bv32, b: bv32, subtract: bool, was: Machine, now: Machine, x: Lines, y: Lines)
    requires was.Valid() && OverflowDone(rd, a, b, subtract, was, now)
    ensures Fitted(was, x, y).Valid() && OverflowDone(rd, a, b, subtract, Fitted(was, x, y), Fitted(now, x, y))
    ensures now.mem == was.mem
  {
    hide Excepted, With, LinesOk, Cp0.State.Valid, Caches.State.Valid, Fitted, Signed;
    FittedKeeps(was, x, y);
    ExceptedFits(Ov, NO_COPROCESSOR, was, x, y);
    forall d {
      ChangesFit(was, rd, d, 0, x, y);
    }
  }

  lemma JumpRegisterFits(i: bv32, link: bool, was: Machine, now: Machine, x: Lines, y: Lines)
    requires was.Valid() && JumpRegisterDone(i, link, was, now)
    ensures Fitted(was, x, y).Valid() && JumpRegisterDone(i, link, Fitted(was, x, y), Fitted(now, x, y))
    ensures now.mem == was.mem
  {
    hide Excepted, LinesOk, Cp0.State.Valid, Rs, Rd, LinkAddress;
    ExceptedFits(RI, NO_COPROCESSOR, was, x, y);
  }

  lemma ProductFits(i: bv32, signed: bool, was: Machine, now: Machine, x: Lines, y: Lines)
    requires was.Valid() && MultiplyDone(i, signed, was, now)
    ensures Fitted(was, x, y).Valid() && MultiplyDone(i, signed, Fitted(was, x, y), Fitted(now, x, y))
    ensures now.mem == was.mem
  {
    hide Excepted, LinesOk, Cp0.State.Valid, Rs, Rt, Rd, Signed, Instructions.Number;
    ExceptedFits(RI, NO_COPROCESSOR, was, x, y);
  }

  lemma QuotientFits(i: bv32, signed: bool, was: Machine, now: Machine, x: Lines, y: Lines)
    requires was.Valid() && DivideDone(i, signed, was, now)
    ensures Fitted(was, x, y).Valid() && DivideDone(i, signed, Fitted(was, x, y), Fitted(now, x, y))
    ensures now.mem == was.mem
  {
    hide LinesOk, Cp0.State.Valid, Rs, Rt;
  }

  lemma MoveToFits(i: bv32, high: bool, was: Machine, now: Machine, x: Lines, y: Lines)
    requires was.Valid() && MoveToDone(i, high, was, now)
    ensures Fitted(was, x, y).Valid() && MoveToDone(i, high, Fitted(was, x, y), Fitted(now, x, y))
    ensures now.mem == was.mem
  {
    hide Excepted, LinesOk, Cp0.State.Valid, Rs, Rd;
    ExceptedFits(RI, NO_COPROCESSOR, was, x, y);
  }

  lemma FunctFits(i: bv32, was: Machine, now: Machine, x: Lines, y: Lines)
    requires was.Valid() && FunctDone(i, was, now)
    ensures Fitted(was, x, y).Valid() && FunctDone(i, Fitted(was, x, y), Fitted(now, x, y))
    ensures now.mem == was.mem
  {
    hide Excepted, With, OverflowDone, JumpRegisterDone, MoveToDone, MultiplyDone, DivideDone, Funct, Computed,
         Computes, Rs, Rt, Rd, LinesOk, Cp0.State.Valid, Caches.State.Valid, Fitted;
    FittedKeeps(was, x, y);
    var f := Funct(i);
    if Computes(f) {
      ChangesFit(was, Rd(i), Computed(was.arithmetic, i, was.reg[Rs(i)], was.reg[Rt(i)]), 0, x, y);
    } else if f == 32 || f == 34 {
      OverflowFits(Rd(i), was.reg[Rs(i)], was.reg[Rt(i)], f == 34, was, now, x, y);
    } else if f == 8 || f == 9 {
      JumpRegisterFits(i, f == 9, was, now, x, y);
    } else if f == 16 || f == 18 {
      ChangesFit(was, Rd(i), if f == 16 then was.hi else was.lo, 0, x, y);
    } else if f == 17 || f == 19 {
      MoveToFits(i, f == 17, was, now, x, y);
    } else if f == 24 || f == 25 {
      ProductFits(i, f == 24, was, now, x, y);
    } else if f == 26 || f == 27 {
      QuotientFits(i, f == 26, was, now, x, y);
    } else {
      ExceptedFits(if f == 12 then Sys else if f == 13 then Bp else RI, NO_COPROCESSOR, was, x, y);
    }
  }

  lemma RegimmFits(i: bv32, was: Machine, now: Machine, x: Lines, y: Lines)
    requires was.Valid() && RegimmDone(i, was, now)
    ensures Fitted(was, x, y).Valid() && RegimmDone(i, Fitted(was, x, y), Fitted(now, x, y))
    ensures now.mem == was.mem
  {
    hide Excepted, With, Jump, LinesOk, Cp0.State.Valid, Caches.State.Valid, Fitted, Rs, Rt, IsRegimm, Links,
         RegimmTaken, BranchTarget, LinkAddress;
    FittedKeeps(was, x, y);
    ExceptedFits(RI, NO_COPROCESSOR, was, x, y);
    var m := if Links(Rt(i)) then With(was, 31, LinkAddress(was.pc)) else was;
    ChangesFit(was, 31, LinkAddress(was.pc), 0, x, y);
    FittedKeeps(m, x, y);
    ChangesFit(m, 0, 0, BranchTarget(i, was.pc), x, y);
  }

  lemma BranchFits(i: bv32, op: int, was: Machine, now: Machine, x: Lines, y: Lines)
    requires was.Valid() && BranchDone(i, op, was, now)
    ensures Fitted(was, x, y).Valid() && BranchDone(i, op, Fitted(was, x, y), Fitted(now, x, y))
    ensures now.mem == was.mem
  {
    hide Excepted, Jump, LinesOk, Cp0.State.Valid, Caches.State.Valid, Fitted, Rs, Rt, BranchTaken, BranchTarget;
    FittedKeeps(was, x, y);
    ExceptedFits(RI, NO_COPROCESSOR, was, x, y);
    ChangesFit(was, 0, 0, BranchTarget(i, was.pc), x, y);
  }

  lemma JumpFits(i: bv32, link: bool, was: Machine, now: Machine, x: Lines, y: Lines)
    requires was.Valid() && JumpDone(i, link, was, now)
    ensures Fitted(was, x, y).Valid() && JumpDone(i, link, Fitted(was, x, y), Fitted(now, x, y))
    ensures now.mem == was.mem
  {
    hide LinesOk, Cp0.State.Valid, JumpTarget, LinkAddress;
  }

  lemma CpOneFits(i: bv32, was: Machine, now: Machine, x: Lines, y: Lines)
    requires was.Valid() && CpOneDone(i, was, now)
    ensures Fitted(was, x, y).Valid() && CpOneDone(i, Fitted(was, x, y), Fitted(now, x, y))
    ensures now.mem == was.mem
  {
    hide Excepted, LinesOk, Cp0.State.Valid, Rs, Rt, Rd, CopOneUsable;
    ExceptedFits(CpU, 1, was, x, y);
  }

  lemma ControlFits(m: Machine, c: Cp0.State, x: Lines, y: Lines)
    ensures Fitted(m, x, y).(cp0 := c) == Fitted(m.(cp0 := c), x, y) && |m.(cp0 := c).reg| == |m.reg|
  {
  }

  lemma CpzeroRunFits(i: bv32, was: Machine, x: Lines, y: Lines)
    requires was.Valid()
    ensures Fitted(was, x, y).Valid() && CpzeroRun(i, Fitted(was, x, y)) == Fitted(CpzeroRun(i, was), x, y)
  {
    hide Excepted, With, Jump, LinesOk, Cp0.State.Valid, Caches.State.Valid, Rs, Rt, IsBc0, CpzeroOp, Cp0Runs.Apply,
         Cp0.ReadReg, BranchTarget, Fitted;
    FittedKeeps(was, x, y);
    match CpzeroOp(i, was.reg[Rt(i)], was.lines)
    case Does(op) =>
      var c := Cp0Runs.Apply(was.cp0, op);
      ControlFits(was, c, x, y);
      if op.Mfc0? {
        ChangesFit(was.(cp0 := c), Rt(i), Cp0.ReadReg(was.cp0, op.r, op.lines).0, 0, x, y);
      }
    case Fails(code) =>
      ExceptedFits(code, 0, was, x, y);
      ChangesFit(was, 0, 0, BranchTarget(i, was.pc), x, y);
  }

  lemma CpzeroFits(i: bv32, was: Machine, now: Machine, x: Lines, y: Lines)
    requires was.Valid() && CpzeroDone(i, was, now)
    ensures Fitted(was, x, y).Valid() && CpzeroDone(i, Fitted(was, x, y), Fitted(now, x, y))
    ensures Left(was.mem, now.mem)
  {
    hide LinesOk, Cp0.State.Valid, Caches.State.Valid, CpzeroRun, CachesIsolated, CachesSwapped;
    CpzeroRunFits(i, was, x, y);
  }

  lemma LeftAlone(m: Caches.State)
    ensures Left(m, m)
  {
  }

  lemma OtherFits(i: bv32, was: Machine, now: Machine, x: Lines, y: Lines)
    requires was.Valid() && Executed(i, was, now) && !AccessesMemory(Opcode(i))
    ensures Fitted(was, x, y).Valid() && Executed(i, Fitted(was, x, y), Fitted(now, x, y))
    ensures Left(was.mem, now.mem)
  {
    hide Excepted, With, FunctDone, CpzeroDone, LoadDone, LoadPartDone, StoreDone, StorePartDone, RegimmDone, JumpDone,
         BranchDone, OverflowDone, CpOneDone, Opcode, ComputedImmediate, Rs, Rt, SImmed, CoprocessorOf, LinesOk,
         Cp0.State.Valid, Caches.State.Valid, Fitted, Left;
    FittedKeeps(was, x, y);
    LeftAlone(was.mem);
    var op := Opcode(i);
    if op == 0 {
      FunctFits(i, was, now, x, y);
    } else if op == 1 {
      RegimmFits(i, was, now, x, y);
    } else if op == 2 || op == 3 {
      JumpFits(i, op == 3, was, now, x, y);
    } else if 4 <= op <= 7 {
      BranchFits(i, op, was, now, x, y);
    } else if op == 8 {
      OverflowFits(Rt(i), was.reg[Rs(i)], SImmed(i), false, was, now, x, y);
    } else if 9 <= op <= 15 {
      ChangesFit(was, Rt(i), ComputedImmediate(i, was.reg[Rs(i)]), 0, x, y);
    } else if op == 16 {
      CpzeroFits(i, was, now, x, y);
    } else if op == 17 {
      CpOneFits(i, was, now, x, y);
    } else if UsesCoprocessor(op) {
      ExceptedFits(CpU, CoprocessorOf(op), was, x, y);
    } else {
      ExceptedFits(RI, NO_COPROCESSOR, was, x, y);
    }
  }

  // Caches that hold what memory holds; and such that are in use.
  ghost predicate Right(m: Caches.State) { m.Valid() && Caches.BothAgree(m) }

  ghost predicate Sound(m: Caches.State) { Right(m) && !m.isolated }

  lemma FetchFits(m: Caches.State, width: Width, a: Address, mode: Mode, cacheable: bool, x: Lines, y: Lines)
    requires Sound(m)
    ensures var r := Caches.Fetch(m, width, a, mode, cacheable);
            && r.outcome == Load(m.space, m.big, width, a, mode) && Refitted(r.state, x, y) == Refitted(m, x, y)
            && Sound(r.state) && r.state == m.WithLines(mode, r.state.Lines(mode))
  {
    hide Caches.Fetch, Caches.Agrees, Load, WellFormed;
    Caches.FetchAgrees(m, width, a, mode, cacheable);
  }

  lemma LoadFits(c: Cp0.State, m: Caches.State, va: bv32, width: Width, mode: Mode, x: Lines, y: Lines)
    requires c.Valid() && Sound(m)
    ensures var a := LoadedFrom(c, m, va, width, mode);
            && Refitted(m, x, y).Valid() && FlatLoaded(c, Refitted(m, x, y), va, width, mode) == FittedTo(a, x, y)
            && Sound(a.mem) && Refitted(a.mem, x, y) == Refitted(m, x, y)
  {
    hide AddressTrans, Caches.Fetch, Load, Phys, WellFormed, Caches.BothAgree, Cp0.State.Valid;
    var t := AddressTrans(c, va, mode).0;
    if t.Mapped? {
      FetchFits(m, width, Phys(t.address), mode, t.cacheable, x, y);
    }
  }

  // A store that leaves both caches right: not around the data cache to a word that it holds, nor to a
  // word that the instruction cache holds.
  ghost predicate Keeps(m: Caches.State, a: Address, cacheable: bool)
    requires m.Valid()
  {
    var op := Caches.StoreOp(Word, a, 0, cacheable);
    !Caches.Bypasses(m, op) && !Caches.Rewrites(m, op)
  }

  lemma StoreFits(m: Caches.State, width: Width, a: Address, data: bv32, cacheable: bool, x: Lines, y: Lines)
    requires Sound(m) && Keeps(m, a, cacheable)
    ensures var r := Caches.StoreAt(m, width, a, data, cacheable);
            && r.outcome == StoreOutcome(m.space, width, a) && Sound(r.state)
            && Refitted(r.state, x, y) == Refitted(m, x, y).(space := Store(m.space, m.big, width, a, data))
  {
    hide Caches.Agrees, StoreOutcome, WellFormed, Owner, Caches.Merged, Scatter, Memory.Writable;
    var op := Caches.StoreOp(width, a, data, cacheable);
    Caches.DoKeepsBoth(m, op);
    Caches.StoreKeepsCode(m, width, a, data, cacheable);
  }

  lemma SentFits(d: Cp0.State, m: Caches.State, width: Width, a: Address, data: bv32, cacheable: bool, x: Lines,
          y: Lines)
    requires Sound(m) && Keeps(m, a, cacheable)
    ensures var s := Sent(d, Caches.StoreAt(m, width, a, data, cacheable));
            FlatSent(d, Refitted(m, x, y), width, a, data) == FittedTo(s, x, y) && Sound(s.mem)
  {
    hide Caches.StoreAt, StoreOutcome, Store, WellFormed, Caches.BothAgree, Keeps;
    StoreFits(m, width, a, data, cacheable, x, y);
    if StoreOutcome(m.space, width, a).Raised? {
      Caches.FaultyStore(m, width, a, data, cacheable);
    }
  }

  ghost predicate TargetKept(c: Cp0.State, m: Caches.State, va: bv32)
    requires c.Valid() && m.Valid()
  {
    var t := AddressTrans(c, va, DataStore).0;
    t.Mapped? ==> Keeps(m, Phys(t.address), t.cacheable)
  }

  lemma StoredFits(c: Cp0.State, m: Caches.State, va: bv32, width: Width, data: bv32, x: Lines, y: Lines)
    requires c.Valid() && Sound(m) && TargetKept(c, m, va)
    ensures var s := StoredTo(c, m, va, width, data);
            && Refitted(m, x, y).Valid() && FlatStored(c, Refitted(m, x, y), va, width, data) == FittedTo(s, x, y)
            && Sound(s.mem)
  {
    hide AddressTrans, Caches.StoreAt, Sent, FlatSent, Phys, WellFormed, Caches.BothAgree, Keeps, Cp0.State.Valid;
    var t := AddressTrans(c, va, DataStore);
    if t.0.Mapped? {
      SentFits(t.1, m, width, Phys(t.0.address), data, t.0.cacheable, x, y);
    }
  }

  // A load before the store changes nothing in this.
  lemma KeptAfterLoad(m: Caches.State, a: Address, cacheable: bool)
    requires Sound(m) && Keeps(m, a, cacheable)
    ensures var n := Caches.Fetch(m, Word, a, DataStore, cacheable).state;
            Sound(n) && Keeps(n, a, cacheable)
  {
    hide Load, WellFormed, Caches.BothAgree, Caches.LineHolds, Caches.Part, Gather, Caches.Hit, Memory.Readable;
    FetchFits(m, Word, a, DataStore, cacheable, EmptyLines(), EmptyLines());
  }

  lemma StoredPartFits(c: Cp0.State, m: Caches.State, va: bv32, left: bool, reg: bv32, x: Lines, y: Lines)
    requires c.Valid() && Sound(m) && TargetKept(c, m, WordBase(va))
    ensures var s := StoredPart(c, m, va, left, reg);
            && Refitted(m, x, y).Valid() && FlatStoredPart(c, Refitted(m, x, y), va, left, reg) == FittedTo(s, x, y)
            && Sound(s.mem)
  {
    hide AddressTrans, Caches.StoreAt, Caches.Fetch, Sent, FlatSent, FlatLoaded, Phys, WellFormed, Caches.BothAgree,
         Keeps, StoreMerge, WordBase, Cp0.State.Valid;
    LoadFits(c, m, WordBase(va), Word, DataStore, x, y);
    var t := AddressTrans(c, WordBase(va), DataStore).0;
    var l := LoadedFrom(c, m, WordBase(va), Word, DataStore);
    if l.Done? {
      KeptAfterLoad(m, Phys(t.address), t.cacheable);
      SentFits(l.cp0, l.mem, Word, Phys(t.address), StoreMerge(left, m.big, reg, l.value.data, va), t.cacheable, x, y);
    }
  }

  lemma LoadEndFits(i: bv32, width: Width, signed: bool, was: Machine, a: Attempt<Loaded>, x: Lines, y: Lines)
    requires |was.reg| == 32 && a.cp0.Valid()
    ensures var now := LoadEnd(i, width, signed, was, a);
            LoadEnd(i, width, signed, Fitted(was, x, y), FittedTo(a, x, y)) == Fitted(now, x, y) && now.mem == a.mem
  {
    hide Excepted, Extended, Rt, Cp0.State.Valid;
    ExceptedFits(if a.Faulted? then a.code else RI, NO_COPROCESSOR, Behind(was, a), x, y);
  }

  lemma LoadPartEndFits(i: bv32, left: bool, va: bv32, was: Machine, a: Attempt<Loaded>, x: Lines, y: Lines)
    requires |was.reg| == 32 && a.cp0.Valid()
    ensures var now := LoadPartEnd(i, left, va, was, a);
            LoadPartEnd(i, left, va, Fitted(was, x, y), FittedTo(a, x, y)) == Fitted(now, x, y) && now.mem == a.mem
  {
    hide Excepted, LoadMerge, Rt, Cp0.State.Valid;
    ExceptedFits(if a.Faulted? then a.code else RI, NO_COPROCESSOR, Behind(was, a), x, y);
  }

  lemma CompletedFits(was: Machine, a: Attempt<()>, now: Machine, x: Lines, y: Lines)
    requires |was.reg| == 32 && a.cp0.Valid() && Completed(was, a, now)
    ensures Completed(Fitted(was, x, y), FittedTo(a, x, y), Fitted(now, x, y)) && now.mem == a.mem
  {
    hide Excepted, Cp0.State.Valid;
    ExceptedFits(if a.Faulted? then a.code else RI, NO_COPROCESSOR, Behind(was, a), x, y);
  }

  lemma LeftIsRight(m: Caches.State, n: Caches.State)
    requires Right(m) && Left(m, n)
    ensures Right(n)
  {
    hide WellFormed, Caches.Agrees;
  }

  // The instruction stores, if at all, to a word that both caches will still hold rightly.
  ghost predicate Clean(i: bv32, m: Machine)
    requires m.Valid()
  {
    AccessesMemory(Opcode(i)) && Opcode(i) >= 40 ==> TargetKept(m.cp0, m.mem, AccessOf(i, m).va)
  }

  lemma LoadIsFlat(i: bv32, was: Machine, now: Machine, x: Lines, y: Lines)
    requires was.Valid() && Sound(was.mem) && Opcode(i) in {32, 33, 35, 36, 37}
    requires LoadDone(i, WidthOf(Opcode(i)), Opcode(i) < 36, was, now)
    ensures Fitted(was, x, y).Valid() && FlatAccess(i, Fitted(was, x, y), Fitted(now, x, y)) && Right(now.mem)
  {
    hide Excepted, LoadEnd, Effective, Misaligned, Opcode, Rs, Rt, LoadedFrom, FlatLoaded, LinesOk, Cp0.State.Valid,
         Caches.BothAgree, WellFormed, Fitted, WidthOf, LoadPartEnd, Completed, FlatStored, FlatStoredPart;
    FittedKeeps(was, x, y);
    var va, width := Effective(was.reg[Rs(i)], i), WidthOf(Opcode(i));
    if Misaligned(va, width) {
      ExceptedFits(AdEL, NO_COPROCESSOR, was, x, y);
    } else {
      LoadFits(was.cp0, was.mem, va, width, DataLoad, x, y);
      LoadEndFits(i, width, Opcode(i) < 36, was, LoadedFrom(was.cp0, was.mem, va, width, DataLoad), x, y);
    }
  }

  lemma LoadPartIsFlat(i: bv32, was: Machine, now: Machine, x: Lines, y: Lines)
    requires was.Valid() && Sound(was.mem) && Opcode(i) in {34, 38} && LoadPartDone(i, Opcode(i) == 34, was, now)
    ensures Fitted(was, x, y).Valid() && FlatAccess(i, Fitted(was, x, y), Fitted(now, x, y)) && Right(now.mem)
  {
    hide Excepted, LoadPartEnd, Effective, WordBase, Opcode, Rs, Rt, LoadedFrom, FlatLoaded, LinesOk, Cp0.State.Valid,
         Caches.BothAgree, WellFormed, Fitted;
    FittedKeeps(was, x, y);
    var va, left := Effective(was.reg[Rs(i)], i), Opcode(i) == 34;
    LoadFits(was.cp0, was.mem, WordBase(va), Word, DataLoad, x, y);
    LoadPartEndFits(i, left, va, was, LoadedFrom(was.cp0, was.mem, WordBase(va), Word, DataLoad), x, y);
  }

  lemma StoreIsFlat(i: bv32, was: Machine, now: Machine, x: Lines, y: Lines)
    requires was.Valid() && Sound(was.mem) && Opcode(i) in {40, 41, 43} && Clean(i, was)
    requires StoreDone(i, WidthOf(Opcode(i)), was, now)
    ensures Fitted(was, x, y).Valid() && FlatAccess(i, Fitted(was, x, y), Fitted(now, x, y)) && Right(now.mem)
  {
    hide Excepted, Completed, Effective, Misaligned, Opcode, Rs, Rt, StoredTo, FlatStored, TargetKept, LinesOk,
         Cp0.State.Valid, Caches.BothAgree, WellFormed, Fitted, WidthOf;
    FittedKeeps(was, x, y);
    var va, width, data := Effective(was.reg[Rs(i)], i), WidthOf(Opcode(i)), was.reg[Rt(i)];
    if Misaligned(va, width) {
      ExceptedFits(AdES, NO_COPROCESSOR, was, x, y);
    } else {
      StoredFits(was.cp0, was.mem, va, width, data, x, y);
      CompletedFits(was, StoredTo(was.cp0, was.mem, va, width, data), now, x, y);
    }
  }

  lemma StorePartIsFlat(i: bv32, was: Machine, now: Machine, x: Lines, y: Lines)
    requires was.Valid() && Sound(was.mem) && Opcode(i) in {42, 46} && Clean(i, was)
    requires StorePartDone(i, Opcode(i) == 42, was, now)
    ensures Fitted(was, x, y).Valid() && FlatAccess(i, Fitted(was, x, y), Fitted(now, x, y)) && Right(now.mem)
  {
    hide Excepted, Completed, Effective, WordBase, Opcode, Rs, Rt, StoredPart, FlatStoredPart, TargetKept, LinesOk,
         Cp0.State.Valid, Caches.BothAgree, WellFormed, Fitted;
    FittedKeeps(was, x, y);
    var va, left, data := Effective(was.reg[Rs(i)], i), Opcode(i) == 42, was.reg[Rt(i)];
    StoredPartFits(was.cp0, was.mem, va, left, data, x, y);
    CompletedFits(was, StoredPart(was.cp0, was.mem, va, left, data), now, x, y);
  }

  lemma ExecutedIsFlat(i: bv32, was: Machine, now: Machine, x: Lines, y: Lines)
    requires was.Valid() && Sound(was.mem) && Executed(i, was, now) && Clean(i, was)
    ensures Fitted(was, x, y).Valid() && FlatExecuted(i, Fitted(was, x, y), Fitted(now, x, y)) && Right(now.mem)
  {
    hide LoadDone, LoadPartDone, StoreDone, StorePartDone, FlatAccess, Fitted, Opcode, Clean, LinesOk, Cp0.State.Valid,
         Caches.BothAgree, WellFormed, Left;
    if !AccessesMemory(Opcode(i)) {
      OtherFits(i, was, now, x, y);
      LeftIsRight(was.mem, now.mem);
    } else if Opcode(i) in {34, 38} {
      LoadPartIsFlat(i, was, now, x, y);
    } else if Opcode(i) in {42, 46} {
      StorePartIsFlat(i, was, now, x, y);
    } else if Opcode(i) < 40 {
      LoadIsFlat(i, was, now, x, y);
    } else {
      StoreIsFlat(i, was, now, x, y);
    }
  }

  // What a turn needs for this: caches in use, and a clean instruction.
  ghost predicate CleanTurn(was: Machine)
    requires was.Valid()
  {
    && !was.mem.isolated
    && (FetchOf(was).Done? && !Interrupted(Readied(was)) ==> Clean(FetchOf(was).value.data, Readied(was)))
  }

  lemma TurnIsFlat(was: Machine, now: Machine, x: Lines, y: Lines)
    requires was.Valid() && Right(was.mem) && CleanTurn(was) && Turned(was, now)
    ensures Fitted(was, x, y).Valid() && FlatTurned(Fitted(was, x, y), Fitted(now, x, y)) && Right(now.mem)
  {
    hide Excepted, Executed, FlatExecuted, LoadedFrom, FlatLoaded, Clean, LinesOk, Cp0.State.Valid, Caches.BothAgree,
         WellFormed, Cp0.InterruptPending;
    LoadFits(was.cp0, was.mem, was.pc, Word, InstFetch, x, y);
    var a, ready := FetchOf(was), Readied(was);
    if a.Faulted? {
      ExceptedFits(a.code, NO_COPROCESSOR, ready, x, y);
    } else if Interrupted(ready) {
      ExceptedFits(Int, NO_COPROCESSOR, ready, x, y);
    } else {
      ExecutedIsFlat(a.value.data, ready, now, x, y);
    }
  }

  ghost predicate CleanStep(was: Machine, lines: bv32)
    requires was.Valid() && LinesOk(lines)
  {
    CleanTurn(Begun(was, lines))
  }

  lemma BegunFits(was: Machine, lines: bv32, x: Lines, y: Lines)
    requires was.Valid() && LinesOk(lines)
    ensures Fitted(was, x, y).Valid() && Begun(Fitted(was, x, y), lines) == Fitted(Begun(was, lines), x, y)
    ensures Begun(was, lines).mem == was.mem
  {
    hide LinesOk, Cp0.AdjustRandom, Cp0.State.Valid;
  }

  lemma FinishedFits(m: Machine, x: Lines, y: Lines)
    requires |m.reg| == 32
    ensures Finished(Fitted(m, x, y)) == Fitted(Finished(m), x, y) && Finished(m).mem == m.mem
  {
    hide Plus4;
  }

  // A clean step is, whatever is put into the caches, a step of the processor without them.
  lemma StepIsFlat(was: Machine, lines: bv32, now: Machine, x: Lines, y: Lines)
    requires was.Valid() && Right(was.mem) && LinesOk(lines) && CleanStep(was, lines) && Stepped(was, lines, now)
    ensures Fitted(was, x, y).Valid() && FlatStepped(Fitted(was, x, y), lines, Fitted(now, x, y)) && Right(now.mem)
  {
    hide Turned, FlatTurned, CleanTurn, Begun, Finished, Fitted, LinesOk, Cp0.State.Valid, Caches.BothAgree,
         WellFormed;
    var begun := Begun(was, lines);
    var turned: Machine :| turned.Valid() && Turned(begun, turned) && now == Finished(turned);
    BegunFits(was, lines, x, y);
    TurnIsFlat(begun, turned, x, y);
    FittedKeeps(turned, x, y);
    FinishedFits(turned, x, y);
  }

  // And the other way: what the processor without caches does, the one with them does.
  lemma CompletionHappens(was: Machine, a: Attempt<()>) returns (now: Machine)
    requires a.cp0.Valid()
    ensures Completed(was, a, now)
  {
    now := if a.Faulted? then Excepted(a.code, NO_COPROCESSOR, Behind(was, a)) else Behind(was, a);
  }

  lemma LoadHappens(i: bv32, width: Width, signed: bool, was: Machine) returns (now: Machine)
    requires was.Valid()
    ensures LoadDone(i, width, signed, was, now)
  {
    hide Excepted, LoadEnd, Effective, Misaligned, Rs, LoadedFrom, LinesOk, Cp0.State.Valid, Caches.State.Valid;
    var va := Effective(was.reg[Rs(i)], i);
    now := if Misaligned(va, width) then Excepted(AdEL, NO_COPROCESSOR, was)
           else LoadEnd(i, width, signed, was, LoadedFrom(was.cp0, was.mem, va, width, DataLoad));
  }

  lemma StoreHappens(i: bv32, width: Width, was: Machine) returns (now: Machine)
    requires was.Valid()
    ensures StoreDone(i, width, was, now)
  {
    hide Excepted, Completed, Effective, Misaligned, Rs, Rt, StoredTo, LinesOk, Cp0.State.Valid, Caches.State.Valid;
    var va := Effective(was.reg[Rs(i)], i);
    if Misaligned(va, width) {
      now := Excepted(AdES, NO_COPROCESSOR, was);
    } else {
      now := CompletionHappens(was, StoredTo(was.cp0, was.mem, va, width, was.reg[Rt(i)]));
    }
  }

  lemma PartHappens(i: bv32, left: bool, was: Machine) returns (loaded: Machine, stored: Machine)
    requires was.Valid()
    ensures LoadPartDone(i, left, was, loaded) && StorePartDone(i, left, was, stored)
  {
    hide Completed, LoadPartEnd, Effective, WordBase, Rs, Rt, LoadedFrom, StoredPart, LinesOk, Cp0.State.Valid,
         Caches.State.Valid;
    var va := Effective(was.reg[Rs(i)], i);
    loaded := LoadPartEnd(i, left, va, was, LoadedFrom(was.cp0, was.mem, WordBase(va), Word, DataLoad));
    stored := CompletionHappens(was, StoredPart(was.cp0, was.mem, va, left, was.reg[Rt(i)]));
  }

  lemma AccessHappens(i: bv32, was: Machine) returns (now: Machine)
    requires was.Valid() && AccessesMemory(Opcode(i))
    ensures Executed(i, was, now)
  {
    hide LoadDone, LoadPartDone, StoreDone, StorePartDone, Opcode, LinesOk, Cp0.State.Valid, Caches.State.Valid,
         FunctDone, CpzeroDone, RegimmDone, JumpDone, BranchDone, OverflowDone, CpOneDone, ComputedImmediate, With, Rs,
         Rt, SImmed, Excepted, CoprocessorOf;
    var op := Opcode(i);
    if op in {34, 38, 42, 46} {
      var loaded, stored := PartHappens(i, op in {34, 42}, was);
      now := if op < 40 then loaded else stored;
    } else if op < 40 {
      now := LoadHappens(i, WidthOf(op), op < 36, was);
    } else {
      now := StoreHappens(i, WidthOf(op), was);
    }
  }

  lemma FlatAccessOnce(i: bv32, was: Machine, m: Machine, n: Machine)
    requires was.Valid() && FlatAccess(i, was, m) && FlatAccess(i, was, n)
    ensures m == n
  {
    hide Excepted, LoadEnd, LoadPartEnd, Effective, Misaligned, WordBase, Opcode, Rs, Rt, FlatLoaded, FlatStored,
         FlatStoredPart, LinesOk, Cp0.State.Valid, Caches.State.Valid;
  }

  lemma FittedBack(m: Machine, x: Lines, y: Lines, n: Machine)
    requires m.Valid() && Left(Fitted(m, x, y).mem, n.mem)
    ensures Fitted(Fitted(m, x, y), m.mem.icache, m.mem.dcache) == m
    ensures Fitted(Fitted(n, m.mem.icache, m.mem.dcache), x, y) == n
  {
    hide LinesOk, Cp0.State.Valid;
  }

  lemma FlatIsExecuted(i: bv32, was: Machine, n: Machine, x: Lines, y: Lines) returns (now: Machine)
    requires was.Valid() && Sound(was.mem) && Clean(i, was) && Fitted(was, x, y).Valid()
    requires FlatExecuted(i, Fitted(was, x, y), n)
    ensures Executed(i, was, now) && Fitted(now, x, y) == n
  {
    hide Executed, FlatAccess, Fitted, Opcode, Clean, LinesOk, Cp0.State.Valid, Caches.BothAgree, WellFormed, Left;
    if AccessesMemory(Opcode(i)) {
      now := AccessHappens(i, was);
      ExecutedIsFlat(i, was, now, x, y);
      FlatAccessOnce(i, Fitted(was, x, y), Fitted(now, x, y), n);
    } else {
      now := Fitted(n, was.mem.icache, was.mem.dcache);
      OtherFits(i, Fitted(was, x, y), n, was.mem.icache, was.mem.dcache);
      FittedBack(was, x, y, n);
    }
  }

  lemma FlatIsTurned(was: Machine, n: Machine, x: Lines, y: Lines) returns (now: Machine)
    requires was.Valid() && Right(was.mem) && CleanTurn(was) && Fitted(was, x, y).Valid()
        && FlatTurned(Fitted(was, x, y), n)
    ensures Turned(was, now) && Fitted(now, x, y) == n
  {
    hide Excepted, Executed, FlatExecuted, LoadedFrom, FlatLoaded, Clean, LinesOk, Cp0.State.Valid, Caches.BothAgree,
         WellFormed, Cp0.InterruptPending;
    LoadFits(was.cp0, was.mem, was.pc, Word, InstFetch, x, y);
    var a, ready := FetchOf(was), Readied(was);
    if a.Faulted? {
      now := Excepted(a.code, NO_COPROCESSOR, ready);
      ExceptedFits(a.code, NO_COPROCESSOR, ready, x, y);
    } else if Interrupted(ready) {
      now := Excepted(Int, NO_COPROCESSOR, ready);
      ExceptedFits(Int, NO_COPROCESSOR, ready, x, y);
    } else {
      now := FlatIsExecuted(a.value.data, ready, n, x, y);
    }
  }

  lemma UnfittedIsValid(m: Machine, x: Lines, y: Lines)
    requires Fitted(m, x, y).Valid() && Right(m.mem)
    ensures m.Valid()
  {
    hide LinesOk, Cp0.State.Valid, WellFormed, Caches.BothAgree;
  }

  lemma FlatIsStepped(was: Machine, lines: bv32, n: Machine, x: Lines, y: Lines) returns (now: Machine)
    requires was.Valid() && Right(was.mem) && LinesOk(lines) && CleanStep(was, lines)
    requires Fitted(was, x, y).Valid() && FlatStepped(Fitted(was, x, y), lines, n)
    ensures Stepped(was, lines, now) && Fitted(now, x, y) == n
  {
    hide Turned, FlatTurned, CleanTurn, Begun, Finished, Fitted, LinesOk, Cp0.State.Valid, Caches.BothAgree,
         WellFormed;
    BegunFits(was, lines, x, y);
    var begun := Begun(was, lines);
    FittedKeeps(begun, x, y);
    var flat: Machine :| flat.Valid() && FlatTurned(Fitted(begun, x, y), flat) && n == Finished(flat);
    var turned := FlatIsTurned(begun, flat, x, y);
    TurnIsFlat(begun, turned, x, y);
    UnfittedIsValid(turned, x, y);
    FinishedFits(turned, x, y);
    now := Finished(turned);
  }

  // Runs.
  ghost predicate FlatRuns(ms: seq<Machine>, lines: seq<bv32>)
    decreases |lines|
  {
    |ms| == |lines| + 1 && ms[0].Valid()
    && (lines == [] || (LinesOk(lines[0]) && FlatStepped(ms[0], lines[0], ms[1]) && FlatRuns(ms[1..], lines[1..])))
  }

  ghost predicate CleanRun(ms: seq<Machine>, lines: seq<bv32>)
    requires Runs(ms, lines)
    decreases |lines|
  {
    lines == [] || (CleanStep(ms[0], lines[0]) && CleanRun(ms[1..], lines[1..]))
  }

  function AllFitted(ms: seq<Machine>, x: Lines, y: Lines): (ns: seq<Machine>)
    ensures |ns| == |ms| && forall k :: 0 <= k < |ms| ==> ns[k] == Fitted(ms[k], x, y)
  {
    if ms == [] then [] else [Fitted(ms[0], x, y)] + AllFitted(ms[1..], x, y)
  }

  // Over every clean run the caches cannot be told from none: whatever is put into them, the same
  // registers, control, coprocessor and memory, step by step, are a run of the processor without caches.
  lemma {:induction false} RunIsFlat(ms: seq<Machine>, lines: seq<bv32>, x: Lines, y: Lines)
    requires Runs(ms, lines) && Right(ms[0].mem) && CleanRun(ms, lines)
    ensures FlatRuns(AllFitted(ms, x, y), lines) && Right(ms[|ms| - 1].mem)
    decreases |lines|
  {
    hide Stepped, FlatStepped, CleanStep, Fitted, Right, LinesOk, Machine.Valid;
    FittedKeeps(ms[0], x, y);
    if lines != [] {
      StepIsFlat(ms[0], lines[0], ms[1], x, y);
      RunIsFlat(ms[1..], lines[1..], x, y);
      assert AllFitted(ms, x, y)[1..] == AllFitted(ms[1..], x, y);
    }
  }

  lemma RunGrows(m: Machine, line: bv32, rest: seq<Machine>, lines: seq<bv32>)
    requires m.Valid() && LinesOk(line) && CleanStep(m, line)
    requires Runs(rest, lines) && CleanRun(rest, lines) && Stepped(m, line, rest[0])
    ensures Runs([m] + rest, [line] + lines) && CleanRun([m] + rest, [line] + lines)
  {
    hide Stepped, CleanStep, LinesOk, Machine.Valid;
    assert ([m] + rest)[1..] == rest && ([line] + lines)[1..] == lines;
  }

  // And every run of the processor without caches is, up to the first step that is not clean, one of
  // the processor with them.
  lemma {:induction false} FlatRunIsRun(m: Machine, ns: seq<Machine>, lines: seq<bv32>, x: Lines, y: Lines)
    returns (ms: seq<Machine>)
    requires m.Valid() && Right(m.mem) && FlatRuns(ns, lines) && ns[0] == Fitted(m, x, y)
    ensures 0 < |ms| <= |ns| && ms[0] == m && AllFitted(ms, x, y) == ns[..|ms|]
    ensures Runs(ms, lines[..|ms| - 1]) && CleanRun(ms, lines[..|ms| - 1])
    ensures |ms| < |ns| ==>
              var last, line := ms[|ms| - 1], lines[|ms| - 1];
              last.Valid() && LinesOk(line) && !CleanStep(last, line)
    decreases |lines|
  {
    hide Stepped, FlatStepped, CleanStep, Fitted, Right, LinesOk, Machine.Valid, AllFitted;
    if lines == [] || !CleanStep(m, lines[0]) {
      ms := [m];
    } else {
      var next := FlatIsStepped(m, lines[0], ns[1], x, y);
      SteppedIsValid(m, lines[0], next);
      StepIsFlat(m, lines[0], next, x, y);
      var rest := FlatRunIsRun(next, ns[1..], lines[1..], x, y);
      RunGrows(m, lines[0], rest, lines[1..][..|rest| - 1]);
      ms := [m] + rest;
      assert lines[..|ms| - 1] == [lines[0]] + lines[1..][..|rest| - 1];
    }
  }
}
