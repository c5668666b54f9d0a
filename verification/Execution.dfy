/** What each instruction does to the machine. */
module Execution {
  import opened Exceptions
  import opened Memory
  import Caches
  import opened Cp0
  import opened Cp0Registers
  import opened Cp0Runs
  import opened Instructions
  import opened DelaySlot
  import opened Division
  import Multiply
  import Unaligned

  // What exception() is told when no coprocessor is concerned.
  const NO_COPROCESSOR: bv32 := 0xffff_ffff

  // The rank of an exception. TLBS and the wildcard have the same number in the source's
  // table, so that its rows for TLBS match every code.
  function Priority(code: Code, mode: Mode): int {
    if code == AdEL && mode == InstFetch then 1
    else if mode == InstFetch then 2
    else if code == IBE then 3
    else if code in {Ov, Sys, Bp, RI, CpU} then 4
    else if (code == AdEL && mode == DataLoad) || code == AdES then 5
    else if mode == DataLoad || mode == DataStore then 6
    else if code == Mod then 7
    else if code == DBE then 8
    else if code == Int then 9
    else 0
  }

  function Vector(status: bv32, refill: bool): bv32 {
    (if status & 0x0040_0000 != 0 then 0xbfc0_0100 else 0x8000_0000) + (if refill then 0 else 0x80)
  }

  predicate SlotBit(cause: bv32) { cause & 0x8000_0000 != 0 }

  function CodeField(cause: bv32): bv32 { (cause & 0x7c) >> 2 }

  // The controller's lines are interrupt bits of the Cause register.
  predicate LinesOk(lines: bv32) { lines & !IP_MASK == 0 }

  lemma TrapTellsTheSlot(cause: bv32, code: Code, ce: bv32, delaySlot: bool, lines: bv32)
    requires LinesOk(lines)
    ensures SlotBit(CauseOf(cause, code, ce, delaySlot, lines)) <==> delaySlot
  {
    CauseTellsTheSlot(cause, code, ce, delaySlot, lines);
    hide CauseOf;
  }

  lemma TrapTellsTheCode(cause: bv32, code: Code, ce: bv32, delaySlot: bool, lines: bv32)
    requires LinesOk(lines)
    ensures CodeField(CauseOf(cause, code, ce, delaySlot, lines)) == Exceptions.Number(code)
  {
    CauseTellsTheCode(cause, code, ce, delaySlot, lines);
    hide CauseOf, Exceptions.Number;
  }

  lemma EnteredRegisters(s: Cp0.State, pc: bv32, code: Code, ce: bv32, delaySlot: bool, lines: bv32)
    requires s.Valid() && LinesOk(lines)
    ensures var t := Cp0.EnterException(s, pc, code, ce, delaySlot, lines);
            t.Valid() && t.reg[EPC] == pc && (SlotBit(t.reg[CAUSE]) <==> delaySlot)
            && CodeField(t.reg[CAUSE]) == Exceptions.Number(code)
  {
    TrapTellsTheSlot(s.reg[CAUSE], code, ce, delaySlot, lines);
    TrapTellsTheCode(s.reg[CAUSE], code, ce, delaySlot, lines);
    hide CauseOf, PushModes, SlotBit, CodeField, LinesOk, CodeField, Exceptions.Number;
  }

  // A physical address as a number.
  function Phys(pa: bv32): Address { pa as int }

  // What an instruction comes to: an exception, or a value.
  datatype Result<T> = Fails(code: Code) | Does(value: T)

  // What an access to memory comes to, and the coprocessor and memory as it leaves them.
  datatype Attempt<T> = Faulted(code: Code, cp0: Cp0.State, mem: Caches.State)
                      | Done(value: T, cp0: Cp0.State, mem: Caches.State)

  // What a load finds, and where.
  datatype Loaded = Loaded(data: bv32, at: Translation)

  // The value that a load of an aligned address finds, unless it faults.
  ghost function LoadedFrom(c: Cp0.State, m: Caches.State, va: bv32, width: Width, mode: Mode): (r: Attempt<Loaded>)
    requires c.Valid() && m.Valid()
    ensures r.cp0.Valid() && r.mem.Valid()
    ensures r.Done? ==> r.value.at.Mapped?
  {
    var t := AddressTrans(c, va, mode);
    match t.0
    case Fault(code, _) => Faulted(code, t.1, m)
    case Mapped(pa, cacheable) =>
      var f := Caches.Fetch(m, width, Phys(pa), mode, cacheable);
      match f.outcome
      case Raised(code, _) => Faulted(code, t.1, f.state)
      case Value(value) => Done(Loaded(value, t.0), t.1, f.state)
  }

  // A store of an aligned value.
  ghost function StoredTo(c: Cp0.State, m: Caches.State, va: bv32, width: Width, data: bv32): (r: Attempt<()>)
    requires c.Valid() && m.Valid()
    ensures r.cp0.Valid()
  {
    var t := AddressTrans(c, va, DataStore);
    match t.0
    case Fault(code, _) => Faulted(code, t.1, m)
    case Mapped(pa, cacheable) => Sent(t.1, Caches.StoreAt(m, width, Phys(pa), data, cacheable))
  }

  function Sent(c: Cp0.State, r: Caches.Reply<()>): (a: Attempt<()>)
    ensures a.cp0 == c && a.mem == r.state
  {
    match r.outcome case Raised(code, _) => Faulted(code, c, r.state) case Value(_) => Done((), c, r.state)
  }

  function WordBase(va: bv32): bv32 { va & 0xffff_fffc }
  function ByteInWord(va: bv32): int { (va & 3) as int }

  // A register and a word merged by the left and right loads and stores for address va.
  function LoadMerge(left: bool, big: bool, reg: bv32, word: bv32, va: bv32): bv32 {
    if left then Unaligned.Lwl(big, reg, word, ByteInWord(va)) else Unaligned.Lwr(big, reg, word, ByteInWord(va))
  }

  function StoreMerge(left: bool, big: bool, reg: bv32, word: bv32, va: bv32): bv32 {
    if left then Unaligned.Swl(big, reg, word, ByteInWord(va)) else Unaligned.Swr(big, reg, word, ByteInWord(va))
  }

  ghost function StoredPart(c: Cp0.State, m: Caches.State, va: bv32, left: bool, reg: bv32): (r: Attempt<()>)
    requires c.Valid() && m.Valid()
    ensures r.cp0.Valid()
  {
    hide LoadedFrom, WordBase, Phys, StoreMerge, Caches.StoreAt;
    match LoadedFrom(c, m, WordBase(va), Word, DataStore)
    case Faulted(code, d, n) => Faulted(code, d, n)
    case Done(l, d, n) =>
      Sent(d, Caches.StoreAt(n, Word, Phys(l.at.address), StoreMerge(left, m.big, reg, l.data, va), l.at.cacheable))
  }

  predicate Misaligned(va: bv32, width: Width) {
    match width case Byte => false case Half => va & 1 != 0 case Word => va & 3 != 0
  }

  // A loaded value widened to a register.
  function Extended(value: bv32, width: Width, signed: bool): bv32 {
    match width
    case Word => value
    case Half => if signed && value & 0x8000 != 0 then value | 0xffff_0000 else value & 0xffff
    case Byte => if signed && value & 0x80 != 0 then value | 0xffff_ff00 else value & 0xff
  }

  predicate ByInstruction(op: Op) {
    op.Mtc0? || op.Mfc0? || op.Tlbwi? || op.Tlbwr? || op.Tlbr? || op.Tlbp? || op.Rfe?
  }

  // The coprocessor operation that an instruction asks for, if it is one that changes or
  // reads the coprocessor.
  function CpzeroOp(i: bv32, data: bv32, lines: bv32): (r: Result<Op>)
    ensures if r.Does? then WellFormedOp(r.value) && ByInstruction(r.value) else r.code == RI
  {
    if Rs(i) > 15 then
      var f := Funct(i);
      if f == 1 then Does(Tlbr) else if f == 2 then Does(Tlbwi) else if f == 6 then Does(Tlbwr)
      else if f == 8 then Does(Tlbp) else if f == 16 then Does(Rfe) else Fails(RI)
    else if Rs(i) == 0 then Does(Mfc0(Rd(i), lines))
    else if Rs(i) == 4 then Does(Mtc0(Rd(i), data))
    else Fails(RI)
  }

  // The branches on the coprocessor's condition, which is always true: bc0f falls through,
  // bc0t is taken, and the likely forms do nothing.
  predicate IsBc0(i: bv32) { Rs(i) == 8 && Rt(i) <= 3 }

  // What a program can tell of the machine; and whether, and how often, an exception
  // has been entered.
  datatype Machine = Machine(reg: seq<bv32>, hi: bv32, lo: bv32, pc: bv32, nextEpc: bv32, phase: Phase, delayPc: bv32,
                             pending: bool, entries: nat, lines: bv32, cp0: Cp0.State, mem: Caches.State,
                             arithmetic: bool) {
    ghost predicate Valid() { |reg| == 32 && cp0.Valid() && mem.Valid() && LinesOk(lines) }

    function Control(): Control { DelaySlot.Control(pc, phase, delayPc, nextEpc) }
  }

  predicate IsMiss(code: Code) { code == TLBL || code == TLBS }

  // The machine after an exception that arises in the state m.
  function Excepted(code: Code, ce: bv32, m: Machine): (n: Machine)
    requires m.cp0.Valid()
    ensures n.pending
  {
    var c := Cp0.EnterException(m.cp0, m.nextEpc, code, ce, m.phase == DelaySlot, m.lines);
    m.(cp0 := c, pc := Vector(c.reg[STATUS], IsMiss(code) && c.missUser), pending := true, entries := m.entries + 1)
  }

  // And as an access to memory leaves it.
  ghost function Behind<T>(m: Machine, a: Attempt<T>): Machine {
    m.(cp0 := a.cp0, mem := a.mem)
  }

  // A transfer of control after the next instruction; a write to a general register.
  function Jump(target: bv32, m: Machine): Machine { m.(phase := Delaying, delayPc := target) }

  function With(m: Machine, r: RegNo, x: bv32): Machine
    requires |m.reg| == 32
  {
    m.(reg := m.reg[r := x])
  }

  // How a load, a left or right load and a store end, given what their access comes to.
  ghost function LoadEnd(i: bv32, width: Width, signed: bool, was: Machine, a: Attempt<Loaded>): Machine
    requires |was.reg| == 32 && a.cp0.Valid()
  {
    if a.Faulted? then Excepted(a.code, NO_COPROCESSOR, Behind(was, a))
    else With(Behind(was, a), Rt(i), Extended(a.value.data, width, signed))
  }

  ghost function LoadPartEnd(i: bv32, left: bool, va: bv32, was: Machine, a: Attempt<Loaded>): Machine
    requires |was.reg| == 32 && a.cp0.Valid()
  {
    if a.Faulted? then Excepted(a.code, NO_COPROCESSOR, Behind(was, a))
    else With(Behind(was, a), Rt(i), LoadMerge(left, was.mem.big, was.reg[Rt(i)], a.value.data, va))
  }

  ghost predicate Completed(was: Machine, a: Attempt<()>, now: Machine)
    requires a.cp0.Valid()
  {
    now == if a.Faulted? then Excepted(a.code, NO_COPROCESSOR, Behind(was, a)) else Behind(was, a)
  }

  // What each group of instructions does.
  ghost predicate LoadDone(i: bv32, width: Width, signed: bool, was: Machine, now: Machine)
    requires was.Valid()
  {
    var va := Effective(was.reg[Rs(i)], i);
    now == if Misaligned(va, width) then Excepted(AdEL, NO_COPROCESSOR, was)
           else LoadEnd(i, width, signed, was, LoadedFrom(was.cp0, was.mem, va, width, DataLoad))
  }

  ghost predicate LoadPartDone(i: bv32, left: bool, was: Machine, now: Machine)
    requires was.Valid()
  {
    var va := Effective(was.reg[Rs(i)], i);
    now == LoadPartEnd(i, left, va, was, LoadedFrom(was.cp0, was.mem, WordBase(va), Word, DataLoad))
  }

  ghost predicate StoreDone(i: bv32, width: Width, was: Machine, now: Machine)
    requires was.Valid()
  {
    var va := Effective(was.reg[Rs(i)], i);
    if Misaligned(va, width) then now == Excepted(AdES, NO_COPROCESSOR, was)
    else Completed(was, StoredTo(was.cp0, was.mem, va, width, was.reg[Rt(i)]), now)
  }

  ghost predicate StorePartDone(i: bv32, left: bool, was: Machine, now: Machine)
    requires was.Valid()
  {
    Completed(was, StoredPart(was.cp0, was.mem, Effective(was.reg[Rs(i)], i), left, was.reg[Rt(i)]), now)
  }

  ghost predicate JumpDone(i: bv32, link: bool, was: Machine, now: Machine)
    requires was.Valid()
  {
    var m := Jump(JumpTarget(i, was.pc), was);
    now == if link then With(m, 31, LinkAddress(was.pc)) else m
  }

  ghost predicate BranchDone(i: bv32, op: int, was: Machine, now: Machine)
    requires was.Valid()
  {
    now == if op >= 6 && Rt(i) != 0 then Excepted(RI, NO_COPROCESSOR, was)
           else if BranchTaken(op, was.reg[Rs(i)], was.reg[Rt(i)]) then Jump(BranchTarget(i, was.pc), was)
           else was
  }

  // The register is tested after the link is written.
  ghost predicate RegimmDone(i: bv32, was: Machine, now: Machine)
    requires was.Valid()
  {
    if !IsRegimm(Rt(i)) then now == Excepted(RI, NO_COPROCESSOR, was)
    else
      var m := if Links(Rt(i)) then With(was, 31, LinkAddress(was.pc)) else was;
      now == if RegimmTaken(Rt(i), m.reg[Rs(i)]) then Jump(BranchTarget(i, was.pc), m) else m
  }

  ghost predicate JumpRegisterDone(i: bv32, link: bool, was: Machine, now: Machine)
    requires was.Valid()
  {
    if !link && was.reg[Rd(i)] != 0 then now == Excepted(RI, NO_COPROCESSOR, was)
    else
      var m := Jump(was.reg[Rs(i)], was);
      now == if link then With(m, Rd(i), LinkAddress(was.pc)) else m
  }

  ghost predicate OverflowDone(rd: RegNo, a: bv32, b: bv32, subtract: bool, was: Machine, now: Machine)
    requires was.Valid()
  {
    var exact: int := if subtract then Signed(a) as int - Signed(b) as int else Signed(a) as int + Signed(b) as int;
    now == if -0x8000_0000 <= exact < 0x8000_0000 then With(was, rd, Unsigned(exact))
        else Excepted(Ov, NO_COPROCESSOR, was)
  }

  ghost predicate MultiplyDone(i: bv32, signed: bool, was: Machine, now: Machine)
    requires was.Valid()
  {
    if Rd(i) != 0 then now == Excepted(RI, NO_COPROCESSOR, was)
    else
      && now == was.(hi := now.hi, lo := now.lo)
      && var product := Instructions.Number(now.hi) * Multiply.W + Instructions.Number(now.lo);
         if signed then Multiply.Signed64(product) == Signed(was.reg[Rs(i)]) as int * Signed(was.reg[Rt(i)]) as int
         else product == Instructions.Number(was.reg[Rs(i)]) * Instructions.Number(was.reg[Rt(i)])
  }

  // What the host does for a zero divisor, or for a quotient that does not fit, is its own affair.
  ghost predicate DivideDone(i: bv32, signed: bool, was: Machine, now: Machine)
    requires was.Valid()
  {
    && now == was.(hi := now.hi, lo := now.lo)
    && var a, b := Operand(was.reg[Rs(i)], signed), Operand(was.reg[Rt(i)], signed);
       Divisible(a, b) ==> now.lo == WordFor(Quotient(a, b)) && now.hi == WordFor(Rest(a, b))
  }

  ghost predicate MoveToDone(i: bv32, high: bool, was: Machine, now: Machine)
    requires was.Valid()
  {
    now == if Rd(i) != 0 then Excepted(RI, NO_COPROCESSOR, was)
           else if high then was.(hi := was.reg[Rs(i)]) else was.(lo := was.reg[Rs(i)])
  }

  // cfc1 of register 0 reads zero if Status allows it; otherwise the coprocessor is unusable.
  ghost predicate CpOneDone(i: bv32, was: Machine, now: Machine)
    requires was.Valid()
  {
    now == if CopOneUsable(was.cp0.reg[STATUS]) && Rs(i) == 2 && Rd(i) == 0 then With(was, Rt(i), 0)
        else Excepted(CpU, 1, was)
  }

  ghost function CpzeroRun(i: bv32, was: Machine): (now: Machine)
    requires was.Valid()
    ensures now.cp0.Valid() && now.mem == was.mem
  {
    match CpzeroOp(i, was.reg[Rt(i)], was.lines)
    case Does(op) =>
      var m := was.(cp0 := Apply(was.cp0, op));
      if op.Mfc0? then With(m, Rt(i), Cp0.ReadReg(was.cp0, op.r, op.lines).0) else m
    case Fails(code) =>
      if !IsBc0(i) then Excepted(code, 0, was) else if Rt(i) == 1 then Jump(BranchTarget(i, was.pc), was) else was
  }

  // And the control bits of the caches follow the Status register.
  ghost predicate CpzeroDone(i: bv32, was: Machine, now: Machine)
    requires was.Valid()
  {
    var m := CpzeroRun(i, was);
    now == m.(mem := Controlled(m.mem, m.cp0.reg[STATUS]))
  }

  function Controlled(m: Caches.State, status: bv32): Caches.State {
    m.(isolated := CachesIsolated(status), swapped := CachesSwapped(status))
  }

  ghost predicate FunctDone(i: bv32, was: Machine, now: Machine)
    requires was.Valid()
  {
    var f := Funct(i);
    if Computes(f) then now == With(was, Rd(i), Computed(was.arithmetic, i, was.reg[Rs(i)], was.reg[Rt(i)]))
    else if f == 32 || f == 34 then OverflowDone(Rd(i), was.reg[Rs(i)], was.reg[Rt(i)], f == 34, was, now)
    else if f == 8 || f == 9 then JumpRegisterDone(i, f == 9, was, now)
    else if f == 16 || f == 18 then now == With(was, Rd(i), if f == 16 then was.hi else was.lo)
    else if f == 17 || f == 19 then MoveToDone(i, f == 17, was, now)
    else if f == 24 || f == 25 then MultiplyDone(i, f == 24, was, now)
    else if f == 26 || f == 27 then DivideDone(i, f == 26, was, now)
    else now == Excepted(if f == 12 then Sys else if f == 13 then Bp else RI, NO_COPROCESSOR, was)
  }

  ghost predicate Executed(i: bv32, was: Machine, now: Machine)
    requires was.Valid()
  {
    var op := Opcode(i);
    if op == 0 then FunctDone(i, was, now)
    else if op == 1 then RegimmDone(i, was, now)
    else if op == 2 || op == 3 then JumpDone(i, op == 3, was, now)
    else if 4 <= op <= 7 then BranchDone(i, op, was, now)
    else if op == 8 then OverflowDone(Rt(i), was.reg[Rs(i)], SImmed(i), false, was, now)
    else if 9 <= op <= 15 then now == With(was, Rt(i), ComputedImmediate(i, was.reg[Rs(i)]))
    else if op == 16 then CpzeroDone(i, was, now)
    else if op == 17 then CpOneDone(i, was, now)
    else if op == 32 || op == 36 then LoadDone(i, Byte, op == 32, was, now)
    else if op == 33 || op == 37 then LoadDone(i, Half, op == 33, was, now)
    else if op == 35 then LoadDone(i, Word, true, was, now)
    else if op == 34 || op == 38 then LoadPartDone(i, op == 34, was, now)
    else if op == 40 then StoreDone(i, Byte, was, now)
    else if op == 41 then StoreDone(i, Half, was, now)
    else if op == 43 then StoreDone(i, Word, was, now)
    else if op == 42 || op == 46 then StorePartDone(i, op == 42, was, now)
    else if UsesCoprocessor(op) then now == Excepted(CpU, CoprocessorOf(op), was)
    else now == Excepted(RI, NO_COPROCESSOR, was)
  }
}
