/** The processor, one instruction at a time. */
module Cpus {
  import opened Exceptions
  import opened Memory
  import Caches
  import opened Mappers
  import opened Cp0
  import opened CPZeros
  import opened Cp0Runs
  import opened Arithmetic
  import opened Instructions
  import opened DelaySlot
  import opened Division
  import opened Execution
  import opened Steps
  import Multiply

  lemma EntersException(code: Code, ce: bv32, was: Machine, now: Machine)
    requires was.cp0.Valid()
    requires var c := Cp0.EnterException(was.cp0, was.nextEpc, code, ce, was.phase == DelaySlot, was.lines);
             now == was.(cp0 := c, pc := Vector(c.reg[STATUS], IsMiss(code) && c.missUser), pending := true,
                         entries := was.entries + 1)
    ensures now == Excepted(code, ce, was)
  {
  }

  // Additions and subtractions that trap on overflow.
  predicate Overflows(a: bv32, b: bv32, subtract: bool) {
    var x: int, y: int := Signed(a), Signed(b);
    if subtract then SubOverflows(x, y, Wrap32(x - y)) else AddOverflows(x, y, Wrap32(x + y))
  }

  function SumOf(a: bv32, b: bv32, subtract: bool): bv32 {
    var x: int, y: int := Signed(a), Signed(b);
    Unsigned(if subtract then Wrap32(x - y) else Wrap32(x + y))
  }

  lemma Adds(rd: RegNo, a: bv32, b: bv32, subtract: bool, was: Machine, now: Machine)
    requires was.Valid()
    requires now == if Overflows(a, b, subtract) then Excepted(Ov, NO_COPROCESSOR, was)
                    else With(was, rd, SumOf(a, b, subtract))
    ensures OverflowDone(rd, a, b, subtract, was, now)
  {
    hide Excepted, With, Signed, Unsigned, LinesOk, Cp0.State.Valid, Caches.State.Valid;
    AddOverflowExactly(Signed(a), Signed(b));
    SubOverflowExactly(Signed(a), Signed(b));
  }

  // The left and right stores: a load of the word, and a store of what it is merged to.
  lemma PartFaults(i: bv32, left: bool, was: Machine, now: Machine)
    requires was.Valid()
    requires var a := LoadedFrom(was.cp0, was.mem, WordBase(Effective(was.reg[Rs(i)], i)), Word, DataStore);
             a.Faulted? && now == Excepted(a.code, NO_COPROCESSOR, Behind(was, a))
    ensures StorePartDone(i, left, was, now)
  {
    hide Excepted, Effective, Rs, Rt, WordBase, LoadedFrom, LinesOk, Cp0.State.Valid, Caches.State.Valid;
  }

  lemma PartStores(i: bv32, left: bool, was: Machine, a: Attempt<Loaded>, now: Machine)
    requires was.Valid() && a.cp0.Valid() && a.mem.Valid()
    requires a == LoadedFrom(was.cp0, was.mem, WordBase(Effective(was.reg[Rs(i)], i)), Word, DataStore) && a.Done?
    requires var va, t := Effective(was.reg[Rs(i)], i), a.value.at;
             var data := StoreMerge(left, was.mem.big, was.reg[Rt(i)], a.value.data, va);
             var sent := Sent(a.cp0, Caches.StoreAt(a.mem, Word, Phys(t.address), data, t.cacheable));
             Completed(Behind(was, a), sent, now)
    ensures StorePartDone(i, left, was, now)
  {
    hide Excepted, Effective, Rs, Rt, WordBase, LoadedFrom, Phys, StoreMerge, Caches.StoreAt, Sent, LinesOk,
         Cp0.State.Valid, Caches.State.Valid;
  }

  class CPU {
    const reg: array<bv32>
    const cpzero: CPZero
    const mem: Mapper
    // How the host shifts negative numbers.
    const arithmetic: bool
    var pc: bv32
    var hi: bv32
    var lo: bv32
    var nextEpc: bv32
    var lastEpc: bv32
    var lastPrio: int
    var exceptionPending: bool
    var phase: Phase
    var delayPc: bv32
    // What the interrupt controller asserts.
    var lines: bv32
    // How often an exception has been entered.
    ghost var entries: nat

    ghost function Parts(): set<object>
      reads this, mem
    {
      {this, reg, cpzero, cpzero.reg, cpzero.tlb} + mem.Repr
    }

    ghost predicate Valid()
      reads this, mem, Parts()
    {
      && reg.Length == 32 && cpzero.Valid() && mem.Valid() && reg != cpzero.reg
      && this !in mem.Repr && reg !in mem.Repr && cpzero !in mem.Repr && cpzero.reg !in mem.Repr
      && cpzero.tlb !in mem.Repr
      && mem in mem.Repr && mem.icache in mem.Repr && mem.dcache in mem.Repr
      && LinesOk(lines)
    }

    ghost predicate Ready()
      reads this, mem, Parts()
    {
      Valid() && !exceptionPending
    }

    ghost function View(): (m: Machine)
      requires Valid()
      reads this, mem, Parts()
      ensures m.Valid()
    {
      mem.CachesOwned();
      Machine(reg[..], hi, lo, pc, nextEpc, phase, delayPc, exceptionPending, entries, lines, cpzero.View(),
          mem.View(), arithmetic)
    }

    constructor (cpzero: CPZero, mem: Mapper, arithmetic: bool)
      requires cpzero.Valid() && mem.Valid()
      requires cpzero !in mem.Repr && cpzero.reg !in mem.Repr && cpzero.tlb !in mem.Repr
      ensures Valid() && this.cpzero == cpzero && this.mem == mem && reg[0] == 0 && phase == Normal
    {
      this.cpzero := cpzero;
      this.mem := mem;
      this.arithmetic := arithmetic;
      reg := new bv32[32];
      phase := Normal;
      lastEpc, lastPrio, lines, exceptionPending, entries := 0, 0, 0, false, 0;
      new;
      mem.CachesOwned();
      reg[0] := 0;
    }

    method Reset()
      requires Valid()
      modifies this`pc, reg, cpzero.reg
      ensures Valid() && View() == WasReset(old(View()))
    {
      hide Caches.State.Valid, Cp0.State.Valid, Mapper.Valid, LinesOk, Cp0.Reset;
      reg[0] := 0;
      pc := 0xbfc0_0000;
      cpzero.Reset();
    }

    // Save where and why.
    method Save(code: Code, ce: bv32)
      requires Valid()
      modifies cpzero.reg
      ensures Valid() && cpzero.tlbMissUser == old(cpzero.tlbMissUser)
      ensures var was := old(View());
              View() == was.(cp0 := Cp0.EnterException(was.cp0, nextEpc, code, ce, phase == DelaySlot, lines))
    {
      hide Caches.State.Valid, Cp0.State.Valid, LinesOk, Mapper.Valid, Cp0.EnterException;
      cpzero.EnterException(nextEpc, code, ce, phase == DelaySlot, lines);
    }

    // And go to the handler.
    method Enter(code: Code, ce: bv32)
      requires Valid()
      modifies this, cpzero.reg
      ensures Valid() && View() == Excepted(code, ce, old(View()))
    {
      hide Caches.State.Valid, Cp0.State.Valid, Vector, LinesOk, Mapper.Valid, Cp0.EnterException, Excepted;
      ghost var was := View();
      Save(code, ce);
      Redirect(Vector(cpzero.reg[STATUS], (code == TLBL || code == TLBS) && cpzero.tlbMissUser));
      EntersException(code, ce, was, View());
    }

    method Redirect(vector: bv32)
      requires Valid()
      modifies this`pc, this`exceptionPending, this`entries
      ensures Valid() && View() == old(View()).(pc := vector, pending := true, entries := old(entries) + 1)
    {
      hide Caches.State.Valid, Cp0.State.Valid, LinesOk, Mapper.Valid;
      pc := vector;
      exceptionPending := true;
      entries := entries + 1;
    }

    // Enter an exception, unless one of this instruction outranks it already.
    method Exception(code: Code, mode: Mode, ce: bv32)
      requires Valid()
      modifies this, cpzero.reg
      ensures Valid()
      ensures View() == if old(exceptionPending) && nextEpc == old(lastEpc) && Priority(code, mode) <= old(lastPrio)
                        then old(View()) else Excepted(code, ce, old(View()))
    {
      hide Priority, Vector, LinesOk, Mapper.Valid, Cp0.EnterException, Phys;
      var prio := Priority(code, mode);
      if nextEpc == lastEpc {
        if prio <= lastPrio && exceptionPending {
          return;
        } else {
          lastPrio := prio;
        }
      }
      lastEpc := nextEpc;
      Enter(code, ce);
    }

    // Address translation and memory, as a client sees them: what they raise is taken.
    method Translate(va: bv32, mode: Mode) returns (t: Translation)
      requires Ready()
      modifies this, cpzero, cpzero.reg
      ensures Valid()
      ensures t == Cp0.AddressTrans(old(cpzero.View()), va, mode).0
      ensures var m := old(View()).(cp0 := Cp0.AddressTrans(old(cpzero.View()), va, mode).1);
              View() == if t.Fault? then Excepted(t.code, NO_COPROCESSOR, m) else m
    {
      hide Mapper.Valid, Cp0.EnterException, Vector, LinesOk, Priority, Phys;
      t := cpzero.AddressTrans(va, mode);
      if t.Fault? {
        Exception(t.code, t.mode, NO_COPROCESSOR);
      }
    }

    method Access(width: Width, pa: bv32, mode: Mode, cacheable: bool) returns (data: bv32)
      requires Ready()
      modifies this, cpzero.reg, mem`lastUsed, mem.icache, mem.dcache
      ensures Valid()
      ensures var r := Caches.Fetch(old(mem.View()), width, Phys(pa), mode, cacheable);
              var m := old(View()).(mem := r.state);
              if r.outcome.Raised? then View() == Excepted(r.outcome.code, NO_COPROCESSOR, m)
              else View() == m && data == r.outcome.value
    {
      hide Mapper.Valid, Mapper.Owned, Cp0.EnterException, Vector, LinesOk, Priority, Caches.Fetch, Phys;
      var r := mem.Fetch(width, Phys(pa), mode, cacheable);
      match r
      case Value(value) =>
        data := value;
      case Raised(code, m) =>
        data := Ones(width);
        Exception(code, m, NO_COPROCESSOR);
    }

    method PutReg(r: RegNo, x: bv32)
      requires Valid()
      modifies reg
      ensures Valid() && View() == With(old(View()), r, x)
    {
      hide Caches.State.Valid, Cp0.State.Valid, Mapper.Valid, LinesOk;
      reg[r] := x;
    }

    method PutHiLo(h: bv32, l: bv32)
      requires Valid()
      modifies this`hi, this`lo
      ensures Valid() && View() == old(View()).(hi := h, lo := l)
    {
      hide Caches.State.Valid, Cp0.State.Valid, Mapper.Valid, LinesOk;
      hi, lo := h, l;
    }

    // Load the value at va into a register; the address has been checked.
    method LoadData(va: bv32, width: Width, mode: Mode) returns (data: bv32, t: Translation)
      requires Ready()
      modifies Parts()
      ensures Valid() && mem.Repr == old(mem.Repr)
      ensures var a := LoadedFrom(old(cpzero.View()), old(mem.View()), va, width, mode);
              if a.Faulted? then View() == Excepted(a.code, NO_COPROCESSOR, Behind(old(View()), a))
              else View() == Behind(old(View()), a) && a.value == Loaded(data, t)
    {
      hide Caches.State.Valid, Cp0.State.Valid, Mapper.Valid, Mapper.Owned, Caches.Fetch, Cp0.AddressTrans, LinesOk,
           Phys;
      data := 0;
      t := Translate(va, mode);
      if !exceptionPending {
        data := Access(width, t.address, mode, t.cacheable);
      }
    }

    // Store to a translated address.
    method StoreData(t: Translation, width: Width, data: bv32)
      requires Ready() && t.Mapped?
      modifies Parts()
      ensures Valid() && mem.Repr == old(mem.Repr)
      ensures var r := Caches.StoreAt(old(mem.View()), width, Phys(t.address), data, t.cacheable);
              Completed(old(View()), Sent(old(cpzero.View()), r), View())
    {
      mem.CachesOwned();
      hide Mapper.Valid, Mapper.Owned, LinesOk, Priority, Vector, Cp0.EnterException, Phys;
      var r := mem.Store(width, Phys(t.address), data, t.cacheable);
      match r
      case Value(_) =>
      case Raised(code, m) =>
        Caches.FaultyStore(old(mem.View()), width, Phys(t.address), data, t.cacheable);
        Exception(code, m, NO_COPROCESSOR);
    }

    // lb, lbu, lh, lhu and lw.
    method LoadEmulate(i: bv32, width: Width, signed: bool)
      requires Ready()
      modifies Parts()
      ensures Valid() && mem.Repr == old(mem.Repr)
      ensures LoadDone(i, width, signed, old(View()), View())
    {
      hide With, Excepted, Machine.Valid, Caches.State.Valid, Cp0.State.Valid, Effective, Rs, Rt, Extended, Misaligned,
           LoadedFrom, Mapper.Valid, LinesOk, Priority, Vector, Cp0.EnterException, Phys;
      var va := Effective(reg[Rs(i)], i);
      if Misaligned(va, width) {
        Exception(AdEL, DataLoad, NO_COPROCESSOR);
        return;
      }
      var data, t := LoadData(va, width, DataLoad);
      if exceptionPending {
        return;
      }
      PutReg(Rt(i), Extended(data, width, signed));
    }

    // lwl and lwr.
    method LoadPartEmulate(i: bv32, left: bool)
      requires Ready()
      modifies Parts()
      ensures Valid() && mem.Repr == old(mem.Repr)
      ensures LoadPartDone(i, left, old(View()), View())
    {
      hide With, Excepted, Machine.Valid, Caches.State.Valid, Cp0.State.Valid, Effective, Rs, Rt, WordBase, LoadMerge,
           LoadedFrom, Mapper.Valid, LinesOk, Phys;
      var va := Effective(reg[Rs(i)], i);
      var data, t := LoadData(WordBase(va), Word, DataLoad);
      if exceptionPending {
        return;
      }
      PutReg(Rt(i), LoadMerge(left, mem.big, reg[Rt(i)], data, va));
    }

    // Translate an aligned address and store to it.
    method StoreValue(va: bv32, width: Width, data: bv32)
      requires Ready()
      modifies Parts()
      ensures Valid() && mem.Repr == old(mem.Repr)
      ensures Completed(old(View()), StoredTo(old(cpzero.View()), old(mem.View()), va, width, data), View())
    {
      hide Caches.State.Valid, Cp0.State.Valid, Mapper.Valid, Mapper.Owned, Caches.StoreAt, Cp0.AddressTrans, LinesOk,
           Phys, Sent, Excepted;
      var t := Translate(va, DataStore);
      if !exceptionPending {
        StoreData(t, width, data);
      }
    }

    // sb, sh and sw.
    method StoreEmulate(i: bv32, width: Width)
      requires Ready()
      modifies Parts()
      ensures Valid() && mem.Repr == old(mem.Repr)
      ensures StoreDone(i, width, old(View()), View())
    {
      hide Excepted, Machine.Valid, Caches.State.Valid, Cp0.State.Valid, Effective, Rs, Rt, Misaligned, Mapper.Valid,
           LinesOk, Priority, StoredTo, Completed;
      var data := reg[Rt(i)];
      var va := Effective(reg[Rs(i)], i);
      if Misaligned(va, width) {
        Exception(AdES, DataStore, NO_COPROCESSOR);
      } else {
        StoreValue(va, width, data);
      }
    }

    // swl and swr: read the word, merge, write it back.
    method StorePartEmulate(i: bv32, left: bool)
      requires Ready()
      modifies Parts()
      ensures Valid() && mem.Repr == old(mem.Repr)
      ensures StorePartDone(i, left, old(View()), View())
    {
      hide With, Excepted, Caches.State.Valid, Cp0.State.Valid, Effective, Rs, Rt, WordBase, StoreMerge,
           LoadedFrom, Mapper.Valid, LinesOk, Caches.StoreAt, Phys, Completed, Sent, StorePartDone;
      ghost var was := View();
      var data := reg[Rt(i)];
      var va := Effective(reg[Rs(i)], i);
      var word, t := LoadData(WordBase(va), Word, DataStore);
      if exceptionPending {
        PartFaults(i, left, was, View());
        return;
      }
      StoreData(t, Word, StoreMerge(left, mem.big, data, word, va));
      PartStores(i, left, was, LoadedFrom(was.cp0, was.mem, WordBase(va), Word, DataStore), View());
    }

    method ControlTransfer(target: bv32)
      requires Ready()
      modifies this`phase, this`delayPc
      ensures Valid() && View() == Jump(target, old(View()))
    {
      phase := Delaying;
      delayPc := target;
    }

    // Raise an exception that no coprocessor or memory is concerned with.
    method Raise(code: Code)
      requires Ready()
      modifies this, cpzero.reg
      ensures Valid() && View() == Excepted(code, NO_COPROCESSOR, old(View()))
    {
      hide Mapper.Valid, Cp0.EnterException, Vector, LinesOk, Priority;
      Exception(code, Any, NO_COPROCESSOR);
    }

    // j and jal.
    method JumpEmulate(i: bv32, link: bool)
      requires Ready()
      modifies this, reg
      ensures Valid() && mem.Repr == old(mem.Repr)
      ensures JumpDone(i, link, old(View()), View())
    {
      hide With, Excepted, Machine.Valid, Caches.State.Valid, Cp0.State.Valid, JumpTarget, LinkAddress, Mapper.Valid,
           LinesOk;
      ControlTransfer(JumpTarget(i, pc));
      if link {
        PutReg(31, LinkAddress(pc));
      }
    }

    // beq, bne, blez and bgtz.
    method BranchEmulate(i: bv32, op: int)
      requires Ready() && 4 <= op <= 7
      modifies this, cpzero.reg
      ensures Valid() && mem.Repr == old(mem.Repr)
      ensures BranchDone(i, op, old(View()), View())
    {
      hide BranchTarget, BranchTaken, Rs, Rt, Mapper.Valid, LinesOk;
      if op >= 6 && Rt(i) != 0 {
        Raise(RI);
      } else if BranchTaken(op, reg[Rs(i)], reg[Rt(i)]) {
        ControlTransfer(BranchTarget(i, pc));
      }
    }

    // bltz, bgez, bltzal and bgezal; a link is written before the register is tested.
    method RegimmEmulate(i: bv32)
      requires Ready()
      modifies this, cpzero.reg, reg
      ensures Valid() && mem.Repr == old(mem.Repr)
      ensures RegimmDone(i, old(View()), View())
    {
      hide With, Excepted, Machine.Valid, Caches.State.Valid, Cp0.State.Valid, BranchTarget, RegimmTaken, IsRegimm,
           Links, LinkAddress, Rs, Rt, Mapper.Valid, LinesOk;
      if !IsRegimm(Rt(i)) {
        Raise(RI);
        return;
      }
      if Links(Rt(i)) {
        PutReg(31, LinkAddress(pc));
      }
      if RegimmTaken(Rt(i), reg[Rs(i)]) {
        ControlTransfer(BranchTarget(i, pc));
      }
    }

    // jr, which takes the register named by rd for a reserved field, and jalr.
    method JumpRegisterEmulate(i: bv32, link: bool)
      requires Ready()
      modifies this, cpzero.reg, reg
      ensures Valid() && mem.Repr == old(mem.Repr)
      ensures JumpRegisterDone(i, link, old(View()), View())
    {
      hide With, Excepted, Machine.Valid, Caches.State.Valid, Cp0.State.Valid, LinkAddress, Rs, Rd, Mapper.Valid,
           LinesOk;
      if !link && reg[Rd(i)] != 0 {
        Raise(RI);
        return;
      }
      ControlTransfer(reg[Rs(i)]);
      if link {
        PutReg(Rd(i), LinkAddress(pc));
      }
    }

    // addi, add and sub, which can overflow.
    method OverflowEmulate(rd: RegNo, a: bv32, b: bv32, subtract: bool)
      requires Ready()
      modifies this, cpzero.reg, reg
      ensures Valid() && mem.Repr == old(mem.Repr)
      ensures OverflowDone(rd, a, b, subtract, old(View()), View())
    {
      hide With, Excepted, Caches.State.Valid, Cp0.State.Valid, Signed, Unsigned, Mapper.Valid, LinesOk, Wrap32,
           AddOverflows, SubOverflows, OverflowDone;
      ghost var was := View();
      var x: int, y: int := Signed(a), Signed(b);
      var result: Int32 := if subtract then Wrap32(x - y) else Wrap32(x + y);
      if (subtract && SubOverflows(x, y, result)) || (!subtract && AddOverflows(x, y, result)) {
        Raise(Ov);
      } else {
        PutReg(rd, Unsigned(result));
      }
      Adds(rd, a, b, subtract, was, View());
    }

    // The instructions that move and compute between registers and cannot fail.
    method ComputeEmulate(i: bv32)
      requires Ready()
      modifies reg
      ensures Valid() && mem.Repr == old(mem.Repr)
      ensures View() == With(old(View()), Rd(i), Computed(arithmetic, i, old(reg[Rs(i)]), old(reg[Rt(i)])))
    {
      hide With, Excepted, Machine.Valid, Caches.State.Valid, Cp0.State.Valid, Computed, Rs, Rt, Rd, Mapper.Valid,
           LinesOk;
      PutReg(Rd(i), Computed(arithmetic, i, reg[Rs(i)], reg[Rt(i)]));
    }

    method ImmediateEmulate(i: bv32)
      requires Ready()
      modifies reg
      ensures Valid() && mem.Repr == old(mem.Repr)
      ensures View() == With(old(View()), Rt(i), ComputedImmediate(i, old(reg[Rs(i)])))
    {
      hide With, Excepted, Machine.Valid, Caches.State.Valid, Cp0.State.Valid, ComputedImmediate, Rs, Rt, Mapper.Valid,
           LinesOk;
      PutReg(Rt(i), ComputedImmediate(i, reg[Rs(i)]));
    }

    // mult and multu.
    method MultiplyEmulate(i: bv32, signed: bool)
      requires Ready()
      modifies this, cpzero.reg
      ensures Valid() && mem.Repr == old(mem.Repr)
      ensures MultiplyDone(i, signed, old(View()), View())
    {
      hide With, Excepted, Machine.Valid, Caches.State.Valid, Cp0.State.Valid, Rs, Rt, Rd, Signed, Mapper.Valid,
           LinesOk, Multiply.Signed64, WordFor, Instructions.Number;
      if Rd(i) != 0 {
        Raise(RI);
        return;
      }
      var a, b := reg[Rs(i)], reg[Rt(i)];
      var h: int, l: int;
      if signed {
        h, l := Multiply.Mult64s(Signed(a), Signed(b));
      } else {
        h, l := Multiply.Mult64(Instructions.Number(a), Instructions.Number(b));
      }
      NumberOfWord(h);
      NumberOfWord(l);
      PutHiLo(WordFor(h), WordFor(l));
    }

    // div and divu.
    method DivideEmulate(i: bv32, signed: bool)
      requires Ready()
      modifies this`hi, this`lo
      ensures Valid() && mem.Repr == old(mem.Repr)
      ensures DivideDone(i, signed, old(View()), View())
    {
      hide With, Excepted, Machine.Valid, Caches.State.Valid, Cp0.State.Valid, Rs, Rt, Operand, Divisible,
           Mapper.Valid, LinesOk, WordFor, Quotient, Rest;
      var a, b := Operand(reg[Rs(i)], signed), Operand(reg[Rt(i)], signed);
      if Divisible(a, b) {
        PutHiLo(WordFor(Rest(a, b)), WordFor(Quotient(a, b)));
      } else {
        var h, l: bv32 := *, *;
        PutHiLo(h, l);
      }
    }

    // mfhi, mflo, mthi and mtlo.
    method MoveFromEmulate(i: bv32, high: bool)
      requires Ready()
      modifies reg
      ensures Valid() && mem.Repr == old(mem.Repr)
      ensures View() == With(old(View()), Rd(i), if high then hi else lo)
    {
      hide With, Excepted, Machine.Valid, Caches.State.Valid, Cp0.State.Valid, Rd, Mapper.Valid, LinesOk;
      PutReg(Rd(i), if high then hi else lo);
    }

    method MoveToEmulate(i: bv32, high: bool)
      requires Ready()
      modifies this, cpzero.reg
      ensures Valid() && mem.Repr == old(mem.Repr)
      ensures MoveToDone(i, high, old(View()), View())
    {
      hide With, Excepted, Machine.Valid, Caches.State.Valid, Cp0.State.Valid, Rd, Rs, Mapper.Valid, LinesOk;
      if Rd(i) != 0 {
        Raise(RI);
        return;
      }
      if high { PutHiLo(reg[Rs(i)], lo); } else { PutHiLo(hi, reg[Rs(i)]); }
    }

    // A first coprocessor that is not there.
    method CpOneEmulate(i: bv32)
      requires Ready()
      modifies this, cpzero.reg, reg
      ensures Valid() && mem.Repr == old(mem.Repr)
      ensures CpOneDone(i, old(View()), View())
    {
      hide With, Excepted, Machine.Valid, Caches.State.Valid, Cp0.State.Valid, CopOneUsable, Rs, Rt, Rd, Mapper.Valid,
           LinesOk;
      if CopOneUsable(cpzero.reg[STATUS]) && Rs(i) == 2 && Rd(i) == 0 {
        PutReg(Rt(i), 0);
      } else {
        CopUnimpl(1);
      }
    }

    method CopUnimpl(coprocno: bv32)
      requires Ready()
      modifies this, cpzero.reg
      ensures Valid() && View() == Excepted(CpU, coprocno, old(View()))
    {
      hide Mapper.Valid, Cp0.EnterException, Vector, LinesOk, Priority;
      Exception(CpU, Any, coprocno);
    }

    // Carry out a coprocessor operation; what mfc0 reads goes to a register.
    method CpzeroApply(op: Op, rt: RegNo)
      requires Ready() && WellFormedOp(op) && ByInstruction(op)
      modifies cpzero, cpzero.reg, cpzero.tlb, reg
      ensures Valid()
      ensures var m := old(View()).(cp0 := Apply(old(cpzero.View()), op));
              View() == if op.Mfc0? then With(m, rt, Cp0.ReadReg(old(cpzero.View()), op.r, op.lines).0) else m
    {
      hide With, Excepted, Machine.Valid, Caches.State.Valid, Cp0.State.Valid, Mapper.Valid, LinesOk, Cp0.ReadReg,
           Cp0.WriteReg, Cp0.TlbWrite, TlbRead, TlbProbe, ReturnFromException, Selected;
      match op
      case Mtc0(r, data) => cpzero.WriteReg(r, data);
      case Mfc0(r, from) =>
        var data := cpzero.ReadReg(r, from);
        PutReg(rt, data);
      case Tlbwi => cpzero.TlbwiEmulate();
      case Tlbwr => cpzero.TlbwrEmulate();
      case Tlbr => cpzero.TlbrEmulate();
      case Tlbp => cpzero.TlbpEmulate();
      case Rfe => cpzero.RfeEmulate();
    }

    method CpzeroDispatch(i: bv32)
      requires Ready()
      modifies this, cpzero, cpzero.reg, cpzero.tlb, reg
      ensures Valid() && View() == CpzeroRun(i, old(View()))
    {
      hide CpzeroOp, IsBc0, BranchTarget, Rs, Rt, Mapper.Valid, Mapper.Owned, LinesOk, Apply, Cp0.ReadReg;
      match CpzeroOp(i, reg[Rt(i)], lines) {
        case Does(op) =>
          CpzeroApply(op, Rt(i));
        case Fails(_) =>
          if !IsBc0(i) {
            Exception(RI, Any, 0);
          } else if Rt(i) == 1 {
            ControlTransfer(BranchTarget(i, pc));
          }
      }
    }

    // Instructions of the system control coprocessor.
    method CpzeroEmulate(i: bv32)
      requires Ready()
      modifies this, cpzero, cpzero.reg, cpzero.tlb, reg, mem`isolated, mem`swapped
      ensures Valid() && mem.Repr == old(mem.Repr)
      ensures CpzeroDone(i, old(View()), View())
    {
      hide CpzeroRun, CachesIsolated, CachesSwapped, Mapper.Valid, Mapper.Owned, LinesOk, Caches.State.Valid,
           Machine.Valid;
      CpzeroDispatch(i);
      mem.CacheSetControlBits(CachesIsolated(cpzero.reg[STATUS]), CachesSwapped(cpzero.reg[STATUS]));
    }

    method FunctEmulate(i: bv32)
      requires Ready()
      modifies Parts()
      ensures Valid() && mem.Repr == old(mem.Repr)
      ensures FunctDone(i, old(View()), View())
    {
      hide Funct, Computed, Rs, Rt, Rd, Mapper.Valid, Mapper.Owned, LinesOk;
      var f := Funct(i);
      if Computes(f) {
        ComputeEmulate(i);
      } else if f == 32 || f == 34 {
        OverflowEmulate(Rd(i), reg[Rs(i)], reg[Rt(i)], f == 34);
      } else if f == 8 || f == 9 {
        JumpRegisterEmulate(i, f == 9);
      } else if f == 16 || f == 18 {
        MoveFromEmulate(i, f == 16);
      } else if f == 17 || f == 19 {
        MoveToEmulate(i, f == 17);
      } else if f == 24 || f == 25 {
        MultiplyEmulate(i, f == 24);
      } else if f == 26 || f == 27 {
        DivideEmulate(i, f == 26);
      } else {
        Raise(if f == 12 then Sys else if f == 13 then Bp else RI);
      }
    }

    method Emulate(i: bv32)
      requires Ready()
      modifies Parts()
      ensures Valid() && mem.Repr == old(mem.Repr)
      ensures Executed(i, old(View()), View())
    {
      hide Opcode, FunctDone, RegimmDone, JumpDone, BranchDone, OverflowDone, ComputedImmediate, CpzeroDone, CpOneDone,
           LoadDone, LoadPartDone, StoreDone, StorePartDone, Excepted, Rs, Rt, SImmed, Mapper.Valid, Mapper.Owned,
           LinesOk;
      var op := Opcode(i);
      if op == 0 {
        FunctEmulate(i);
      } else if op == 1 {
        RegimmEmulate(i);
      } else if op == 2 || op == 3 {
        JumpEmulate(i, op == 3);
      } else if 4 <= op <= 7 {
        BranchEmulate(i, op);
      } else if op == 8 {
        OverflowEmulate(Rt(i), reg[Rs(i)], SImmed(i), false);
      } else if 9 <= op <= 15 {
        ImmediateEmulate(i);
      } else if op == 16 {
        CpzeroEmulate(i);
      } else if op == 17 {
        CpOneEmulate(i);
      } else if op == 32 || op == 36 {
        LoadEmulate(i, Byte, op == 32);
      } else if op == 33 || op == 37 {
        LoadEmulate(i, Half, op == 33);
      } else if op == 35 {
        LoadEmulate(i, Word, true);
      } else if op == 34 || op == 38 {
        LoadPartEmulate(i, op == 34);
      } else if op == 40 {
        StoreEmulate(i, Byte);
      } else if op == 41 {
        StoreEmulate(i, Half);
      } else if op == 43 {
        StoreEmulate(i, Word);
      } else if op == 42 || op == 46 {
        StorePartEmulate(i, op == 42);
      } else if UsesCoprocessor(op) {
        CopUnimpl(CoprocessorOf(op));
      } else {
        Raise(RI);
      }
    }

    // The next instruction, unless the fetch faults.
    method FetchInstr() returns (i: bv32)
      requires Ready()
      modifies Parts()
      ensures Valid() && mem.Repr == old(mem.Repr)
      ensures var a := LoadedFrom(old(cpzero.View()), old(mem.View()), old(pc), Word, InstFetch);
              if a.Faulted? then View() == Excepted(a.code, NO_COPROCESSOR, Behind(old(View()), a))
              else View() == Behind(old(View()), a) && i == a.value.data
    {
      hide With, Excepted, Machine.Valid, Caches.State.Valid, Cp0.State.Valid, LoadedFrom, Mapper.Valid, Mapper.Owned,
           LinesOk, Phys;
      var t;
      i, t := LoadData(pc, Word, InstFetch);
    }

    method FetchAndEmulate()
      requires Ready()
      modifies Parts()
      ensures Valid() && mem.Repr == old(mem.Repr)
      ensures Turned(old(View()), View())
    {
      hide Executed, LoadedFrom, Cp0.InterruptPending, Mapper.Valid, Mapper.Owned, LinesOk, Phys;
      var i := FetchInstr();
      if exceptionPending {
        return;
      }
      if cpzero.InterruptPending(lines) {
        Raise(Int);
        return;
      }
      Emulate(i);
    }

    method Begin(newLines: bv32)
      requires Valid() && LinesOk(newLines)
      modifies this, cpzero.reg
      ensures Ready() && View() == Begun(old(View()), newLines)
    {
      hide Cp0.AdjustRandom, Mapper.Valid, Mapper.Owned, LinesOk;
      lines := newLines;
      exceptionPending := false;
      cpzero.AdjustRandom();
      if phase != DelaySlot {
        nextEpc := pc;
      }
    }

    method Finish()
      requires Valid()
      modifies this, reg
      ensures Valid() && View() == Finished(old(View()))
    {
      hide Caches.State.Valid, Cp0.State.Valid, Mapper.Valid, Mapper.Owned, LinesOk, Plus4, Shifted;
      PutReg(0, 0);
      if exceptionPending {
        phase := Normal;
        return;
      }
      pc := if phase == DelaySlot then delayPc else Plus4(pc);
      phase := Shifted(phase);
    }

    // One step: what the controller asserts, the Random register, the fetch, the instruction,
    // register zero, and the next program counter.
    method Step(newLines: bv32)
      requires Valid() && LinesOk(newLines)
      modifies Parts()
      ensures Valid() && mem.Repr == old(mem.Repr)
      ensures Stepped(old(View()), newLines, View())
    {
      hide Turned, Begun, Finished, Machine.Valid, Mapper.Valid, Mapper.Owned, LinesOk;
      Begin(newLines);
      FetchAndEmulate();
      ghost var turned := View();
      Finish();
    }
  }
}
