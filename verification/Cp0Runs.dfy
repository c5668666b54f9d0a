/** What the coprocessor keeps over every run of its operations. */
module Cp0Runs {
  import opened Exceptions
  import opened Tlb
  import opened Cp0
  import opened RandomRegister

  datatype Op =
    | Step                                  // one clock cycle
    | Mtc0(r: int, data: bv32)
    | Mfc0(r: int, lines: bv32)
    | Tlbwi | Tlbwr | Tlbr | Tlbp | Rfe
    | Enter(pc: bv32, code: Code, ce: bv32, delaySlot: bool, lines: bv32)
    | Translate(va: bv32, mode: Mode)

  predicate WellFormedOp(op: Op) {
    (op.Mtc0? || op.Mfc0?) ==> 0 <= op.r < REGISTERS
  }

  ghost function Apply(s: State, op: Op): (t: State)
    requires s.Valid() && WellFormedOp(op)
    ensures t.Valid()
  {
    match op
    case Step => AdjustRandom(s)
    case Mtc0(r, data) => WriteReg(s, r, data)
    case Mfc0(r, lines) => ReadReg(s, r, lines).1
    case Tlbwi => TlbWrite(s, Selected(s.reg[INDEX]))
    case Tlbwr => TlbWrite(s, Selected(s.reg[RANDOM]))
    case Tlbr => TlbRead(s)
    case Tlbp => TlbProbe(s)
    case Rfe => ReturnFromException(s)
    case Enter(pc, code, ce, delaySlot, lines) => EnterException(s, pc, code, ce, delaySlot, lines)
    case Translate(va, mode) => AddressTrans(s, va, mode).1
  }

  ghost function Run(s: State, ops: seq<Op>): (t: State)
    requires s.Valid() && forall i :: 0 <= i < |ops| ==> WellFormedOp(ops[i])
    ensures t.Valid()
    decreases |ops|
  {
    if ops == [] then s else Run(Apply(s, ops[0]), ops[1..])
  }

  function Steps(ops: seq<Op>): nat {
    if ops == [] then 0 else (if ops[0].Step? then 1 else 0) + Steps(ops[1..])
  }

  lemma ResetStartsRandom(s: State)
    requires s.Valid()
    ensures RandomOk(Reset(s).reg[RANDOM]) && Field(Reset(s).reg[RANDOM]) == 63
  {
  }

  lemma TranslationKeeps(s: State, va: bv32, mode: Mode)
    requires s.Valid()
    ensures AddressTrans(s, va, mode).1.reg[RANDOM] == s.reg[RANDOM]
    ensures AddressTrans(s, va, mode).1.tlb == s.tlb
  {
    hide LookUp, Page, SpaceOf, WithPage, WithBadVpn, KernelMode, UserAddress, SegmentOf, Physical, Cp0.TlbTranslate;
    BufferKeeps(s, true, va, mode);
    BufferKeeps(s, false, va, mode);
  }

  lemma BufferKeeps(s: State, user: bool, va: bv32, mode: Mode)
    requires s.Valid()
    ensures Cp0.TlbTranslate(s, user, va, mode).1.reg[RANDOM] == s.reg[RANDOM]
    ensures Cp0.TlbTranslate(s, user, va, mode).1.tlb == s.tlb
  {
    hide LookUp, Page, SpaceOf, WithPage, WithBadVpn, Physical;
  }

  lemma OtherOpsKeepRandom(s: State, op: Op)
    requires s.Valid() && WellFormedOp(op) && RandomOk(s.reg[RANDOM]) && !op.Step?
    ensures Apply(s, op).reg[RANDOM] == s.reg[RANDOM]
  {
    if op.Translate? {
      TranslationKeeps(s, op.va, op.mode);
    } else if op.Mtc0? {
      MaskKeepsRandom(s.reg[RANDOM], op.data);
    }
    hide RandomOk, AddressTrans, NextRandomWord, PushModes, PopModes, CauseOf, CauseWithPending, Readable, Written,
         HiOf, LoOf, EntryOf, ProbeResult, Selected;
  }

  // Only an indexed write can change the entries below 8.
  lemma LowEntriesKept(s: State, op: Op)
    requires s.Valid() && WellFormedOp(op) && RandomOk(s.reg[RANDOM]) && !op.Tlbwi?
    ensures Apply(s, op).tlb[..8] == s.tlb[..8]
  {
    FieldInRange(s.reg[RANDOM]);
    if op.Translate? {
      TranslationKeeps(s, op.va, op.mode);
    }
    hide RandomOk, AddressTrans, NextRandomWord, PushModes, PopModes, CauseOf, CauseWithPending, Readable, Written,
         HiOf, LoOf, EntryOf, ProbeResult, Selected;
  }

  lemma OneOp(s: State, op: Op)
    requires s.Valid() && WellFormedOp(op) && RandomOk(s.reg[RANDOM])
    ensures RandomOk(Apply(s, op).reg[RANDOM])
    ensures Field(Apply(s, op).reg[RANDOM]) == if op.Step? then NextRandom(Field(s.reg[RANDOM]))
        else Field(s.reg[RANDOM])
    ensures !op.Tlbwi? ==> Apply(s, op).tlb[..8] == s.tlb[..8]
  {
    if op.Step? {
      StepsTheField(s.reg[RANDOM]);
    } else {
      OtherOpsKeepRandom(s, op);
    }
    if !op.Tlbwi? {
      LowEntriesKept(s, op);
    }
  }

  // Over any run Random stays between 8 and 63 and is a function of the number of clock
  // cycles alone; and the entries below 8 change only by indexed writes.
  lemma {:induction false} RandomOverRuns(s: State, ops: seq<Op>)
    requires s.Valid() && RandomOk(s.reg[RANDOM])
    requires forall i :: 0 <= i < |ops| ==> WellFormedOp(ops[i])
    ensures RandomOk(Run(s, ops).reg[RANDOM])
    ensures Field(Run(s, ops).reg[RANDOM]) == AfterSteps(Field(s.reg[RANDOM]), Steps(ops))
    ensures (forall i :: 0 <= i < |ops| ==> !ops[i].Tlbwi?) ==> Run(s, ops).tlb[..8] == s.tlb[..8]
    decreases |ops|
  {
    hide RandomOk, Field, Apply, NextRandom;
    if ops != [] {
      OneOp(s, ops[0]);
      RandomOverRuns(Apply(s, ops[0]), ops[1..]);
      StepFirst(Field(s.reg[RANDOM]), Steps(ops[1..]));
    }
  }

  predicate WritesTlb(op: Op) { op.Tlbwi? || op.Tlbwr? }

  // What a write to the buffer writes, and where.
  function WriteOf(s: State, op: Op): Write<bv32, bv32, bv32>
    requires s.Valid() && WritesTlb(op)
  {
    Write(Selected(if op.Tlbwi? then s.reg[INDEX] else s.reg[RANDOM]), EntryOf(s.reg[ENTRY_HI], s.reg[ENTRY_LO]))
  }

  lemma BufferAfter(s: State, op: Op)
    requires s.Valid() && WellFormedOp(op)
    ensures Apply(s, op).tlb == if WritesTlb(op) then s.tlb[WriteOf(s, op).i := WriteOf(s, op).e] else s.tlb
  {
    if op.Translate? {
      TranslationKeeps(s, op.va, op.mode);
    }
    hide AddressTrans, NextRandomWord, PushModes, PopModes, CauseOf, CauseWithPending, Readable, Written, HiOf, LoOf,
         EntryOf, ProbeResult, Selected, FindMatching;
  }

  // Entries are written only where nothing matches.
  ghost predicate CarefulOp(s: State, op: Op)
    requires s.Valid()
  {
    WritesTlb(op) ==> Careful(s.tlb, WriteOf(s, op))
  }

  lemma OpKeepsUnique(s: State, op: Op)
    requires s.Valid() && WellFormedOp(op) && Unique(s.tlb) && CarefulOp(s, op)
    ensures Unique(Apply(s, op).tlb)
  {
    hide Apply, Unique, Selected, EntryOf, FindMatching;
    BufferAfter(s, op);
    if WritesTlb(op) {
      WriteKeepsUnique(s.tlb, WriteOf(s, op).i, WriteOf(s, op).e);
    }
  }

  ghost predicate CarefulOps(s: State, ops: seq<Op>)
    requires s.Valid() && forall i :: 0 <= i < |ops| ==> WellFormedOp(ops[i])
    decreases |ops|
  {
    ops == [] || (CarefulOp(s, ops[0]) && CarefulOps(Apply(s, ops[0]), ops[1..]))
  }

  // Over any run of operations whose writes are careful no page is matched twice.
  lemma {:induction false} UniqueOverRuns(s: State, ops: seq<Op>)
    requires s.Valid() && Unique(s.tlb)
    requires forall i :: 0 <= i < |ops| ==> WellFormedOp(ops[i])
    requires CarefulOps(s, ops)
    ensures Unique(Run(s, ops).tlb)
    decreases |ops|
  {
    hide Apply, Unique, CarefulOp;
    if ops != [] {
      OpKeepsUnique(s, ops[0]);
      UniqueOverRuns(Apply(s, ops[0]), ops[1..]);
    }
  }
}
