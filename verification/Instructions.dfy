/** Instruction words: their fields, and the results of the instructions that only compute. */
module Instructions {
  import opened Arithmetic

  function Opcode(i: bv32): int { ((i >> 26) & 0x3f) as int }
  function Funct(i: bv32): int { (i & 0x3f) as int }
  function Jumptarg(i: bv32): bv32 { i & 0x03ff_ffff }
  function Immed(i: bv32): bv32 { i & 0xffff }
  function SImmed(i: bv32): bv32 { if i & 0x8000 != 0 then Immed(i) | 0xffff_0000 else Immed(i) }

  // Register numbers.
  type RegNo = r: int | 0 <= r < 32

  function Rs(i: bv32): RegNo { ((i >> 21) & 0x1f) as int }
  function Rt(i: bv32): RegNo { ((i >> 16) & 0x1f) as int }
  function Rd(i: bv32): RegNo { ((i >> 11) & 0x1f) as int }

  function Shamt(i: bv32): (s: bv32)
    ensures s < 32
  {
    (i >> 6) & 0x1f
  }

  function ShiftAmount(w: bv32): (s: bv32)
    ensures s < 32
  {
    w & 0x1f
  }

  // A word as a number, and back.
  function Number(w: bv32): (x: int)
    ensures 0 <= x < 0x1_0000_0000
  {
    w as int
  }

  function WordFor(x: int): bv32 { (x % 0x1_0000_0000) as bv32 }

  lemma NumberOfWord(x: int)
    requires 0 <= x < 0x1_0000_0000
    ensures Number(WordFor(x)) == x
  {
  }

  function Signed(w: bv32): Int32 {
    var x := w as int;
    if x >= 0x8000_0000 then x - 0x1_0000_0000 else x
  }

  function Unsigned(x: Int32): bv32 {
    var y: int := x;
    (if y < 0 then y + 0x1_0000_0000 else y) as bv32
  }

  function Truth(b: bool): bv32 { if b then 1 else 0 }

  function JumpTarget(i: bv32, pc: bv32): bv32 { ((pc + 4) & 0xf000_0000) | (Jumptarg(i) << 2) }
  function BranchTarget(i: bv32, pc: bv32): bv32 { pc + 4 + (SImmed(i) << 2) }
  function LinkAddress(pc: bv32): bv32 { pc + 8 }
  function Effective(base: bv32, i: bv32): bv32 { base + SImmed(i) }

  // The register instructions that cannot fail, from the operands a (rs) and b (rt).
  predicate Computes(funct: int) {
    funct in {0, 2, 3, 4, 6, 7, 33, 35, 36, 37, 38, 39, 42, 43}
  }

  function Computed(arithmetic: bool, i: bv32, a: bv32, b: bv32): bv32 {
    var f := Funct(i);
    if f == 0 then b << Shamt(i)
    else if f == 2 then Srl(arithmetic, b, Shamt(i))
    else if f == 3 then Sra(arithmetic, b, Shamt(i))
    else if f == 4 then b << ShiftAmount(a)
    else if f == 6 then Srl(arithmetic, b, ShiftAmount(a))
    else if f == 7 then Sra(arithmetic, b, ShiftAmount(a))
    else if f == 33 then a + b
    else if f == 35 then a - b
    else if f == 36 then a & b
    else if f == 37 then a | b
    else if f == 38 then a ^ b
    else if f == 39 then !(a | b)
    else if f == 42 then Truth(Signed(a) < Signed(b))
    else Truth(a < b)
  }

  // The immediate instructions that cannot fail, opcodes 9 to 15.
  function ComputedImmediate(i: bv32, a: bv32): bv32 {
    var op := Opcode(i);
    if op == 9 then a + SImmed(i)
    else if op == 10 then Truth(Signed(a) < Signed(SImmed(i)))
    else if op == 11 then Truth(a < SImmed(i))
    else if op == 12 then (a & 0xffff) & Immed(i)
    else if op == 13 then a | Immed(i)
    else if op == 14 then a ^ Immed(i)
    else Immed(i) << 16
  }

  // Whether a branch, opcodes 4 to 7, is taken.
  predicate BranchTaken(op: int, a: bv32, b: bv32) {
    if op == 4 then a == b
    else if op == 5 then a != b
    else if op == 6 then a == 0 || Negative(a)
    else a != 0 && !Negative(a)
  }

  // The branches of opcode 1, by their rt field.
  predicate IsRegimm(rt: int) { rt in {0, 1, 16, 17} }
  predicate Links(rt: int) { rt >= 16 }
  predicate RegimmTaken(rt: int, a: bv32) { (rt == 0 || rt == 16) == Negative(a) }

  predicate UsesCoprocessor(op: int) { op in {18, 19, 49, 50, 51, 57, 58, 59} }
  function CoprocessorOf(op: int): bv32 { if op == 49 || op == 57 then 1 else if op in {18, 50, 58} then 2 else 3 }

  // The operands of a division, and where C defines its result.
  function Operand(w: bv32, signed: bool): int { if signed then Signed(w) else Number(w) }

  predicate Divisible(a: int, b: int) { b != 0 && !(a == -0x8000_0000 && b == -1) }
}
