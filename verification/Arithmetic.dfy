/** Shifts and overflow as the emulated arithmetic instructions compute them. */
module Arithmetic {

  // The machine's operations on words, by name.
  function ShiftRight(a: bv32, b: bv32): bv32
    requires b <= 32
  {
    a >> b
  }

  function Invert(a: bv32): bv32 { !a }
  function And(a: bv32, b: bv32): bv32 { a & b }
  function Or(a: bv32, b: bv32): bv32 { a | b }
  predicate Negative(a: bv32) { a & 0x8000_0000 != 0 }

  // What C leaves to the host when a negative number is shifted right: the sign is
  // copied in, or zeros are.
  function HostShift(arithmetic: bool, a: bv32, b: bv32): bv32
    requires b <= 32
  {
    if arithmetic && Negative(a) then Invert(ShiftRight(Invert(a), b)) else ShiftRight(a, b)
  }

  function Srl(arithmetic: bool, a: bv32, b: bv32): bv32
    requires b <= 32
  {
    if b == 0 then a else if b == 32 then 0 else And(HostShift(arithmetic, a, b), LowBits(b))
  }

  function Sra(arithmetic: bool, a: bv32, b: bv32): bv32
    requires b < 32
  {
    if b == 0 then a
    else Or(HostShift(arithmetic, a, b), SignBits(a, b))
  }

  // Bit i of a word.
  predicate Bit(w: bv32, i: bv32)
    requires i < 32
  {
    (w >> i) & 1 != 0
  }

  // Where bit i of a word shifted by b comes from, if it does.
  predicate Inside(b: bv32, i: bv32) { i + b < 32 }

  function Source(b: bv32, i: bv32): (j: bv32)
    requires b < 32 && i < 32
    ensures j < 32
  {
    if i + b < 32 then i + b else 31
  }

  lemma BitMoved(a: bv32, b: bv32, i: bv32)
    requires b < 32 && i < 32
    ensures Bit(a >> b, i) <==> i + b < 32 && Bit(a, i + b)
  {
  }

  lemma BitOfShifted(a: bv32, b: bv32, i: bv32)
    requires b < 32 && i < 32
    ensures Bit(ShiftRight(a, b), i) <==> Inside(b, i) && Bit(a, Source(b, i))
  {
    hide Bit;
    BitMoved(a, b, i);
  }

  lemma BitOfAnd(a: bv32, b: bv32, i: bv32)
    requires i < 32
    ensures Bit(And(a, b), i) <==> Bit(a, i) && Bit(b, i)
  {
  }

  lemma BitOfOr(a: bv32, b: bv32, i: bv32)
    requires i < 32
    ensures Bit(Or(a, b), i) <==> Bit(a, i) || Bit(b, i)
  {
  }

  lemma BitOfNot(a: bv32, i: bv32)
    requires i < 32
    ensures Bit(Invert(a), i) <==> !Bit(a, i)
  {
  }

  // The masks: 32 - b low bits, and b high bits if the sign is set.
  function LowBits(b: bv32): bv32
    requires 0 < b < 32
  {
    ((1 as bv32) << (32 - b)) - 1
  }

  function SignBits(a: bv32, b: bv32): bv32
    requires 0 < b < 32
  {
    ((a >> 31) & 1) * ((((1 as bv32) << b) - 1) << (32 - b))
  }

  function HighBits(b: bv32): bv32
    requires 0 < b < 32
  {
    (((1 as bv32) << b) - 1) << (32 - b)
  }

  lemma BitOfLowBits(b: bv32, i: bv32)
    requires 0 < b < 32 && i < 32
    ensures Bit(LowBits(b), i) <==> Inside(b, i)
  {
  }

  lemma BitOfHighBits(b: bv32, i: bv32)
    requires 0 < b < 32 && i < 32
    ensures Bit(HighBits(b), i) <==> !Inside(b, i)
  {
  }

  lemma TimesOneBit(x: bv32, m: bv32)
    ensures (x & 1) * m == if x & 1 != 0 then m else 0
  {
    if x & 1 != 0 {
      assert x & 1 == 1;
    } else {
      assert x & 1 == 0;
    }
  }

  lemma BitOfSignBits(a: bv32, b: bv32, i: bv32)
    requires 0 < b < 32 && i < 32
    ensures Bit(SignBits(a, b), i) <==> !Inside(b, i) && Bit(a, 31)
  {
    TimesOneBit(a >> 31, HighBits(b));
    BitOfHighBits(b, i);
    ZeroHasNoBits(i);
    hide HighBits;
  }

  lemma ZeroHasNoBits(i: bv32)
    requires i < 32
    ensures !Bit(0, i)
  {
  }

  lemma BitOfHostShift(arithmetic: bool, a: bv32, b: bv32, i: bv32)
    requires b < 32 && i < 32
    ensures Bit(HostShift(arithmetic, a, b), i)
       <==> if Inside(b, i) then Bit(a, Source(b, i)) else arithmetic && Bit(a, 31)
  {
    hide Bit, ShiftRight, Invert, Negative, Inside, Source;
    BitOfShifted(a, b, i);
    BitOfShifted(Invert(a), b, i);
    BitOfNot(ShiftRight(Invert(a), b), i);
    BitOfNot(a, Source(b, i));
    SignBit(a);
  }

  lemma SignBit(a: bv32)
    ensures Negative(a) <==> Bit(a, 31)
  {
  }

  // Whatever the host does, a logical shift moves zeros in and an arithmetic one copies
  // of the sign.
  lemma SrlBits(arithmetic: bool, a: bv32, b: bv32, i: bv32)
    requires b < 32 && i < 32
    ensures Bit(Srl(arithmetic, a, b), i) <==> Inside(b, i) && Bit(a, Source(b, i))
  {
    if b > 0 {
      BitOfHostShift(arithmetic, a, b, i);
      BitOfLowBits(b, i);
      BitOfAnd(HostShift(arithmetic, a, b), LowBits(b), i);
      hide Bit, HostShift, LowBits, And;
    }
  }

  lemma SraBits(arithmetic: bool, a: bv32, b: bv32, i: bv32)
    requires b < 32 && i < 32
    ensures Bit(Sra(arithmetic, a, b), i) <==> Bit(a, Source(b, i))
  {
    if b > 0 {
      BitOfHostShift(arithmetic, a, b, i);
      BitOfSignBits(a, b, i);
      BitOfOr(HostShift(arithmetic, a, b), SignBits(a, b), i);
      hide Bit, HostShift, SignBits, Or;
    }
  }

  type Int32 = x: int | -0x8000_0000 <= x < 0x8000_0000

  // Reduction to 32 bits with a sign.
  function Wrap32(x: int): Int32 {
    var m := x % 0x1_0000_0000;
    if m >= 0x8000_0000 then m - 0x1_0000_0000 else m
  }

  // The tests of addi and add, and of sub, on the signs of operands and result.
  predicate AddOverflows(a: Int32, b: Int32, sum: Int32) {
    (a < 0 && b < 0 && !(sum < 0)) || (a >= 0 && b >= 0 && !(sum >= 0))
  }

  predicate SubOverflows(a: Int32, b: Int32, diff: Int32) {
    (a < 0 && !(b < 0) && !(diff < 0)) || (!(a < 0) && b < 0 && diff < 0)
  }

  // They hold exactly when the true result does not fit; otherwise the result is true.
  lemma AddOverflowExactly(a: Int32, b: Int32)
    ensures AddOverflows(a, b, Wrap32(a + b)) <==> Wrap32(a + b) != a + b
    ensures AddOverflows(a, b, Wrap32(a + b)) <==> !(-0x8000_0000 <= a + b < 0x8000_0000)
  {
  }

  lemma SubOverflowExactly(a: Int32, b: Int32)
    ensures SubOverflows(a, b, Wrap32(a - b)) <==> !(-0x8000_0000 <= a - b < 0x8000_0000)
  {
  }
}
