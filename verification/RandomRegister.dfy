/** The Random register, which picks the buffer entry that a refill overwrites. */
module RandomRegister {
  import opened Cp0

  predicate InRange(r: int) { 8 <= r <= 63 }

  // The register as adjust_random and reset leave it.
  predicate RandomOk(w: bv32) { w & 0xff == 0 && 8 << 8 <= w <= 63 << 8 }

  function Field(w: bv32): int { (w >> 8) as int }

  lemma NextIsOneLess(r: int)
    requires InRange(r)
    ensures NextRandom(r) == if r == 8 then 63 else r - 1
  {
  }

  function AfterSteps(r: int, k: nat): int {
    if k == 0 then r else NextRandom(AfterSteps(r, k - 1))
  }

  lemma Mod56(x: int)
    ensures (x - 1) % 56 == if x % 56 == 0 then 55 else x % 56 - 1
  {
    var q, m := x / 56, x % 56;
    assert x == 56 * q + m;
    if m == 0 {
      assert x - 1 == 56 * (q - 1) + 55;
    }
  }

  // After k steps the register has counted down k times, from 8 round to 63.
  lemma {:induction false} ClosedForm(r: int, k: nat)
    requires InRange(r)
    ensures AfterSteps(r, k) == 8 + (r - 8 - k) % 56
    ensures InRange(AfterSteps(r, k))
  {
    if k > 0 {
      ClosedForm(r, k - 1);
      NextIsOneLess(AfterSteps(r, k - 1));
      Mod56(r - 8 - (k - 1));
    }
  }

  lemma Wrapped(x: int)
    requires -56 <= x < 56
    ensures x % 56 == if x < 0 then x + 56 else x
  {
  }

  lemma {:induction false} StepFirst(r: int, k: nat)
    ensures AfterSteps(NextRandom(r), k) == AfterSteps(r, k + 1)
  {
    if k > 0 {
      StepFirst(r, k - 1);
    }
  }

  // Every slot from 8 to 63 comes up within 56 steps, exactly once.
  lemma VisitsEverySlot(r: int, slot: int)
    requires InRange(r) && InRange(slot)
    ensures exists k: nat :: k < 56 && AfterSteps(r, k) == slot
  {
    var k: nat := if slot <= r then r - slot else r - slot + 56;
    ClosedForm(r, k);
    Wrapped(r - 8 - k);
  }

  lemma NoneApart(x: int, y: int)
    requires 0 < x - y < 56
    ensures x % 56 != y % 56
  {
    var p, q := x / 56, y / 56;
    assert x == 56 * p + x % 56 && y == 56 * q + y % 56;
  }

  lemma VisitsOnce(r: int, i: nat, j: nat)
    requires InRange(r) && i < j < i + 56
    ensures AfterSteps(r, i) != AfterSteps(r, j)
  {
    hide AfterSteps;
    ClosedForm(r, i);
    ClosedForm(r, j);
    NoneApart(r - 8 - i, r - 8 - j);
  }

  // The register itself takes these steps.
  lemma FieldInRange(w: bv32)
    requires RandomOk(w)
    ensures InRange(Field(w)) && Selected(w) == Field(w)
  {
    assert (w & INDEX_MASK) >> 8 == w >> 8;
    assert 8 <= w >> 8 <= 63;
  }

  lemma WordOfField(r: int)
    requires InRange(r)
    ensures RandomOk((r as bv32) << 8)
    ensures Field((r as bv32) << 8) == r
  {
    ByteOfInt(r, r as bv32);
  }

  lemma ByteOfInt(r: int, b: bv32)
    requires InRange(r) && b as int == r
    ensures RandomOk(b << 8) && Field(b << 8) == r
  {
    hide RandomOk, Field;
    assert 8 <= b <= 63;
    WordOfByte(b);
  }

  lemma WordOfByte(b: bv32)
    requires 8 <= b <= 63
    ensures RandomOk(b << 8) && Field(b << 8) == b as int
  {
    assert (b << 8) >> 8 == b;
  }

  lemma StepsTheField(w: bv32)
    requires RandomOk(w)
    ensures RandomOk(NextRandomWord(w)) && Field(NextRandomWord(w)) == NextRandom(Field(w))
  {
    FieldInRange(w);
    NextIsOneLess(Field(w));
    WordOfField(NextRandom(Field(w)));
  }

  lemma MaskKeepsRandom(w: bv32, data: bv32)
    requires RandomOk(w)
    ensures Written(w, RANDOM, data) == w
  {
  }
}
