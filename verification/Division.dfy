/** Integer division: facts about remainders, and division as C does it. */
module Division {

  lemma DivMod(x: int, r: int)
    requires r > 0
    ensures x == r * (x / r) + x % r && 0 <= x % r < r
  {
  }

  lemma MultipleOf(r: int, d: int)
    requires r > 0
    ensures d >= 1 ==> r * d >= r
    ensures d <= -1 ==> r * d <= -r
  {
  }

  lemma DivideUnique(x: int, r: int, q: int, m: int)
    requires r > 0 && x == r * q + m && 0 <= m < r
    ensures x / r == q && x % r == m
  {
    DivMod(x, r);
    var d := x / r - q;
    assert r * d == m - x % r;
    MultipleOf(r, d);
  }

  function Size(x: int): int { if x >= 0 then x else -x }

  // The quotient cut towards zero, and the rest.
  function Quotient(a: int, b: int): int {
    if b == 0 then 0
    else if a >= 0 then (if b > 0 then a / b else -(a / -b)) else (if b > 0 then -(-a / b) else -a / -b)
  }

  function Rest(a: int, b: int): int { a - b * Quotient(a, b) }

  // What C asks of a quotient and a rest: they make up the dividend, and the rest is smaller
  // than the divisor and has the dividend's sign.
  predicate Divides(a: int, b: int, q: int, r: int) {
    a == b * q + r && Size(r) < Size(b) && if a >= 0 then r >= 0 else r <= 0
  }

  lemma Signs(a: int, b: int, q: int)
    requires b != 0 && q == Size(a) / Size(b)
    ensures b * Quotient(a, b) == if a >= 0 then Size(b) * q else -(Size(b) * q)
  {
  }

  lemma RestIsSmall(a: int, b: int)
    requires b != 0
    ensures Divides(a, b, Quotient(a, b), Rest(a, b))
  {
    DivMod(Size(a), Size(b));
    Signs(a, b, Size(a) / Size(b));
  }

  lemma SmallMultiple(b: int, d: int)
    requires b != 0 && Size(b * d) < Size(b)
    ensures d == 0
  {
    MultipleOf(Size(b), d);
    SizeOfMultiple(b, d);
  }

  lemma SizeOfMultiple(b: int, d: int)
    ensures Size(b) * d == b * d || Size(b) * d == -(b * d)
  {
  }

  lemma MultipleOfDifference(b: int, q: int, p: int)
    ensures b * (q - p) == b * q - b * p
  {
  }

  // And they are the only ones.
  lemma DivisionIsC(a: int, b: int, q: int, r: int)
    requires b != 0
    ensures Divides(a, b, q, r) <==> q == Quotient(a, b) && r == Rest(a, b)
  {
    RestIsSmall(a, b);
    hide Quotient;
    if Divides(a, b, q, r) {
      MultipleOfDifference(b, q, Quotient(a, b));
      SmallMultiple(b, q - Quotient(a, b));
    }
  }
}
