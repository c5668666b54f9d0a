/** The 64-bit products of the multiply instructions, made from 16-bit limbs. */
module Multiply {

  const B := 0x1_0000
  const W := 0x1_0000_0000

  type Word = x: int | 0 <= x < W
  type SignedWord = x: int | -0x8000_0000 <= x < 0x8000_0000

  function High(x: int): int { x / B }

  // The remainder by 65536, and a value assigned to a variable of 16 bits.
  function Low(x: int): int { x % B }
  function Limb(x: int): int { Low(x) }

  lemma LimbFits(x: int)
    ensures 0 <= Limb(x) < B
  {
  }

  lemma HighLow(x: int)
    ensures x == High(x) * B + Low(x) && 0 <= Low(x) < B
    ensures 0 <= x < B * B ==> 0 <= High(x) < B && Limb(High(x)) == High(x)
    ensures Limb(Low(x)) == Low(x)
    ensures 0 <= x < B ==> Limb(x) == x
  {
  }

  // Unsigned arithmetic in 32 bits.
  function Wrap(x: int): Word { x % W }

  lemma NoWrap(x: int)
    requires 0 <= x < W
    ensures Wrap(x) == x
  {
  }

  // CPU::mult64 in 16-bit limbs and 32-bit arithmetic.
  method Mult64(n: Word, m: Word) returns (hi: Word, lo: Word)
    ensures hi * W + lo == n * m
  {
    hide High, Low, Limb, Wrap;
    var w, x, y, z := Limb(High(n)), Limb(n), Limb(High(m)), Limb(m);
    PartialProducts(n, m, w, x, y, z);
    hi, lo := Combined(Wrap(z * x), Wrap(z * w), Wrap(y * x), Wrap(y * w));
  }

  // The rest of it: the limbs of the result, from the partial products.
  method Combined(p: Word, q: Word, r: Word, s: Word) returns (hi: Word, lo: Word)
    requires p <= (B - 1) * (B - 1) && q <= (B - 1) * (B - 1) && r <= (B - 1) * (B - 1) && s <= (B - 1) * (B - 1)
    requires 0 <= s * W + (q + r) * B + p < W * W
    ensures hi * W + lo == s * W + (q + r) * B + p
  {
    hide High, Low, Limb, Wrap;
    SumOfLimbs(p, q, r, s, s * W + (q + r) * B + p);
    CarryFits(p, q);
    CarryFits(r, s);
    var t, u := Wrap(q + High(p)), Wrap(s + High(r));
    var c, b, a := Limb(Low(p)), Limb(Low(t)), Limb(High(t));
    var f, e, d := Limb(Low(r)), Limb(Low(u)), Limb(High(u));
    LimbFits(High(t));
    LimbFits(Low(t));
    LimbFits(High(u));
    LimbFits(Low(u));
    LimbFits(Low(r));
    MiddleFits(a, b, e, f);
    var bf := Wrap(b + f);
    var ae := Wrap(Wrap(a + e) + High(bf));
    var h, g := Limb(Low(bf)), Limb(Low(ae));
    TopFits(d, ae);
    var i := Limb(Wrap(d + High(ae)));
    NoWrap(i * B + g);
    NoWrap(h * B + c);
    hi, lo := Wrap(i * B + g), Wrap(h * B + c);
  }

  // The partial products fit into 32 bits, and so do the sums of the limbs.
  lemma PartialProducts(n: Word, m: Word, w: int, x: int, y: int, z: int)
    requires w == Limb(High(n)) && x == Limb(n) && y == Limb(High(m)) && z == Limb(m)
    ensures var p, q, r, s := z * x, z * w, y * x, y * w;
            && n * m == s * W + (q + r) * B + p && 0 <= n * m < W * W
            && 0 <= p <= (B - 1) * (B - 1) && 0 <= q <= (B - 1) * (B - 1)
            && 0 <= r <= (B - 1) * (B - 1) && 0 <= s <= (B - 1) * (B - 1)
            && Wrap(p) == p && Wrap(q) == q && Wrap(r) == r && Wrap(s) == s
  {
    LimbProducts(n, m, w, x, y, z);
    hide Wrap;
    NoWrap(z * x);
    NoWrap(z * w);
    NoWrap(y * x);
    NoWrap(y * w);
  }

  lemma CarryFits(p: int, q: int)
    requires 0 <= p <= (B - 1) * (B - 1) && 0 <= q <= (B - 1) * (B - 1)
    ensures Wrap(q + High(p)) == q + High(p)
  {
  }

  lemma MiddleFits(a: int, b: int, e: int, f: int)
    requires 0 <= a < B && 0 <= b < B && 0 <= e < B && 0 <= f < B
    ensures Wrap(b + f) == b + f && Wrap(Wrap(a + e) + High(b + f)) == a + e + High(b + f)
  {
  }

  lemma TopFits(d: int, ae: int)
    requires 0 <= d < B && 0 <= ae < W
    ensures Wrap(d + High(ae)) == d + High(ae)
  {
  }

  lemma Monotone(x: int, y: int, m: int)
    requires 0 <= x && 0 <= y <= m
    ensures 0 <= x * y <= x * m
  {
    assert x * m - x * y == x * (m - y);
  }

  lemma ProductBound(x: int, y: int, m: int)
    requires 0 <= x <= m && 0 <= y <= m
    ensures 0 <= x * y <= m * m
  {
    Monotone(x, y, m);
    Monotone(m, x, m);
  }

  lemma LimbProducts(n: Word, m: Word, w: int, x: int, y: int, z: int)
    requires w == Limb(High(n)) && x == Limb(n) && y == Limb(High(m)) && z == Limb(m)
    ensures n * m == (y * w) * W + (z * w + y * x) * B + z * x
    ensures 0 <= z * x <= (B - 1) * (B - 1) && 0 <= z * w <= (B - 1) * (B - 1)
    ensures 0 <= y * x <= (B - 1) * (B - 1) && 0 <= y * w <= (B - 1) * (B - 1)
    ensures 0 <= n * m < W * W
  {
    assert n == w * B + x && m == y * B + z;
    Expand(w, x, y, z);
    ProductBound(z, x, B - 1);
    ProductBound(z, w, B - 1);
    ProductBound(y, x, B - 1);
    ProductBound(y, w, B - 1);
    ProductBound(n, m, W - 1);
  }

  lemma Expand(w: int, x: int, y: int, z: int)
    ensures (w * B + x) * (y * B + z) == (y * w) * W + (z * w + y * x) * B + z * x
  {
    calc {
      (w * B + x) * (y * B + z);
      (w * B) * (y * B) + (w * B) * z + x * (y * B) + x * z;
      (y * w) * W + (z * w) * B + (y * x) * B + z * x;
    }
  }

  // The carries, with the four partial products as plain numbers: t and u are the high
  // parts of the first and third, k and j the carries of the middle and of the top.
  lemma Carries(p: int, q: int, r: int, s: int, t: int, u: int, a: int, b: int, c: int, d: int, e: int, f: int,
                h: int, k: int, g: int, j: int)
    requires 0 <= q <= (B - 1) * (B - 1) && 0 <= s <= (B - 1) * (B - 1)
    requires p == t * B + c && q + t == a * B + b && r == u * B + f && s + u == d * B + e
    requires b + f == k * B + h && a + e + k == j * B + g
    requires 0 <= c < B && 0 <= b < B && 0 <= f < B && 0 <= e < B && 0 <= h < B && 0 <= g < B && 0 <= t < B
        && 0 <= u < B
    requires 0 <= s * W + (q + r) * B + p < W * W
    ensures 0 <= a < B && 0 <= d < B && 0 <= d + j < B
    ensures ((d + j) * B + g) * W + (h * B + c) == s * W + (q + r) * B + p
  {
  }

  lemma SumOfLimbs(p: int, q: int, r: int, s: int, total: int)
    requires 0 <= p <= (B - 1) * (B - 1) && 0 <= q <= (B - 1) * (B - 1)
    requires 0 <= r <= (B - 1) * (B - 1) && 0 <= s <= (B - 1) * (B - 1)
    requires total == s * W + (q + r) * B + p && 0 <= total < W * W
    ensures var c, b, a := Limb(Low(p)), Limb(Low(q + High(p))), Limb(High(q + High(p)));
            var f, e, d := Limb(Low(r)), Limb(Low(s + High(r))), Limb(High(s + High(r)));
            var h := Limb(Low(b + f));
            var g, i := Limb(Low(a + e + High(b + f))), Limb(d + High(a + e + High(b + f)));
            0 <= i * B + g < W && 0 <= h * B + c < W && (i * B + g) * W + (h * B + c) == total
  {
    hide High, Low, Limb;
    LimbParts(p);
    LimbParts(r);
    LimbParts(q + High(p));
    LimbParts(s + High(r));
    var c, b, a := Low(p), Low(q + High(p)), High(q + High(p));
    var f, e, d := Low(r), Low(s + High(r)), High(s + High(r));
    LimbParts(b + f);
    var h, k := Low(b + f), High(b + f);
    LimbParts(a + e + k);
    var g, j := Low(a + e + k), High(a + e + k);
    Carries(p, q, r, s, High(p), High(r), a, b, c, d, e, f, h, k, g, j);
    WholeLimb(d + j);
  }

  lemma LimbParts(x: int)
    requires 0 <= x < B * B
    ensures x == High(x) * B + Low(x) && 0 <= Low(x) < B && 0 <= High(x) < B
    ensures Limb(High(x)) == High(x) && Limb(Low(x)) == Low(x)
  {
    HighLow(x);
  }

  lemma WholeLimb(x: int)
    requires 0 <= x < B
    ensures Limb(x) == x
  {
    HighLow(x);
  }

  // A word as the program reads it with a sign, and a pair of words.
  function Signed64(x: int): int { if x >= 0x8000_0000_0000_0000 then x - W * W else x }

  // -x in 32 bits: the most negative word is its own negation, and right as a magnitude.
  function Magnitude(x: SignedWord): Word {
    var y: int := x;
    if y < 0 then -y else y
  }

  lemma SignOfProduct(n: SignedWord, m: SignedWord)
    ensures Magnitude(n) * Magnitude(m) == if (n < 0) != (m < 0) then -(n * m) else n * m
    ensures 0 <= Magnitude(n) * Magnitude(m) <= 0x4000_0000_0000_0000
  {
    ProductBound(Magnitude(n), Magnitude(m), 0x8000_0000);
  }

  // The complement of both words plus one, carrying into the high word.
  method Negate(hi: Word, lo: Word) returns (h: Word, l: Word)
    ensures h * W + l == if hi == 0 && lo == 0 then 0 else W * W - (hi * W + lo)
  {
    h, l := W - 1 - hi, W - 1 - lo;
    if l >= 0x8000_0000 {
      l := (l + 1) % W;
      if l < 0x8000_0000 {
        h := (h + 1) % W;
      }
    } else {
      l := l + 1;
    }
  }

  // CPU::mult64s: the product of the magnitudes, negated across both words.
  method Mult64s(n: SignedWord, m: SignedWord) returns (hi: Word, lo: Word)
    ensures Signed64(hi * W + lo) == n * m
  {
    SignOfProduct(n, m);
    hi, lo := Mult64(Magnitude(n), Magnitude(m));
    if (n < 0) != (m < 0) {
      hi, lo := Negate(hi, lo);
    }
  }

  // The words of a product are determined by it, so the native 64-bit products have the same.
  lemma WordsOfProduct(hi: Word, lo: Word, product: int)
    ensures hi * W + lo == product ==> hi == product / W && lo == product % W
    ensures Signed64(hi * W + lo) == product ==> hi == (product / W) % W && lo == product % W
  {
  }
}
