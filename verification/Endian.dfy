/** Words and halfwords as bytes in memory, in either byte order. An order is a
    boolean: true for big-endian. A halfword is held in the low half of a word. */
module Endian {

  // Four bytes at ascending addresses.
  datatype Quad = Quad(b0: bv8, b1: bv8, b2: bv8, b3: bv8) {
    function At(i: int): bv8 {
      if i == 0 then b0 else if i == 1 then b1 else if i == 2 then b2 else b3
    }

    function With(i: int, b: bv8): Quad {
      Quad(if i == 0 then b else b0, if i == 1 then b else b1, if i == 2 then b else b2, if i == 3 then b else b3)
    }

    function Reversed(): Quad { Quad(b3, b2, b1, b0) }
  }

  // The word with the given bytes, most significant first.
  function Join(q: Quad): bv32 {
    ((q.b0 as bv32) << 24) | ((q.b1 as bv32) << 16) | ((q.b2 as bv32) << 8) | (q.b3 as bv32)
  }

  function Split(w: bv32): Quad {
    Quad(((w >> 24) & 0xff) as bv8, ((w >> 16) & 0xff) as bv8, ((w >> 8) & 0xff) as bv8, (w & 0xff) as bv8)
  }

  // A word in memory, and its bytes there.
  function WordOf(big: bool, q: Quad): bv32 {
    if big then Join(q) else Join(q.Reversed())
  }

  function BytesOf(big: bool, w: bv32): Quad {
    if big then Split(w) else Split(w).Reversed()
  }

  function ByteValue(b: bv8): bv32 { Join(Quad(0, 0, 0, b)) }

  function HalfOf(big: bool, b0: bv8, b1: bv8): bv32 {
    if big then Join(Quad(0, 0, b0, b1)) else Join(Quad(0, 0, b1, b0))
  }

  // The low byte of w; byte i of the halfword w as it lies in memory.
  function LowByte(w: bv32): bv8 { Split(w).b3 }

  function HalfByte(big: bool, w: bv32, i: int): bv8 {
    if (i == 0) == big then Split(w).b2 else Split(w).b3
  }

  // Mapper::swap_word and Mapper::swap_halfword.
  function SwapWord(w: bv32): bv32 {
    ((w & 0xff) << 24) | (((w >> 8) & 0xff) << 16) | (((w >> 16) & 0xff) << 8) | ((w >> 24) & 0xff)
  }

  function SwapHalf(h: bv32): bv32 {
    ((h & 0xff) << 8) | ((h >> 8) & 0xff)
  }

  function Swapped(yes: bool, w: bv32): bv32 { if yes then SwapWord(w) else w }
  function SwappedHalf(yes: bool, h: bv32): bv32 { if yes then SwapHalf(h) else h }

  lemma SplitOfJoin(q: Quad)
    ensures Split(Join(q)) == q
  {
  }

  lemma JoinOfSplit(w: bv32)
    ensures Join(Split(w)) == w
  {
  }

  lemma SplitOfSwap(w: bv32)
    ensures Split(SwapWord(w)) == Split(w).Reversed()
    ensures Split(SwapHalf(w)).b2 == Split(w).b3 && Split(SwapHalf(w)).b3 == Split(w).b2
  {
  }

  lemma SwapHalfIsHalf(h: bv32)
    ensures Split(SwapHalf(h)).b0 == 0 && Split(SwapHalf(h)).b1 == 0
  {
  }

  lemma SwapOfHalf(b1: bv8, b0: bv8)
    ensures SwapHalf(Join(Quad(0, 0, b1, b0))) == Join(Quad(0, 0, b0, b1))
  {
    var h := Join(Quad(0, 0, b1, b0));
    SwapHalfIsHalf(h);
    SplitOfSwap(h);
    SplitOfJoin(Quad(0, 0, b1, b0));
    hide SwapHalf, Join, Split;
    JoinOfSplit(SwapHalf(h));
  }

  lemma SwapOfJoin(q: Quad)
    ensures SwapWord(Join(q)) == Join(q.Reversed())
  {
    SplitOfJoin(q);
    SplitOfSwap(Join(q));
    JoinOfSplit(SwapWord(Join(q)));
  }

  lemma BytesOfWord(big: bool, q: Quad)
    ensures BytesOf(big, WordOf(big, q)) == q
  {
    SplitOfJoin(q);
    SplitOfJoin(q.Reversed());
  }

  lemma WordOfBytes(big: bool, w: bv32)
    ensures WordOf(big, BytesOf(big, w)) == w
  {
    JoinOfSplit(w);
  }

  // Swapping a word is reading its bytes in the other order.
  lemma SwapReadsBackwards(big: bool, w: bv32)
    ensures BytesOf(big, SwapWord(w)) == BytesOf(!big, w) == BytesOf(big, w).Reversed()
  {
    SplitOfSwap(w);
  }

  lemma SwapHalfReadsBackwards(big: bool, h: bv32)
    ensures HalfByte(big, SwapHalf(h), 0) == HalfByte(!big, h, 0)
    ensures HalfByte(big, SwapHalf(h), 1) == HalfByte(!big, h, 1)
  {
    SplitOfSwap(h);
  }

  // A word and a halfword that the target sends, as the host writes their bytes.
  lemma SentWord(host: bool, big: bool, data: bv32)
    ensures BytesOf(host, Swapped(big != host, data)) == BytesOf(big, data)
  {
    SwapReadsBackwards(host, data);
  }

  lemma SentHalf(host: bool, big: bool, data: bv32)
    ensures HalfByte(host, SwappedHalf(big != host, data), 0) == HalfByte(big, data, 0)
    ensures HalfByte(host, SwappedHalf(big != host, data), 1) == HalfByte(big, data, 1)
  {
    SwapHalfReadsBackwards(host, data);
  }

  lemma SwapOfWord(big: bool, q: Quad)
    ensures SwapWord(WordOf(big, q)) == WordOf(!big, q)
    ensures SwapHalf(HalfOf(big, q.b0, q.b1)) == HalfOf(!big, q.b0, q.b1)
  {
    SwapOfJoin(q);
    SwapOfJoin(q.Reversed());
    SwapOfHalf(q.b0, q.b1);
    SwapOfHalf(q.b1, q.b0);
  }

  lemma LowByteValue(w: bv32)
    ensures ByteValue(LowByte(w)) == w & 0xff
  {
  }

  lemma LowHalf(w: bv32)
    ensures Join(Quad(0, 0, Split(w).b2, Split(w).b3)) == w & 0xffff
  {
  }

  lemma HalfValue(big: bool, w: bv32)
    ensures HalfOf(big, HalfByte(big, w, 0), HalfByte(big, w, 1)) == w & 0xffff
  {
    LowHalf(w);
  }
}
