/** Devices in memory: halfword and byte accesses made of word accesses. */
module DeviceMaps {
  import opened Endian
  import opened Memory
  import opened Caches

  // The shifts and masks by which a device finds, and places, a piece of a word;
  // pieces are counted from the most significant end.
  function HalfFromTop(w: bv32, n: int): bv32 {
    if n == 0 then (w >> 16) & 0xffff else w & 0xffff
  }

  function ByteFromTop(w: bv32, n: int): bv32 {
    if n == 0 then (w >> 24) & 0xff else if n == 1 then (w >> 16) & 0xff else if n == 2 then (w >> 8) & 0xff
        else w & 0xff
  }

  function PlaceHalf(h: bv32, n: int): bv32 {
    if n == 0 then (h << 16) & 0xffff_0000 else h & 0xffff
  }

  function PlaceByte(b: bv32, n: int): bv32 {
    if n == 0 then (b << 24) & 0xff00_0000 else if n == 1 then (b << 16) & 0xff_0000
    else if n == 2 then (b << 8) & 0xff00 else b & 0xff
  }

  lemma UpperHalf(w: bv32)
    ensures Join(Quad(0, 0, Split(w).b0, Split(w).b1)) == HalfFromTop(w, 0)
  {
  }

  lemma TopByteIs(w: bv32)
    ensures Join(Quad(0, 0, 0, Split(w).b0)) == (w >> 24) & 0xff
  {
  }

  lemma SecondByteIs(w: bv32)
    ensures Join(Quad(0, 0, 0, Split(w).b1)) == (w >> 16) & 0xff
  {
  }

  lemma ThirdByteIs(w: bv32)
    ensures Join(Quad(0, 0, 0, Split(w).b2)) == (w >> 8) & 0xff
  {
  }

  lemma BottomByteIs(w: bv32)
    ensures Join(Quad(0, 0, 0, Split(w).b3)) == w & 0xff
  {
  }

  lemma BytesFromTop(w: bv32, n: int)
    requires 0 <= n < 4
    ensures ByteFromTop(w, n) == ByteValue(Split(w).At(n))
  {
    hide Join, Split, LowByte;
    TopByteIs(w);
    SecondByteIs(w);
    ThirdByteIs(w);
    BottomByteIs(w);
  }

  lemma PlacedHalf(h: bv32)
    ensures Split(PlaceHalf(h, 0)) == Quad(Split(h).b2, Split(h).b3, 0, 0)
    ensures Split(PlaceHalf(h, 1)) == Quad(0, 0, Split(h).b2, Split(h).b3)
  {
  }

  lemma PlacedByte(b: bv32, n: int)
    requires 0 <= n < 4
    ensures Split(PlaceByte(b, n)) == Quad(0, 0, 0, 0).With(n, LowByte(b))
  {
  }

  // What a device answers, and what word it is sent, for a piece at an offset; big and
  // host are the orders of the target and of the host, words are in the host's order.
  function FetchedHalf(big: bool, host: bool, word: bv32, offset: int): bv32 {
    var n := Index(Half, offset);
    SwappedHalf(big != host, HalfFromTop(Swapped(big != host, word), if big then n else 1 - n))
  }

  function FetchedByte(big: bool, host: bool, word: bv32, offset: int): bv32 {
    var n := Index(Byte, offset);
    ByteFromTop(Swapped(big != host, word), if big then n else 3 - n)
  }

  function SentHalfword(big: bool, host: bool, data: bv32, offset: int): bv32 {
    var n := Index(Half, offset);
    Swapped(big != host, PlaceHalf(SwappedHalf(big != host, data), if big then n else 1 - n))
  }

  function SentByte(big: bool, host: bool, data: bv32, offset: int): bv32 {
    var n := Index(Byte, offset);
    Swapped(big != host, PlaceByte(data, if big then n else 3 - n))
  }

  lemma HalfOfTarget(big: bool, t: bv32, n: int)
    requires n == 0 || n == 1
    ensures HalfFromTop(t, if big then n else 1 - n) == Piece(big, BytesOf(big, t), Half, n)
  {
    UpperHalf(t);
    LowHalf(t);
  }

  lemma ByteOfTarget(big: bool, t: bv32, n: int)
    requires 0 <= n < 4
    ensures ByteFromTop(t, if big then n else 3 - n) == Piece(big, BytesOf(big, t), Byte, n)
  {
    BytesFromTop(t, if big then n else 3 - n);
  }

  lemma HalfSwaps(big: bool, host: bool, q: Quad, n: int)
    ensures SwappedHalf(big != host, Piece(big, q, Half, n)) == Piece(host, q, Half, n)
  {
    SwapOfWord(big, Quad(if n == 0 then q.b0 else q.b2, if n == 0 then q.b1 else q.b3, 0, 0));
  }

  // A piece read from a device is the piece that memory holding the device's word
  // would give, in the host's order as in the target's.
  lemma DeviceReadsHalvesLikeMemory(big: bool, host: bool, word: bv32, offset: int)
    ensures FetchedHalf(big, host, word, offset) == Piece(host, BytesOf(host, word), Half, Index(Half, offset))
    ensures SwappedHalf(big != host, FetchedHalf(big, host, word, offset))
         == Piece(big, BytesOf(host, word), Half, Index(Half, offset))
  {
    hide Join, Split, HalfFromTop, ByteFromTop, PlaceHalf, PlaceByte, Swapped, SwappedHalf, Piece, WithPiece, BytesOf;
    var q, n := BytesOf(host, word), Index(Half, offset);
    SentWord(big, host, word);
    HalfOfTarget(big, Swapped(big != host, word), n);
    HalfSwaps(big, host, q, n);
    HalfSwaps(host, big, q, n);
  }

  lemma DeviceReadsBytesLikeMemory(big: bool, host: bool, word: bv32, offset: int)
    ensures FetchedByte(big, host, word, offset) == Piece(big, BytesOf(host, word), Byte, Index(Byte, offset))
  {
    hide Join, Split, HalfFromTop, ByteFromTop, PlaceHalf, PlaceByte, Swapped, SwappedHalf, Piece, WithPiece, BytesOf;
    SentWord(big, host, word);
    ByteOfTarget(big, Swapped(big != host, word), Index(Byte, offset));
  }

  lemma HalfPlaced(big: bool, h: bv32, n: int)
    requires n == 0 || n == 1
    ensures BytesOf(big, PlaceHalf(h, if big then n else 1 - n)) == WithPiece(big, Quad(0, 0, 0, 0), Half, n, h)
  {
    PlacedHalf(h);
  }

  lemma BytePlaced(big: bool, b: bv32, n: int)
    requires 0 <= n < 4
    ensures BytesOf(big, PlaceByte(b, if big then n else 3 - n)) == WithPiece(big, Quad(0, 0, 0, 0), Byte, n, b)
  {
    PlacedByte(b, if big then n else 3 - n);
  }

  lemma HalfSent(big: bool, host: bool, n: int, data: bv32)
    ensures WithPiece(big, Quad(0, 0, 0, 0), Half, n, SwappedHalf(big != host, data))
         == WithPiece(host, Quad(0, 0, 0, 0), Half, n, data)
  {
    SentHalf(big, host, data);
  }

  lemma ByteSent(big: bool, host: bool, n: int, data: bv32)
    ensures WithPiece(big, Quad(0, 0, 0, 0), Byte, n, data) == WithPiece(host, Quad(0, 0, 0, 0), Byte, n, data)
  {
  }

  // The word that a device is sent for a piece is zero around it, and the piece lies
  // where a store to memory would have put it.
  lemma DeviceIsSentThePiece(big: bool, host: bool, data: bv32, offset: int)
    ensures BytesOf(host, SentHalfword(big, host, data, offset))
         == WithPiece(host, Quad(0, 0, 0, 0), Half, Index(Half, offset), data)
    ensures BytesOf(host, SentByte(big, host, data, offset))
         == WithPiece(host, Quad(0, 0, 0, 0), Byte, Index(Byte, offset), data)
  {
    hide Join, Split, HalfFromTop, ByteFromTop, PlaceHalf, PlaceByte, Swapped, SwappedHalf, Piece, WithPiece, BytesOf;
    var n, h, m := Index(Half, offset), SwappedHalf(big != host, data), Index(Byte, offset);
    SentWord(host, big, PlaceHalf(h, if big then n else 1 - n));
    HalfPlaced(big, h, n);
    HalfSent(big, host, n, data);
    SentWord(host, big, PlaceByte(data, if big then m else 3 - m));
    BytePlaced(big, data, m);
    ByteSent(big, host, m, data);
  }

  lemma ZeroAround(q: Quad, n: int, b: bv8)
    ensures Quad(0, 0, 0, 0).With(n, b) == q.With(n, b) <==> forall i :: 0 <= i < 4 && i != n ==> q.At(i) == 0
  {
    assert q.b0 == q.At(0) && q.b1 == q.At(1) && q.b2 == q.At(2) && q.b3 == q.At(3);
  }

  // So a device that keeps the word it is sent behaves as memory for a store of one
  // byte exactly when the rest of its word was zero.
  lemma DeviceStoresLikeMemory(big: bool, host: bool, word: bv32, data: bv32, offset: int)
    ensures var q, n := BytesOf(host, word), Index(Byte, offset);
            BytesOf(host, SentByte(big, host, data, offset)) == WithPiece(host, q, Byte, n, data)
            <==> forall i :: 0 <= i < 4 && i != n ==> q.At(i) == 0
  {
    DeviceIsSentThePiece(big, host, data, offset);
    ZeroAround(BytesOf(host, word), Index(Byte, offset), LowByte(data));
  }

  // For instance: a byte stored to a device whose word is all ones leaves zeros around it.
  lemma NeighboursAreCleared()
    ensures BytesOf(true, SentByte(true, true, 0x12, 0)) == Quad(0x12, 0, 0, 0)
    ensures WithPiece(true, BytesOf(true, 0xffff_ffff), Byte, 0, 0x12) == Quad(0x12, 0xff, 0xff, 0xff)
  {
  }

  // A device as a state machine: a word access yields an answer and a new state.
  class DeviceMap<S> {
    var state: S
    const read: (S, int) -> (bv32, S)
    const write: (S, int, bv32) -> S
    const big: bool
    const host: bool

    constructor (state: S, read: (S, int) -> (bv32, S), write: (S, int, bv32) -> S, big: bool, host: bool)
      ensures this.state == state && this.read == read && this.write == write && this.big == big && this.host == host
    {
      this.state, this.read, this.write, this.big, this.host := state, read, write, big, host;
    }

    method FetchWord(offset: int) returns (data: bv32)
      modifies this
      ensures (data, state) == read(old(state), offset)
    {
      var (w, s) := read(state, offset);
      data, state := w, s;
    }

    method StoreWord(offset: int, data: bv32)
      modifies this
      ensures state == write(old(state), offset, data)
    {
      state := write(state, offset, data);
    }

    method FetchHalfword(offset: int) returns (data: bv32)
      modifies this
      ensures var (w, s) := read(old(state), WordAddress(offset));
              state == s && data == Piece(host, BytesOf(host, w), Half, Index(Half, offset))
    {
      var w := FetchWord(WordAddress(offset));
      data := FetchedHalf(big, host, w, offset);
      DeviceReadsHalvesLikeMemory(big, host, w, offset);
    }

    method FetchByte(offset: int) returns (data: bv32)
      modifies this
      ensures var (w, s) := read(old(state), WordAddress(offset));
              state == s && data == Piece(host, BytesOf(host, w), Byte, Index(Byte, offset))
    {
      var w := FetchWord(WordAddress(offset));
      data := FetchedByte(big, host, w, offset);
      DeviceReadsBytesLikeMemory(big, host, w, offset);
    }

    method StoreHalfword(offset: int, data: bv32)
      modifies this
      ensures state == write(old(state), WordAddress(offset),
                             WordOf(host, WithPiece(host, Quad(0, 0, 0, 0), Half, Index(Half, offset), data)))
    {
      var word := SentHalfword(big, host, data, offset);
      DeviceIsSentThePiece(big, host, data, offset);
      WordOfBytes(host, word);
      StoreWord(WordAddress(offset), word);
    }

    method StoreByte(offset: int, data: bv32)
      modifies this
      ensures state == write(old(state), WordAddress(offset),
                             WordOf(host, WithPiece(host, Quad(0, 0, 0, 0), Byte, Index(Byte, offset), data)))
    {
      var word := SentByte(big, host, data, offset);
      DeviceIsSentThePiece(big, host, data, offset);
      WordOfBytes(host, word);
      StoreWord(WordAddress(offset), word);
    }
  }
}
