/** Unaligned words: the left and right load and store instructions, whose pairs move a
    word to and from any address. */
module Unaligned {
  import opened Endian
  import opened Memory

  // CPU::lwl, lwr, swl and swr: a register and an aligned word of memory merged, for the
  // byte at an offset in the word.
  function Lwl(big: bool, reg: bv32, mem: bv32, o: int): bv32 {
    if o == (if big then 0 else 3) then mem
    else if o == (if big then 1 else 2) then ((mem & 0xff_ffff) << 8) | (reg & 0xff)
    else if o == (if big then 2 else 1) then ((mem & 0xffff) << 16) | (reg & 0xffff)
    else ((mem & 0xff) << 24) | (reg & 0xff_ffff)
  }

  function Lwr(big: bool, reg: bv32, mem: bv32, o: int): bv32 {
    if o == (if big then 3 else 0) then mem
    else if o == (if big then 2 else 1) then (reg & 0xff00_0000) | ((mem & 0xffff_ff00) >> 8)
    else if o == (if big then 1 else 2) then (reg & 0xffff_0000) | ((mem & 0xffff_0000) >> 16)
    else (reg & 0xffff_ff00) | ((mem & 0xff00_0000) >> 24)
  }

  function Swl(big: bool, reg: bv32, mem: bv32, o: int): bv32 {
    if o == (if big then 0 else 3) then reg
    else if o == (if big then 1 else 2) then (mem & 0xff00_0000) | ((reg >> 8) & 0xff_ffff)
    else if o == (if big then 2 else 1) then (mem & 0xffff_0000) | ((reg >> 16) & 0xffff)
    else (mem & 0xffff_ff00) | ((reg >> 24) & 0xff)
  }

  function Swr(big: bool, reg: bv32, mem: bv32, o: int): bv32 {
    if o == (if big then 3 else 0) then reg
    else if o == (if big then 2 else 1) then ((reg << 8) & 0xffff_ff00) | (mem & 0xff)
    else if o == (if big then 1 else 2) then ((reg << 16) & 0xffff_0000) | (mem & 0xffff)
    else ((reg << 24) & 0xff00_0000) | (mem & 0xff_ffff)
  }

  // In memory order, with the register's bytes r and the word's bytes m: from offset o to
  // the end of the word, and from its start up to offset o.
  function StoreTail(m: Quad, r: Quad, o: int): Quad {
    Quad(if 0 >= o then r.At(0 - o) else m.b0, if 1 >= o then r.At(1 - o) else m.b1,
         if 2 >= o then r.At(2 - o) else m.b2, if 3 >= o then r.At(3 - o) else m.b3)
  }

  function StoreHead(m: Quad, r: Quad, o: int): Quad {
    Quad(if 0 <= o then r.At(3 - o) else m.b0, if 1 <= o then r.At(4 - o) else m.b1,
         if 2 <= o then r.At(5 - o) else m.b2, if 3 <= o then r.At(6 - o) else m.b3)
  }

  function LoadTail(r: Quad, m: Quad, o: int): Quad {
    Quad(if o <= 3 then m.At(o) else r.b0, if o <= 2 then m.At(o + 1) else r.b1,
         if o <= 1 then m.At(o + 2) else r.b2, if o <= 0 then m.At(o + 3) else r.b3)
  }

  function LoadHead(r: Quad, m: Quad, o: int): Quad {
    Quad(if o >= 3 then m.At(o - 3) else r.b0, if o >= 2 then m.At(o - 2) else r.b1,
         if o >= 1 then m.At(o - 1) else r.b2, if o >= 0 then m.At(o) else r.b3)
  }

  // Each merge keeps some bytes of a, at the top or at the bottom, and shifts b in.
  lemma KeepTop1Store(a: bv32, b: bv32)
    ensures var p, q := Split(a), Split(b);
            (a & 0xff00_0000) | ((b >> 8) & 0xff_ffff) == Join(Quad(p.b0, q.b0, q.b1, q.b2))
  {
  }

  lemma KeepTop2Store(a: bv32, b: bv32)
    ensures var p, q := Split(a), Split(b);
            (a & 0xffff_0000) | ((b >> 16) & 0xffff) == Join(Quad(p.b0, p.b1, q.b0, q.b1))
  {
  }

  lemma KeepTop3Store(a: bv32, b: bv32)
    ensures var p, q := Split(a), Split(b); (a & 0xffff_ff00) | ((b >> 24) & 0xff) == Join(Quad(p.b0, p.b1, p.b2, q.b0))
  {
  }

  lemma KeepTop1Load(a: bv32, b: bv32)
    ensures var p, q := Split(a), Split(b);
            (a & 0xff00_0000) | ((b & 0xffff_ff00) >> 8) == Join(Quad(p.b0, q.b0, q.b1, q.b2))
  {
  }

  lemma KeepTop2Load(a: bv32, b: bv32)
    ensures var p, q := Split(a), Split(b);
            (a & 0xffff_0000) | ((b & 0xffff_0000) >> 16) == Join(Quad(p.b0, p.b1, q.b0, q.b1))
  {
  }

  lemma KeepTop3Load(a: bv32, b: bv32)
    ensures var p, q := Split(a), Split(b);
            (a & 0xffff_ff00) | ((b & 0xff00_0000) >> 24) == Join(Quad(p.b0, p.b1, p.b2, q.b0))
  {
  }

  lemma KeepLow1Store(a: bv32, b: bv32)
    ensures var p, q := Split(a), Split(b); ((b << 8) & 0xffff_ff00) | (a & 0xff) == Join(Quad(q.b1, q.b2, q.b3, p.b3))
  {
  }

  lemma KeepLow2Store(a: bv32, b: bv32)
    ensures var p, q := Split(a), Split(b);
            ((b << 16) & 0xffff_0000) | (a & 0xffff) == Join(Quad(q.b2, q.b3, p.b2, p.b3))
  {
  }

  lemma KeepLow3Store(a: bv32, b: bv32)
    ensures var p, q := Split(a), Split(b);
            ((b << 24) & 0xff00_0000) | (a & 0xff_ffff) == Join(Quad(q.b3, p.b1, p.b2, p.b3))
  {
  }

  lemma KeepLow1Load(a: bv32, b: bv32)
    ensures var p, q := Split(a), Split(b); ((b & 0xff_ffff) << 8) | (a & 0xff) == Join(Quad(q.b1, q.b2, q.b3, p.b3))
  {
  }

  lemma KeepLow2Load(a: bv32, b: bv32)
    ensures var p, q := Split(a), Split(b); ((b & 0xffff) << 16) | (a & 0xffff) == Join(Quad(q.b2, q.b3, p.b2, p.b3))
  {
  }

  lemma KeepLow3Load(a: bv32, b: bv32)
    ensures var p, q := Split(a), Split(b); ((b & 0xff) << 24) | (a & 0xff_ffff) == Join(Quad(q.b3, p.b1, p.b2, p.b3))
  {
  }

  lemma KeepTopMergesStore(a: bv32, b: bv32)
    ensures var p, q := Split(a), Split(b);
            Split((a & 0xff00_0000) | ((b >> 8) & 0xff_ffff)) == Quad(p.b0, q.b0, q.b1, q.b2)
    ensures var p, q := Split(a), Split(b);
            Split((a & 0xffff_0000) | ((b >> 16) & 0xffff)) == Quad(p.b0, p.b1, q.b0, q.b1)
    ensures var p, q := Split(a), Split(b);
            Split((a & 0xffff_ff00) | ((b >> 24) & 0xff)) == Quad(p.b0, p.b1, p.b2, q.b0)
  {
    var p, q := Split(a), Split(b);
    KeepTop1Store(a, b);
    SplitOfJoin(Quad(p.b0, q.b0, q.b1, q.b2));
    KeepTop2Store(a, b);
    SplitOfJoin(Quad(p.b0, p.b1, q.b0, q.b1));
    KeepTop3Store(a, b);
    SplitOfJoin(Quad(p.b0, p.b1, p.b2, q.b0));
    hide Join, Split;
  }

  lemma KeepTopMergesLoad(a: bv32, b: bv32)
    ensures var p, q := Split(a), Split(b);
            Split((a & 0xff00_0000) | ((b & 0xffff_ff00) >> 8)) == Quad(p.b0, q.b0, q.b1, q.b2)
    ensures var p, q := Split(a), Split(b);
            Split((a & 0xffff_0000) | ((b & 0xffff_0000) >> 16)) == Quad(p.b0, p.b1, q.b0, q.b1)
    ensures var p, q := Split(a), Split(b);
            Split((a & 0xffff_ff00) | ((b & 0xff00_0000) >> 24)) == Quad(p.b0, p.b1, p.b2, q.b0)
  {
    var p, q := Split(a), Split(b);
    KeepTop1Load(a, b);
    SplitOfJoin(Quad(p.b0, q.b0, q.b1, q.b2));
    KeepTop2Load(a, b);
    SplitOfJoin(Quad(p.b0, p.b1, q.b0, q.b1));
    KeepTop3Load(a, b);
    SplitOfJoin(Quad(p.b0, p.b1, p.b2, q.b0));
    hide Join, Split;
  }

  lemma KeepLowMergesStore(a: bv32, b: bv32)
    ensures var p, q := Split(a), Split(b); Split(((b << 8) & 0xffff_ff00) | (a & 0xff)) == Quad(q.b1, q.b2, q.b3, p.b3)
    ensures var p, q := Split(a), Split(b);
            Split(((b << 16) & 0xffff_0000) | (a & 0xffff)) == Quad(q.b2, q.b3, p.b2, p.b3)
    ensures var p, q := Split(a), Split(b);
            Split(((b << 24) & 0xff00_0000) | (a & 0xff_ffff)) == Quad(q.b3, p.b1, p.b2, p.b3)
  {
    var p, q := Split(a), Split(b);
    KeepLow1Store(a, b);
    SplitOfJoin(Quad(q.b1, q.b2, q.b3, p.b3));
    KeepLow2Store(a, b);
    SplitOfJoin(Quad(q.b2, q.b3, p.b2, p.b3));
    KeepLow3Store(a, b);
    SplitOfJoin(Quad(q.b3, p.b1, p.b2, p.b3));
    hide Join, Split;
  }

  lemma KeepLowMergesLoad(a: bv32, b: bv32)
    ensures var p, q := Split(a), Split(b); Split(((b & 0xff_ffff) << 8) | (a & 0xff)) == Quad(q.b1, q.b2, q.b3, p.b3)
    ensures var p, q := Split(a), Split(b); Split(((b & 0xffff) << 16) | (a & 0xffff)) == Quad(q.b2, q.b3, p.b2, p.b3)
    ensures var p, q := Split(a), Split(b); Split(((b & 0xff) << 24) | (a & 0xff_ffff)) == Quad(q.b3, p.b1, p.b2, p.b3)
  {
    var p, q := Split(a), Split(b);
    KeepLow1Load(a, b);
    SplitOfJoin(Quad(q.b1, q.b2, q.b3, p.b3));
    KeepLow2Load(a, b);
    SplitOfJoin(Quad(q.b2, q.b3, p.b2, p.b3));
    KeepLow3Load(a, b);
    SplitOfJoin(Quad(q.b3, p.b1, p.b2, p.b3));
    hide Join, Split;
  }

  lemma SwlBig(reg: bv32, mem: bv32, o: int)
    requires 0 <= o < 4
    ensures BytesOf(true, Swl(true, reg, mem, o)) == StoreTail(BytesOf(true, mem), BytesOf(true, reg), o)
  {
    KeepTopMergesStore(mem, reg);
    hide Join, Split;
  }

  lemma SwlLittle(reg: bv32, mem: bv32, o: int)
    requires 0 <= o < 4
    ensures BytesOf(false, Swl(false, reg, mem, o)) == StoreHead(BytesOf(false, mem), BytesOf(false, reg), o)
  {
    KeepTopMergesStore(mem, reg);
    hide Join, Split;
  }

  lemma SwrBig(reg: bv32, mem: bv32, o: int)
    requires 0 <= o < 4
    ensures BytesOf(true, Swr(true, reg, mem, o)) == StoreHead(BytesOf(true, mem), BytesOf(true, reg), o)
  {
    KeepLowMergesStore(mem, reg);
    hide Join, Split;
  }

  lemma SwrLittle(reg: bv32, mem: bv32, o: int)
    requires 0 <= o < 4
    ensures BytesOf(false, Swr(false, reg, mem, o)) == StoreTail(BytesOf(false, mem), BytesOf(false, reg), o)
  {
    KeepLowMergesStore(mem, reg);
    hide Join, Split;
  }

  lemma LwlBig(reg: bv32, mem: bv32, o: int)
    requires 0 <= o < 4
    ensures BytesOf(true, Lwl(true, reg, mem, o)) == LoadTail(BytesOf(true, reg), BytesOf(true, mem), o)
  {
    KeepLowMergesLoad(reg, mem);
    hide Join, Split;
  }

  lemma LwlLittle(reg: bv32, mem: bv32, o: int)
    requires 0 <= o < 4
    ensures BytesOf(false, Lwl(false, reg, mem, o)) == LoadHead(BytesOf(false, reg), BytesOf(false, mem), o)
  {
    KeepLowMergesLoad(reg, mem);
    hide Join, Split;
  }

  lemma LwrBig(reg: bv32, mem: bv32, o: int)
    requires 0 <= o < 4
    ensures BytesOf(true, Lwr(true, reg, mem, o)) == LoadHead(BytesOf(true, reg), BytesOf(true, mem), o)
  {
    KeepTopMergesLoad(reg, mem);
    hide Join, Split;
  }

  lemma LwrLittle(reg: bv32, mem: bv32, o: int)
    requires 0 <= o < 4
    ensures BytesOf(false, Lwr(false, reg, mem, o)) == LoadTail(BytesOf(false, reg), BytesOf(false, mem), o)
  {
    KeepTopMergesLoad(reg, mem);
    hide Join, Split;
  }

  // The instructions on memory: a left or right store or load for the byte at address a.
  predicate WordAt(bytes: map<int, bv8>, a: int) { Holds(bytes, Word, WordAddress(a)) }

  function StoreLeft(bytes: map<int, bv8>, big: bool, a: int, reg: bv32): map<int, bv8>
    requires WordAt(bytes, a)
  {
    Scatter(bytes, big, Word, WordAddress(a), Swl(big, reg, Gather(bytes, big, Word, WordAddress(a)), a % 4))
  }

  function StoreRight(bytes: map<int, bv8>, big: bool, a: int, reg: bv32): map<int, bv8>
    requires WordAt(bytes, a)
  {
    Scatter(bytes, big, Word, WordAddress(a), Swr(big, reg, Gather(bytes, big, Word, WordAddress(a)), a % 4))
  }

  function LoadLeft(bytes: map<int, bv8>, big: bool, a: int, reg: bv32): bv32
    requires WordAt(bytes, a)
  {
    Lwl(big, reg, Gather(bytes, big, Word, WordAddress(a)), a % 4)
  }

  function LoadRight(bytes: map<int, bv8>, big: bool, a: int, reg: bv32): bv32
    requires WordAt(bytes, a)
  {
    Lwr(big, reg, Gather(bytes, big, Word, WordAddress(a)), a % 4)
  }

  // Bytes r from address a on: as far as the end of a's word, and from the start of the word of a + 3.
  function TailWritten(bytes: map<int, bv8>, a: int, r: Quad): map<int, bv8>
    requires WordAt(bytes, a)
  {
    WithQuad(bytes, WordAddress(a), StoreTail(QuadAt(bytes, WordAddress(a)), r, a % 4))
  }

  function HeadWritten(bytes: map<int, bv8>, a: int, r: Quad): map<int, bv8>
    requires WordAt(bytes, a)
  {
    WithQuad(bytes, WordAddress(a), StoreHead(QuadAt(bytes, WordAddress(a)), r, a % 4))
  }

  lemma TailBytes(bytes: map<int, bv8>, a: int, r: Quad, k: int)
    requires WordAt(bytes, a) && k in bytes
    ensures k in TailWritten(bytes, a, r)
    ensures TailWritten(bytes, a, r)[k] == if a <= k < WordAddress(a) + 4 then r.At(k - a) else bytes[k]
  {
  }

  lemma HeadBytes(bytes: map<int, bv8>, a: int, r: Quad, k: int)
    requires WordAt(bytes, a + 3) && k in bytes
    ensures k in HeadWritten(bytes, a + 3, r)
    ensures HeadWritten(bytes, a + 3, r)[k] == if WordAddress(a + 3) <= k <= a + 3 then r.At(k - a) else bytes[k]
  {
  }

  lemma WordsMeet(a: int)
    ensures a % 4 == 0 ==> WordAddress(a + 3) == WordAddress(a) == a
    ensures a % 4 != 0 ==> WordAddress(a + 3) == WordAddress(a) + 4
  {
    var q, r := a / 4, a % 4;
    assert a == 4 * q + r;
    if r == 0 { QuotientBy4(a + 3, q, 3); } else { QuotientBy4(a + 3, q + 1, r - 1); }
  }

  lemma KeysKept(bytes: map<int, bv8>, a: int, r: Quad)
    ensures WordAt(bytes, a) ==> TailWritten(bytes, a, r).Keys == bytes.Keys
    ensures WordAt(bytes, a + 3) ==> HeadWritten(bytes, a + 3, r).Keys == bytes.Keys
  {
  }

  lemma SameKeys(b: map<int, bv8>, c: map<int, bv8>, a: int)
    requires b.Keys == c.Keys
    ensures WordAt(b, a) == WordAt(c, a)
  {
    assert forall k :: k in b <==> k in b.Keys;
    assert forall k :: k in c <==> k in c.Keys;
  }

  lemma ByteWritten(bytes: map<int, bv8>, a: int, r: Quad, k: int)
    requires WordAt(bytes, a) && WordAt(bytes, a + 3) && k in bytes
    ensures k in WithQuad(bytes, a, r)
    ensures WithQuad(bytes, a, r)[k] == if a <= k < a + 4 then r.At(k - a) else bytes[k]
  {
  }

  lemma QuadKeys(bytes: map<int, bv8>, a: int, r: Quad)
    requires WordAt(bytes, a) && WordAt(bytes, a + 3)
    ensures WithQuad(bytes, a, r).Keys == bytes.Keys
  {
    WordsMeet(a);
  }

  lemma HeadAfterTailByte(bytes: map<int, bv8>, a: int, r: Quad, k: int)
    requires WordAt(bytes, a) && WordAt(bytes, a + 3) && k in bytes && WordAt(TailWritten(bytes, a, r), a + 3)
    requires k in TailWritten(bytes, a, r)
    ensures k in HeadWritten(TailWritten(bytes, a, r), a + 3, r) && k in WithQuad(bytes, a, r)
    ensures HeadWritten(TailWritten(bytes, a, r), a + 3, r)[k] == WithQuad(bytes, a, r)[k]
  {
    hide TailWritten, HeadWritten, WithQuad, Quad.At, WordAt;
    WordsMeet(a);
    TailBytes(bytes, a, r, k);
    HeadBytes(TailWritten(bytes, a, r), a, r, k);
    ByteWritten(bytes, a, r, k);
  }

  lemma TailAfterHeadByte(bytes: map<int, bv8>, a: int, r: Quad, k: int)
    requires WordAt(bytes, a) && WordAt(bytes, a + 3) && k in bytes && WordAt(HeadWritten(bytes, a + 3, r), a)
    requires k in HeadWritten(bytes, a + 3, r)
    ensures k in TailWritten(HeadWritten(bytes, a + 3, r), a, r) && k in WithQuad(bytes, a, r)
    ensures TailWritten(HeadWritten(bytes, a + 3, r), a, r)[k] == WithQuad(bytes, a, r)[k]
  {
    hide TailWritten, HeadWritten, WithQuad, Quad.At, WordAt;
    WordsMeet(a);
    HeadBytes(bytes, a, r, k);
    TailBytes(HeadWritten(bytes, a + 3, r), a, r, k);
    ByteWritten(bytes, a, r, k);
  }

  // Tail then head are all four bytes; so are head then tail.
  lemma HeadAfterTail(bytes: map<int, bv8>, a: int, r: Quad)
    requires WordAt(bytes, a) && WordAt(bytes, a + 3)
    ensures WordAt(TailWritten(bytes, a, r), a + 3)
    ensures HeadWritten(TailWritten(bytes, a, r), a + 3, r) == WithQuad(bytes, a, r)
  {
    hide TailWritten, HeadWritten, WithQuad, Quad.At, WordAt;
    WordsMeet(a);
    var t, all := TailWritten(bytes, a, r), WithQuad(bytes, a, r);
    KeysKept(bytes, a, r);
    SameKeys(bytes, t, a + 3);
    KeysKept(t, a, r);
    QuadKeys(bytes, a, r);
    forall k | k in bytes ensures HeadWritten(t, a + 3, r)[k] == all[k] {
      HeadAfterTailByte(bytes, a, r, k);
    }
  }

  lemma TailAfterHead(bytes: map<int, bv8>, a: int, r: Quad)
    requires WordAt(bytes, a) && WordAt(bytes, a + 3)
    ensures WordAt(HeadWritten(bytes, a + 3, r), a)
    ensures TailWritten(HeadWritten(bytes, a + 3, r), a, r) == WithQuad(bytes, a, r)
  {
    hide TailWritten, HeadWritten, WithQuad, Quad.At, WordAt;
    WordsMeet(a);
    var h, all := HeadWritten(bytes, a + 3, r), WithQuad(bytes, a, r);
    KeysKept(bytes, a, r);
    SameKeys(bytes, h, a);
    KeysKept(h, a, r);
    QuadKeys(bytes, a, r);
    forall k | k in bytes ensures TailWritten(h, a, r)[k] == all[k] {
      TailAfterHeadByte(bytes, a, r, k);
    }
  }

  lemma StoreLeftIs(bytes: map<int, bv8>, big: bool, a: int, reg: bv32)
    requires WordAt(bytes, a)
    ensures StoreLeft(bytes, big, a, reg)
         == if big then TailWritten(bytes, a, BytesOf(big, reg)) else HeadWritten(bytes, a, BytesOf(big, reg))
  {
    var q := QuadAt(bytes, WordAddress(a));
    var mem := WordOf(big, q);
    BytesOfWord(big, q);
    if big { SwlBig(reg, mem, a % 4); } else { SwlLittle(reg, mem, a % 4); }
    hide Swl, BytesOf, WordOf, QuadAt;
  }

  lemma StoreRightIs(bytes: map<int, bv8>, big: bool, a: int, reg: bv32)
    requires WordAt(bytes, a)
    ensures StoreRight(bytes, big, a, reg)
         == if big then HeadWritten(bytes, a, BytesOf(big, reg)) else TailWritten(bytes, a, BytesOf(big, reg))
  {
    var q := QuadAt(bytes, WordAddress(a));
    var mem := WordOf(big, q);
    BytesOfWord(big, q);
    if big { SwrBig(reg, mem, a % 4); } else { SwrLittle(reg, mem, a % 4); }
    hide Swr, BytesOf, WordOf, QuadAt;
  }

  // The address that the left and the right instruction of a pair use for the word at a.
  function LeftOf(big: bool, a: int): int { if big then a else a + 3 }
  function RightOf(big: bool, a: int): int { if big then a + 3 else a }

  // A pair of stores, in either order, writes exactly the four bytes from a on.
  lemma StorePair(bytes: map<int, bv8>, big: bool, a: int, reg: bv32)
    requires WordAt(bytes, a) && WordAt(bytes, a + 3)
    ensures var l := StoreLeft(bytes, big, LeftOf(big, a), reg);
            WordAt(l, RightOf(big, a))
            && StoreRight(l, big, RightOf(big, a), reg) == WithQuad(bytes, a, BytesOf(big, reg))
    ensures var r := StoreRight(bytes, big, RightOf(big, a), reg);
            WordAt(r, LeftOf(big, a))
            && StoreLeft(r, big, LeftOf(big, a), reg) == WithQuad(bytes, a, BytesOf(big, reg))
  {
    var q := BytesOf(big, reg);
    hide BytesOf, TailWritten, HeadWritten, StoreLeft, StoreRight, WithQuad;
    HeadAfterTail(bytes, a, q);
    TailAfterHead(bytes, a, q);
    StoreLeftIs(bytes, big, LeftOf(big, a), reg);
    StoreRightIs(bytes, big, RightOf(big, a), reg);
    StoreRightIs(StoreLeft(bytes, big, LeftOf(big, a), reg), big, RightOf(big, a), reg);
    StoreLeftIs(StoreRight(bytes, big, RightOf(big, a), reg), big, LeftOf(big, a), reg);
  }

  // What the register's bytes are after a left or right load.
  lemma LoadLeftIs(bytes: map<int, bv8>, big: bool, a: int, reg: bv32)
    requires WordAt(bytes, a)
    ensures var q := QuadAt(bytes, WordAddress(a));
            BytesOf(big, LoadLeft(bytes, big, a, reg))
            == (if big then LoadTail(BytesOf(big, reg), q, a % 4) else LoadHead(BytesOf(big, reg), q, a % 4))
  {
    var q := QuadAt(bytes, WordAddress(a));
    var mem := WordOf(big, q);
    BytesOfWord(big, q);
    if big { LwlBig(reg, mem, a % 4); } else { LwlLittle(reg, mem, a % 4); }
    hide Lwl, BytesOf, WordOf, QuadAt;
  }

  lemma LoadRightIs(bytes: map<int, bv8>, big: bool, a: int, reg: bv32)
    requires WordAt(bytes, a)
    ensures var q := QuadAt(bytes, WordAddress(a));
            BytesOf(big, LoadRight(bytes, big, a, reg))
            == (if big then LoadHead(BytesOf(big, reg), q, a % 4) else LoadTail(BytesOf(big, reg), q, a % 4))
  {
    var q := QuadAt(bytes, WordAddress(a));
    var mem := WordOf(big, q);
    BytesOfWord(big, q);
    if big { LwrBig(reg, mem, a % 4); } else { LwrLittle(reg, mem, a % 4); }
    hide Lwr, BytesOf, WordOf, QuadAt;
  }

  lemma BothLoaded(bytes: map<int, bv8>, a: int, r: Quad)
    requires WordAt(bytes, a) && WordAt(bytes, a + 3)
    ensures Holds(bytes, Word, a)
    ensures var t, h := QuadAt(bytes, WordAddress(a)), QuadAt(bytes, WordAddress(a + 3));
            LoadHead(LoadTail(r, t, a % 4), h, (a + 3) % 4) == QuadAt(bytes, a)
            == LoadTail(LoadHead(r, h, (a + 3) % 4), t, a % 4)
  {
    WordsMeet(a);
  }

  // A pair of loads, in either order, fetches the four bytes from a on, whatever the
  // register held.
  lemma LoadPair(bytes: map<int, bv8>, big: bool, a: int, reg: bv32)
    requires WordAt(bytes, a) && WordAt(bytes, a + 3)
    ensures Holds(bytes, Word, a)
    ensures var l := LoadLeft(bytes, big, LeftOf(big, a), reg);
            LoadRight(bytes, big, RightOf(big, a), l) == WordOf(big, QuadAt(bytes, a))
    ensures var r := LoadRight(bytes, big, RightOf(big, a), reg);
            LoadLeft(bytes, big, LeftOf(big, a), r) == WordOf(big, QuadAt(bytes, a))
  {
    BothLoaded(bytes, a, BytesOf(big, reg));
    var l, r := LoadLeft(bytes, big, LeftOf(big, a), reg), LoadRight(bytes, big, RightOf(big, a), reg);
    var lr, rl := LoadRight(bytes, big, RightOf(big, a), l), LoadLeft(bytes, big, LeftOf(big, a), r);
    LoadLeftIs(bytes, big, LeftOf(big, a), reg);
    LoadRightIs(bytes, big, RightOf(big, a), reg);
    LoadRightIs(bytes, big, RightOf(big, a), l);
    LoadLeftIs(bytes, big, LeftOf(big, a), r);
    WordOfBytes(big, lr);
    WordOfBytes(big, rl);
    hide BytesOf, WordOf, LoadLeft, LoadRight, LoadHead, LoadTail, QuadAt, WordAddress;
  }

  // What a pair of stores puts at any address, a pair of loads brings back.
  lemma UnalignedRoundTrip(bytes: map<int, bv8>, big: bool, a: int, reg: bv32, dest: bv32)
    requires WordAt(bytes, a) && WordAt(bytes, a + 3)
    ensures var stored := WithQuad(bytes, a, BytesOf(big, reg));
            WordAt(stored, a) && WordAt(stored, a + 3)
            && LoadRight(stored, big, RightOf(big, a), LoadLeft(stored, big, LeftOf(big, a), dest)) == reg
            && LoadLeft(stored, big, LeftOf(big, a), LoadRight(stored, big, RightOf(big, a), dest)) == reg
  {
    var q := BytesOf(big, reg);
    var stored := WithQuad(bytes, a, q);
    QuadKeys(bytes, a, q);
    SameKeys(bytes, stored, a);
    SameKeys(bytes, stored, a + 3);
    LoadPair(stored, big, a, dest);
    assert QuadAt(stored, a) == q;
    WordOfBytes(big, reg);
    hide BytesOf, WordOf, LoadLeft, LoadRight, WordAddress, WithQuad;
  }
}
