/** The mapper: ranges of memory behind two caches, in the byte order of the target
    machine whatever the byte order of the host. */
module Mappers {
  import opened Endian
  import opened Exceptions
  import opened Memory
  import opened Caches
  import opened Ranges

  // Contents c, from address base on, are what the flat memory says.
  ghost predicate Mirrors(bytes: map<int, bv8>, base: int, c: seq<bv8>) {
    forall a :: base <= a < base + |c| ==> a in bytes && bytes[a] == c[a - base]
  }

  // The piece of a cache entry at address a, as the host finds it among the entry's own bytes.
  function HostIndex(byteswapped: bool, width: Width, a: int): int {
    var n := Index(width, a);
    if !byteswapped then n
    else match width case Word => n case Half => 1 - n case Byte => 3 - n
  }

  function EntryPiece(host: bool, byteswapped: bool, entry: bv32, width: Width, a: int): bv32 {
    if width == Word then entry else Piece(host, BytesOf(host, entry), width, HostIndex(byteswapped, width, a))
  }

  function EntryWith(host: bool, byteswapped: bool, entry: bv32, width: Width, a: int, data: bv32): bv32 {
    if width == Word then data
    else WordOf(host, WithPiece(host, BytesOf(host, entry), width, HostIndex(byteswapped, width, a), data))
  }

  lemma PieceBackwards(host: bool, q: Quad, width: Width, a: int)
    ensures Piece(host, q.Reversed(), width, HostIndex(true, width, a)) == Piece(!host, q, width, Index(width, a))
  {
  }

  lemma WithPieceBackwards(host: bool, q: Quad, width: Width, a: int, data: bv32)
    ensures WithPiece(host, q.Reversed(), width, HostIndex(true, width, a), data)
         == WithPiece(!host, q, width, Index(width, a), data).Reversed()
  {
    assert width == Half ==> Index(width, a) in {0, 1};
  }

  // The host's indexing of an entry, corrected for byte order, finds the piece that the target means.
  lemma EntryPieceIsPart(host: bool, big: bool, entry: bv32, width: Width, a: int)
    ensures EntryPiece(host, big != host, entry, width, a) == Part(big, entry, width, a)
  {
    WordOfBytes(big, entry);
    if big != host {
      PieceBackwards(host, BytesOf(big, entry), width, a);
    }
  }

  lemma EntryWithIsWithPart(host: bool, big: bool, entry: bv32, width: Width, a: int, data: bv32)
    ensures EntryWith(host, big != host, entry, width, a, data) == WithPart(big, entry, width, a, data)
  {
    WordOfBytes(big, data);
    if big != host {
      WithPieceBackwards(host, BytesOf(big, entry), width, a, data);
    }
  }

  lemma MirroredQuad(bytes: map<int, bv8>, base: int, c: seq<bv8>, o: int)
    requires Mirrors(bytes, base, c) && 0 <= o && o + 4 <= |c|
    ensures Holds(bytes, Word, base + o) && QuadAt(bytes, base + o) == QuadIn(c, o)
  {
  }

  lemma PutMirrors(bytes: map<int, bv8>, base: int, c: seq<bv8>, o: int, a: int, q: Quad)
    requires Mirrors(bytes, base, c) && 0 <= o && o + 4 <= |c| && a == base + o
    ensures Holds(bytes, Word, a)
    ensures Mirrors(WithQuad(bytes, a, q), base, QuadPut(c, o, q))
  {
  }

  lemma PutMirrorsHalf(bytes: map<int, bv8>, base: int, c: seq<bv8>, o: int, a: int, b0: bv8, b1: bv8)
    requires Mirrors(bytes, base, c) && 0 <= o && o + 2 <= |c| && a == base + o
    ensures Holds(bytes, Half, a)
    ensures Mirrors(bytes[a := b0][a + 1 := b1], base, c[o := b0][o + 1 := b1])
  {
  }

  // Writing to one region leaves another's bytes alone.
  lemma ElsewhereMirrors(bytes: map<int, bv8>, base: int, c: seq<bv8>, big: bool, width: Width, a: int, data: bv32)
    requires Mirrors(bytes, base, c) && (a + Size(width) <= base || base + |c| <= a || c == [])
    ensures Mirrors(Scatter(bytes, big, width, a, data), base, c)
  {
  }

  // Words line up in a range as they do in memory.
  lemma WordOffset(base: int, a: int)
    requires base % 4 == 0
    ensures base + WordAddress(a - base) == WordAddress(a)
  {
    var q := base / 4;
    assert base == 4 * q;
    QuotientBy4(a - base, a / 4 - q, a % 4);
  }

  lemma PutWordMirrors(bytes: map<int, bv8>, base: int, c: seq<bv8>, a: int, q: Quad)
    requires Mirrors(bytes, base, c) && base % 4 == 0
    requires 0 <= WordAddress(a - base) && WordAddress(a - base) + 4 <= |c|
    ensures Holds(bytes, Word, WordAddress(a)) && base <= WordAddress(a) && WordAddress(a) + 4 <= base + |c|
    ensures Mirrors(WithQuad(bytes, WordAddress(a), q), base, QuadPut(c, WordAddress(a - base), q))
  {
    WordOffset(base, a);
    PutMirrors(bytes, base, c, WordAddress(a - base), WordAddress(a), q);
  }

  lemma HalfOffset(base: int, a: int)
    requires base % 4 == 0 && a % 2 == 0
    ensures base + 2 * ((a - base) / 2) == a
  {
    var q, h := base / 4, a / 2;
    assert base == 4 * q && a == 2 * h;
    assert (a - base) / 2 == h - 2 * q;
  }

  // A word and a halfword of a range, read by the host and put into the target's order.
  lemma TargetWord(bytes: map<int, bv8>, base: int, c: seq<bv8>, o: int, a: int, host: bool, big: bool)
    requires Mirrors(bytes, base, c) && 0 <= o && o + 4 <= |c| && a == base + o
    ensures Holds(bytes, Word, a)
    ensures Swapped(big != host, WordOf(host, QuadIn(c, o))) == Gather(bytes, big, Word, a)
  {
    MirroredQuad(bytes, base, c, o);
    SwapOfWord(host, QuadAt(bytes, a));
  }

  lemma TargetHalf(bytes: map<int, bv8>, base: int, c: seq<bv8>, o: int, a: int, host: bool, big: bool)
    requires Mirrors(bytes, base, c) && 0 <= o && o + 2 <= |c| && a == base + o
    ensures Holds(bytes, Half, a)
    ensures SwappedHalf(big != host, HalfOf(host, c[o], c[o + 1])) == Gather(bytes, big, Half, a)
  {
    SwapOfWord(host, Quad(bytes[a], bytes[a + 1], 0, 0));
  }

  // The memory with one more region.
  ghost function WithRegion(s: Space, r: Region, c: seq<bv8>): Space
    requires |c| == r.extent
  {
    Space(s.layout + [r], s.bytes + map a | r.base <= a < r.base + r.extent && Has(r, a) :: c[a - r.base])
  }

  lemma {:induction false} AddedOwner(layout: seq<Region>, r: Region, a: int)
    ensures Owner(layout + [r], a)
         == if Owner(layout, a) >= 0 then Owner(layout, a) else if Has(r, a) then |layout| else -1
  {
    if layout == [] {
      assert (layout + [r])[1..] == [];
    } else {
      assert (layout + [r])[1..] == layout[1..] + [r];
      AddedOwner(layout[1..], r, a);
    }
  }

  lemma AddedWord(s: Space, r: Region, c: seq<bv8>, big: bool, tag: int, data: bv32)
    requires WellFormed(s) && WordIs(s, big, tag, data) && |c| == r.extent
    requires forall k :: 0 <= k < |s.layout| ==> Apart(s.layout[k], r)
    ensures WordIs(WithRegion(s, r, c), big, tag, data)
  {
    var t := WithRegion(s, r, c);
    AddedOwner(s.layout, r, 4 * tag);
    forall i | 4 * tag <= i < 4 * tag + 4 ensures i in t.bytes && t.bytes[i] == s.bytes[i] {
      assert i in s.bytes;
    }
    assert QuadAt(t.bytes, 4 * tag) == QuadAt(s.bytes, 4 * tag);
  }

  // What the caches hold stays right when a region is added.
  lemma AddedRegionAgrees(lines: seq<Line>, s: Space, r: Region, c: seq<bv8>, big: bool)
    requires WellFormed(s) && Agrees(lines, s, big) && |c| == r.extent
    requires forall k :: 0 <= k < |s.layout| ==> Apart(s.layout[k], r)
    ensures Agrees(lines, WithRegion(s, r, c), big)
  {
    forall k | 0 <= k < |lines| && lines[k].valid ensures LineAgrees(lines[k], k, WithRegion(s, r, c), big) {
      assert LineAgrees(lines[k], k, s, big);
      AddedWord(s, r, c, big, lines[k].tag, lines[k].data);
    }
  }

  lemma LayoutAdd(layout: seq<Region>, r: Region)
    requires Layout(layout) && Plain(r)
    requires forall k :: 0 <= k < |layout| ==> Apart(layout[k], r)
    ensures Layout(layout + [r])
  {
  }

  lemma WithRegionIsWellFormed(s: Space, r: Region, c: seq<bv8>)
    requires WellFormed(s) && Plain(r) && |c| == r.extent
    requires forall k :: 0 <= k < |s.layout| ==> Apart(s.layout[k], r)
    ensures WellFormed(WithRegion(s, r, c))
  {
    var t := WithRegion(s, r, c);
    LayoutAdd(s.layout, r);
    forall a ensures a in t.bytes <==> Owner(t.layout, a) >= 0 {
      AddedOwner(s.layout, r, a);
    }
  }

  lemma WithRegionMirrors(s: Space, r: Region, c: seq<bv8>)
    requires |c| == r.extent
    ensures Mirrors(WithRegion(s, r, c).bytes, r.base, c)
  {
    forall a | r.base <= a < r.base + |c| ensures a in WithRegion(s, r, c).bytes {
      assert Has(r, a);
    }
  }

  lemma WithRegionMirrorsOthers(s: Space, r: Region, c: seq<bv8>, base: int, d: seq<bv8>)
    requires Mirrors(s.bytes, base, d) && |c| == r.extent
    requires base + |d| <= r.base || r.base + r.extent <= base || d == [] || c == []
    ensures Mirrors(WithRegion(s, r, c).bytes, base, d)
  {
    forall a | base <= a < base + |d|
      ensures a in WithRegion(s, r, c).bytes && WithRegion(s, r, c).bytes[a] == d[a - base]
    {
      assert a in s.bytes && !Has(r, a);
    }
  }

  class Mapper {
    const big: bool
    const host: bool
    const byteswapped: bool
    const icache: array<Line>
    const dcache: array<Line>
    var ranges: seq<Range>
    var lastUsed: Range?
    var isolated: bool
    var swapped: bool
    ghost var space: Space
    ghost var Repr: set<object>

    ghost predicate Owned()
      reads this
    {
      && this in Repr && icache in Repr && dcache in Repr && icache != dcache
      && icache.Length == LINES && dcache.Length == LINES
      && byteswapped == (big != host)
      && (forall i :: 0 <= i < |ranges| ==> ranges[i] in Repr && ranges[i].address in Repr)
      && (forall i :: 0 <= i < |ranges| ==> ranges[i].address as object !in {icache as object, dcache as object})
      && (forall i, j :: 0 <= i < j < |ranges| ==> ranges[i] != ranges[j] && ranges[i].address != ranges[j].address)
      && (lastUsed != null ==> lastUsed in ranges)
    }

    ghost predicate Mapped(i: int)
      requires 0 <= i < |ranges| == |space.layout|
      reads this`ranges, this`space, ranges[i], ranges[i].address
    {
      ranges[i].Valid() && ranges[i].host == host && space.layout[i] == ranges[i].Area()
      && Mirrors(space.bytes, ranges[i].base, ranges[i].address[..])
    }

    ghost predicate Valid()
      reads this, Repr
    {
      Owned() && WellFormed(space) && |space.layout| == |ranges|
          && forall i {:trigger ranges[i]} :: 0 <= i < |ranges| ==> Mapped(i)
    }

    ghost predicate MappedBut(i: int)
      requires Owned() && |space.layout| == |ranges|
      reads this, Repr
    {
      forall j :: 0 <= j < |ranges| && j != i ==> Mapped(j)
    }

    // What the mapper is to its clients.
    ghost function View(): (s: State)
      requires Owned()
      reads this, icache, dcache
    {
      State(big, space, icache[..], dcache[..], isolated, swapped)
    }

    lemma CachesOwned()
      requires Valid()
      ensures this in Repr && icache in Repr && dcache in Repr && Owned() && View().Valid()
    {
    }

    constructor (big: bool, host: bool)
      ensures Valid() && fresh(Repr)
      ensures this.big == big && this.host == host && !isolated && !swapped && space == Space([], map[])
      ensures Agrees(View().icache, space, big) && Agrees(View().dcache, space, big)
    {
      this.big := big;
      this.host := host;
      byteswapped := (big && !host) || (!big && host);
      icache := new Line[LINES](i => Line(false, 0, 0));
      dcache := new Line[LINES](i => Line(false, 0, 0));
      ranges := [];
      lastUsed := null;
      isolated := false;
      swapped := false;
      space := Space([], map[]);
      new;
      Repr := {this, icache, dcache};
    }

    function HostToMipsWord(w: bv32): bv32 { Swapped(byteswapped, w) }
    function MipsToHostWord(w: bv32): bv32 { Swapped(byteswapped, w) }
    function HostToMipsHalfword(h: bv32): bv32 { SwappedHalf(byteswapped, h) }
    function MipsToHostHalfword(h: bv32): bv32 { SwappedHalf(byteswapped, h) }

    // Range l is number i, and has address a.
    ghost predicate At(l: Range, i: int, a: int)
      reads this
    {
      0 <= i < |ranges| == |space.layout| && ranges[i] == l && Has(space.layout[i], a)
    }

    // The unique range that has address a, whatever was looked up before.
    method FindMappingRange(a: Address) returns (l: Range?, ghost i: int)
      requires Valid()
      modifies this`lastUsed
      ensures Valid()
      ensures i == Owner(space.layout, a)
      ensures if i < 0 then l == null else l != null && At(l, i, a)
    {
      if lastUsed != null && Incorporates(lastUsed.Area(), a) {
        i :| 0 <= i < |ranges| && ranges[i] == lastUsed;
        assert Mapped(i);
        OneOwner(space.layout, a, i);
        return lastUsed, i;
      }
      for n := 0 to |ranges|
        invariant lastUsed == old(lastUsed)
        invariant forall j :: 0 <= j < n ==> !Has(space.layout[j], a)
      {
        assert Mapped(n);
        if Incorporates(ranges[n].Area(), a) {
          OneOwner(space.layout, a, n);
          lastUsed := ranges[n];
          assert forall j :: 0 <= j < |ranges| ==> old(Mapped(j)) ==> Mapped(j);
          return ranges[n], n;
        }
      }
      return null, -1;
    }

    // The word at address a, in the target's byte order.
    method FetchTargetWord(l: Range, ghost i: int, a: Address) returns (w: bv32)
      requires Valid() && At(l, i, a)
      ensures Holds(space.bytes, Word, WordAddress(a))
      ensures w == Gather(space.bytes, big, Word, WordAddress(a))
    {
      assert Mapped(i);
      var raw := l.FetchWord(a - l.base);
      WordOffset(l.base, a);
      TargetWord(space.bytes, l.base, l.address[..], WordAddress(a - l.base), WordAddress(a), host, big);
      w := HostToMipsWord(raw);
    }

    method FetchTargetHalfword(l: Range, ghost i: int, a: Address) returns (h: bv32)
      requires Valid() && At(l, i, a) && a % 2 == 0
      ensures Holds(space.bytes, Half, a)
      ensures h == Gather(space.bytes, big, Half, a)
    {
      var raw := l.FetchHalfword(a - l.base);
      HalfOffset(l.base, a);
      TargetHalf(space.bytes, l.base, l.address[..], 2 * ((a - l.base) / 2), a, host, big);
      h := HostToMipsHalfword(raw);
    }

    method FetchUncached(l: Range, ghost i: int, width: Width, a: Address) returns (w: bv32)
      requires Valid() && At(l, i, a) && a % Size(width) == 0
      ensures Holds(space.bytes, width, a)
      ensures w == Gather(space.bytes, big, width, a)
    {
      match width
      case Word =>
        QuotientBy4(a, Tag(a), 0);
        w := FetchTargetWord(l, i, a);
      case Half =>
        w := FetchTargetHalfword(l, i, a);
      case Byte =>
        assert l.address[..][a - l.base] == space.bytes[a];
        w := l.FetchByte(a - l.base);
    }

    // Change one cache entry.
    method SetEntry(cache: array<Line>, k: int, line: Line)
      requires Valid() && (cache == icache || cache == dcache) && 0 <= k < LINES
      modifies cache
      ensures Valid()
      ensures cache[..] == old(cache[..])[k := line]
    {
      cache[k] := line;
      forall i | 0 <= i < |ranges| ensures Mapped(i) {
        assert old(Mapped(i));
      }
    }

    // Which entries an access goes through.
    function CacheFor(mode: Mode): array<Line>
      reads this`swapped
    {
      if swapped then (if mode.InstFetch? then dcache else icache) else (if mode.InstFetch? then icache else dcache)
    }

    predicate CacheUseEntry(entry: Line, tag: int, mode: Mode)
      reads this`isolated
    {
      (isolated && !mode.InstFetch?) || (entry.valid && entry.tag == tag)
    }

    // Refill the entry for address a, and return the piece of it at a.
    method CacheDoFill(cache: array<Line>, l: Range, ghost i: int, mode: Mode, width: Width, a: Address)
      returns (w: bv32)
      requires Valid() && At(l, i, a) && cache == CacheFor(mode) && (isolated ==> mode.InstFetch?)
      modifies cache
      ensures Valid()
      ensures Holds(space.bytes, Word, WordAddress(a))
      ensures var word := Gather(space.bytes, big, Word, WordAddress(a));
              w == Part(big, word, width, a)
              && cache[..] == old(cache[..])[Slot(a) := Line(true, Tag(a), word)]
    {
      var word := cache[Slot(a)].data;
      if !isolated || mode.InstFetch? {
        word := FetchTargetWord(l, i, a);
      }
      SetEntry(cache, Slot(a), Line(true, Tag(a), word));
      EntryPieceIsPart(host, big, word, width, a);
      w := EntryPiece(host, byteswapped, word, width, a);
    }

    method FetchMiss(width: Width, a: Address, mode: Mode, cacheable: bool) returns (r: Outcome<bv32>)
      requires Valid() && a % Size(width) == 0 && (cacheable && isolated ==> mode.InstFetch?)
      modifies this`lastUsed, icache, dcache
      ensures Valid()
      ensures Reply(r, View()) == Miss(old(View()), width, a, mode, cacheable)
    {
      hide Gather, Part, Holds, Ones, Slot, Tag;
      SameOwner(space.layout, WordAddress(a), a);
      var l, i := FindMappingRange(if cacheable then WordAddress(a) else a);
      if l == null {
        return Raised(if mode.InstFetch? then IBE else DBE, mode);
      }
      if !l.readable {
        return Value(Ones(width));
      }
      if cacheable {
        r := FetchFill(l, i, width, a, mode);
      } else {
        var w := FetchUncached(l, i, width, a);
        r := Value(w);
      }
    }

    method FetchFill(l: Range, ghost i: int, width: Width, a: Address, mode: Mode) returns (r: Outcome<bv32>)
      requires Valid() && At(l, i, WordAddress(a)) && a % Size(width) == 0 && (isolated ==> mode.InstFetch?)
          && l.readable
      requires At(l, i, a)
      modifies icache, dcache
      ensures Valid()
      ensures Reply(r, View()) == Miss(old(View()), width, a, mode, true)
    {
      hide Gather, Part, Holds, Ones, Slot, Tag;
      assert Mapped(i);
      OneOwner(space.layout, a, i);
      var w := CacheDoFill(CacheFor(mode), l, i, mode, width, a);
      return Value(w);
    }

    // The three fetches: word, halfword and byte.
    method Fetch(width: Width, a: Address, mode: Mode, cacheable: bool) returns (r: Outcome<bv32>)
      requires Valid()
      modifies this`lastUsed, icache, dcache
      ensures Valid()
      ensures Reply(r, View()) == Caches.Fetch(old(View()), width, a, mode, cacheable)
    {
      if a % Size(width) != 0 {
        return Raised(AdEL, mode);
      }
      var cache := CacheFor(mode);
      if cacheable && CacheUseEntry(cache[Slot(a)], Tag(a), mode) {
        EntryPieceIsPart(host, big, cache[Slot(a)].data, width, a);
        return Value(EntryPiece(host, byteswapped, cache[Slot(a)].data, width, a));
      }
      r := FetchMiss(width, a, mode, cacheable);
    }

    // Range l has been written: its contents were c and the bytes of memory were `bytes`.
    ghost method NoteStore(l: Range, i: int, width: Width, a: int, data: bv32)
      requires Owned() && WellFormed(space) && |space.layout| == |ranges|
      requires At(l, i, a) && Holds(space.bytes, width, a) && a + Size(width) <= l.base + l.extent
      requires MappedBut(i)
      requires l.Valid() && l.host == host && space.layout[i] == l.Area()
      requires Mirrors(Scatter(space.bytes, big, width, a, data), l.base, l.address[..])
      modifies this`space
      ensures Valid() && space == old(space).(bytes := Scatter(old(space.bytes), big, width, a, data))
    {
      ScatterKeepsWellFormed(space, big, width, a, data);
      forall j | 0 <= j < |ranges| && j != i
        ensures Mirrors(Scatter(space.bytes, big, width, a, data), ranges[j].base, ranges[j].address[..])
      {
        assert Mapped(j);
        assert Apart(space.layout[if i < j then i else j], space.layout[if i < j then j else i]);
        ElsewhereMirrors(space.bytes, ranges[j].base, ranges[j].address[..], big, width, a, data);
      }
      space := space.(bytes := Scatter(space.bytes, big, width, a, data));
      forall j | 0 <= j < |ranges| ensures Mapped(j) {
        assert j != i ==> old(Mapped(j));
      }
    }

    // Writing range i leaves the others as they were.
    twostate lemma OthersMapped(i: int)
      requires old(Valid()) && Owned() && 0 <= i < |old(ranges)|
      requires ranges == old(ranges) && space == old(space)
      requires forall o: object :: o in old(Repr) && o != old(ranges[i].address) ==> unchanged(o)
      ensures MappedBut(i)
    {
      forall j | 0 <= j < |ranges| && j != i ensures Mapped(j) {
        assert old(Mapped(j));
      }
    }

    method StoreTargetWord(l: Range, ghost i: int, a: Address, data: bv32)
      requires Valid() && At(l, i, a)
      modifies this`space, l.address
      ensures Valid()
      ensures space == old(space).(bytes := Scatter(old(space.bytes), big, Word, WordAddress(a), data))
    {
      ghost var c := l.address[..];
      l.StoreWord(a - l.base, MipsToHostWord(data));
      SentWord(host, big, data);
      PutWordMirrors(space.bytes, l.base, c, a, BytesOf(big, data));
      OthersMapped(i);
      NoteStore(l, i, Word, WordAddress(a), data);
    }

    method StoreTargetHalfword(l: Range, ghost i: int, a: Address, data: bv32)
      requires Valid() && At(l, i, a) && a % 2 == 0
      modifies this`space, l.address
      ensures Valid()
      ensures space == old(space).(bytes := Scatter(old(space.bytes), big, Half, a, data))
    {
      ghost var c := l.address[..];
      l.StoreHalfword(a - l.base, MipsToHostHalfword(data));
      SentHalf(host, big, data);
      HalfOffset(l.base, a);
      PutMirrorsHalf(space.bytes, l.base, c, 2 * ((a - l.base) / 2), a, HalfByte(big, data, 0), HalfByte(big, data, 1));
      OthersMapped(i);
      NoteStore(l, i, Half, a, data);
    }

    method StoreTargetByte(l: Range, ghost i: int, a: Address, data: bv32)
      requires Valid() && At(l, i, a)
      modifies this`space, l.address
      ensures Valid()
      ensures space == old(space).(bytes := Scatter(old(space.bytes), big, Byte, a, data))
    {
      l.StoreByte(a - l.base, data);
      OthersMapped(i);
      NoteStore(l, i, Byte, a, data);
    }

    method StoreUncached(l: Range, ghost i: int, width: Width, a: Address, data: bv32)
      requires Valid() && At(l, i, a) && a % Size(width) == 0
      modifies this`space, l.address
      ensures Valid()
      ensures space == old(space).(bytes := Scatter(old(space.bytes), big, width, a, data))
    {
      match width
      case Word =>
        QuotientBy4(a, Tag(a), 0);
        StoreTargetWord(l, i, a, data);
      case Half =>
        StoreTargetHalfword(l, i, a, data);
      case Byte =>
        StoreTargetByte(l, i, a, data);
    }

    // The entry for address a as a store leaves it, filled first where only a part is stored.
    method Merge(l: Range, ghost i: int, width: Width, a: Address, data: bv32) returns (word: bv32)
      requires Valid() && At(l, i, a) && !isolated && i == Owner(space.layout, a)
      ensures word == Merged(View(), width, a, data)
    {
      var entry := CacheFor(DataStore)[Slot(a)];
      word := entry.data;
      if width != Word && !CacheUseEntry(entry, Tag(a), DataStore) {
        word := FetchTargetWord(l, i, a);
      }
      EntryWithIsWithPart(host, big, word, width, a, data);
      word := EntryWith(host, byteswapped, word, width, a, data);
    }

    // A store through the cache: into memory too, unless the caches are isolated.
    method CacheWrite(l: Range, ghost i: int, width: Width, a: Address, data: bv32)
      requires Valid() && At(l, i, a) && i == Owner(space.layout, a)
      modifies this`space, icache, dcache, l.address
      ensures Valid()
      ensures View() == Caches.CacheWrite(old(View()), width, a, data)
    {
      var cache := CacheFor(DataStore);
      if isolated {
        var entry := cache[Slot(a)];
        SetEntry(cache, Slot(a), if width == Word then entry.(data := data) else entry.(valid := false));
      } else {
        var word := Merge(l, i, width, a, data);
        SetEntry(cache, Slot(a), Line(true, Tag(a), word));
        StoreTargetWord(l, i, a, word);
      }
    }

    // The three stores: word, halfword and byte.
    method Store(width: Width, a: Address, data: bv32, cacheable: bool) returns (r: Outcome<()>)
      requires Valid()
      modifies this`lastUsed, this`space, Repr - {this}
      ensures Valid() && Repr == old(Repr)
      ensures Reply(r, View()) == StoreAt(old(View()), width, a, data, cacheable)
    {
      hide Caches.CacheWrite, Scatter, Slot, Tag, WellFormed;
      if a % Size(width) != 0 {
        return Raised(AdES, DataStore);
      }
      var l, i := FindMappingRange(a);
      if l == null {
        return Raised(DBE, DataStore);
      }
      if !l.writable {
        return Value(());
      }
      if cacheable {
        CacheWrite(l, i, width, a, data);
      } else if !isolated {
        StoreUncached(l, i, width, a, data);
      }
      return Value(());
    }

    method CacheSetControlBits(isolated: bool, swapped: bool)
      requires Valid()
      modifies this`isolated, this`swapped
      ensures Valid() && View() == old(View()).(isolated := isolated, swapped := swapped)
    {
      this.isolated := isolated;
      this.swapped := swapped;
      forall i | 0 <= i < |ranges| ensures Mapped(i) {
        assert old(Mapped(i));
      }
    }

    // Map range r, unless it overlaps a range that is mapped already.
    method AddRange(r: Range) returns (rc: int)
      requires Valid() && r.Valid() && r.host == host
      requires r !in Repr && r.address !in Repr
      modifies this`ranges, this`space, this`Repr
      ensures Valid()
      ensures rc == if exists k :: 0 <= k < |old(ranges)| && Overlaps(r.Area(), old(ranges[k].Area())) then -1 else 0
      ensures rc != 0 ==> ranges == old(ranges) && space == old(space) && Repr == old(Repr)
      ensures rc == 0 ==> ranges == old(ranges) + [r] && Repr == old(Repr) + {r, r.address}
                          && space == WithRegion(old(space), r.Area(), r.address[..])
    {
      for n := 0 to |ranges|
        invariant ranges == old(ranges) && space == old(space) && Repr == old(Repr)
        invariant forall k :: 0 <= k < n ==> !Overlaps(r.Area(), ranges[k].Area())
      {
        if Overlaps(r.Area(), ranges[n].Area()) {
          return -1;
        }
      }
      forall k | 0 <= k < |ranges| ensures Apart(space.layout[k], r.Area()) {
        assert Mapped(k);
        NoOverlapIsApart(r.Area(), space.layout[k]);
      }
      WithRegionIsWellFormed(space, r.Area(), r.address[..]);
      forall k | 0 <= k < |ranges|
        ensures Mirrors(WithRegion(space, r.Area(), r.address[..]).bytes, ranges[k].base, ranges[k].address[..])
      {
        assert Mapped(k);
        WithRegionMirrorsOthers(space, r.Area(), r.address[..], ranges[k].base, ranges[k].address[..]);
      }
      WithRegionMirrors(space, r.Area(), r.address[..]);
      ranges := ranges + [r];
      space := WithRegion(space, r.Area(), r.address[..]);
      Repr := Repr + {r, r.address};
      forall k | 0 <= k < |ranges| ensures Mapped(k) {
        assert k < |old(ranges)| ==> old(Mapped(k));
      }
      rc := 0;
    }
  }
}
