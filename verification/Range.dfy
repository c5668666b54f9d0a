/** Ranges of memory: where they lie, whether they overlap, and raw access to their bytes. */
module Ranges {
  import opened Endian
  import opened Memory

  // 32-bit addition.
  function Sum32(a: int, b: int): int { (a + b) % 0x1_0000_0000 }

  predicate Word32(r: Region) {
    0 <= r.base < 0x1_0000_0000 && 0 <= r.extent < 0x1_0000_0000
  }

  // Range::incorporates and Range::overlaps, with the ends of the regions in 32 bits.
  predicate Incorporates(r: Region, a: Address) {
    a >= r.base && a < Sum32(r.base, r.extent)
  }

  predicate Overlaps(r: Region, s: Region) {
    var rEnd, sEnd := Sum32(r.base, r.extent), Sum32(s.base, s.extent);
    (r.base <= s.base && rEnd > s.base) || (s.base <= r.base && sEnd > r.base)
    || (r.base >= s.base && rEnd <= sEnd) || (s.base >= r.base && sEnd <= rEnd)
  }

  predicate Wraps(r: Region) { r.base + r.extent >= 0x1_0000_0000 }

  // The test for an address is right for every address exactly when the end of the
  // region does not wrap around; a region that ends at the very top has no address.
  lemma IncorporatesIsHas(r: Region)
    requires Word32(r)
    ensures (forall a: Address :: Incorporates(r, a) <==> Has(r, a)) <==> !Wraps(r) || r.extent == 0
  {
    if Wraps(r) && r.extent > 0 {
      var a: Address := r.base;
      assert Has(r, a) && !Incorporates(r, a);
    }
  }

  // Two non-empty regions that do not wrap around overlap exactly when they share an address.
  lemma OverlapsIsSharing(r: Region, s: Region)
    requires Word32(r) && Word32(s) && !Wraps(r) && !Wraps(s) && r.extent > 0 && s.extent > 0
    ensures Overlaps(r, s) <==> exists a: Address :: Has(r, a) && Has(s, a)
  {
    if Overlaps(r, s) {
      var a: Address := if r.base <= s.base then s.base else r.base;
      assert Has(r, a) && Has(s, a);
    }
  }

  // A region that wraps around can share an address with another and not be noticed.
  lemma WrappedOverlapUnseen()
    ensures var r, s := Region(0xf000_0000, 0x2000_0000, true, true), Region(0xf800_0000, 0x1000, true, true);
            Word32(r) && Wraps(r) && Word32(s) && !Overlaps(r, s) && Has(r, 0xf800_0000) && Has(s, 0xf800_0000)
  {
  }

  // So the test is right about a region and every other that does not wrap around exactly when
  // the region itself does not; else it also reports a region that shares nothing with it.
  lemma OverlapsIsRightExactly(r: Region)
    requires Word32(r) && r.extent > 0
    ensures (forall s: Region :: Word32(s) && !Wraps(s) && s.extent > 0 ==>
               (Overlaps(r, s) <==> exists a: Address :: Has(r, a) && Has(s, a)))
       <==> !Wraps(r)
  {
    if Wraps(r) {
      FalseAlarm(r);
    } else {
      forall s: Region | Word32(s) && !Wraps(s) && s.extent > 0
        ensures Overlaps(r, s) <==> exists a: Address :: Has(r, a) && Has(s, a)
      {
        OverlapsIsSharing(r, s);
      }
    }
  }

  // The addresses from 0 to the end of a region that wraps around.
  function Below(r: Region): Region {
    var e := Sum32(r.base, r.extent);
    Region(0, if e > 0 then e else 1, true, true)
  }

  lemma FalseAlarm(r: Region)
    requires Word32(r) && r.extent > 0 && Wraps(r)
    ensures var s := Below(r);
            && Word32(s) && !Wraps(s) && s.extent > 0
            && Overlaps(r, s) && (forall a: Address :: !(Has(r, a) && Has(s, a)))
  {
  }

  lemma NoOverlapIsApart(r: Region, s: Region)
    requires Plain(r) && Plain(s) && !Overlaps(r, s)
    ensures Apart(r, s)
  {
  }

  // The four bytes of contents c at offset o, and c with four others there.
  function QuadIn(c: seq<bv8>, o: int): Quad
    requires 0 <= o && o + 4 <= |c|
  {
    Quad(c[o], c[o + 1], c[o + 2], c[o + 3])
  }

  function QuadPut(c: seq<bv8>, o: int, q: Quad): seq<bv8>
    requires 0 <= o && o + 4 <= |c|
  {
    c[o := q.b0][o + 1 := q.b1][o + 2 := q.b2][o + 3 := q.b3]
  }

  lemma WordInside(o: int, extent: int)
    requires 0 <= o < extent && extent % 4 == 0
    ensures 0 <= WordAddress(o) && WordAddress(o) + 4 <= extent
  {
    assert extent == 4 * (extent / 4);
  }

  lemma HalfInside(o: int, extent: int)
    requires 0 <= o < extent && extent % 4 == 0
    ensures 0 <= 2 * (o / 2) && 2 * (o / 2) + 2 <= extent
  {
    var q, h := extent / 4, o / 2;
    assert extent == 4 * q && 2 * h <= o < 2 * h + 2;
    assert h < 2 * q;
  }

  class Range {
    var base: int
    const extent: nat
    const readable: bool
    const writable: bool
    const address: array<bv8>
    // The byte order of the host, whose words the raw accesses move.
    const host: bool

    function Area(): Region
      reads this
    {
      Region(base, extent, readable, writable)
    }

    ghost predicate Valid()
      reads this
    {
      Plain(Area()) && address.Length == extent
    }

    constructor (base: int, address: array<bv8>, readable: bool, writable: bool, host: bool)
      requires Plain(Region(base, address.Length, readable, writable))
      ensures Valid() && Area() == Region(base, address.Length, readable, writable)
      ensures this.address == address && this.host == host
    {
      this.base := base;
      this.extent := address.Length;
      this.address := address;
      this.readable := readable;
      this.writable := writable;
      this.host := host;
    }

    method FetchWord(offset: int) returns (data: bv32)
      requires Valid() && 0 <= offset < extent
      ensures 0 <= WordAddress(offset) && WordAddress(offset) + 4 <= extent
      ensures data == WordOf(host, QuadIn(address[..], WordAddress(offset)))
    {
      WordInside(offset, extent);
      var i := 4 * (offset / 4);
      data := WordOf(host, Quad(address[i], address[i + 1], address[i + 2], address[i + 3]));
    }

    method FetchHalfword(offset: int) returns (data: bv32)
      requires Valid() && 0 <= offset < extent
      ensures 0 <= 2 * (offset / 2) && 2 * (offset / 2) + 2 <= extent
      ensures data == HalfOf(host, address[2 * (offset / 2)], address[2 * (offset / 2) + 1])
    {
      HalfInside(offset, extent);
      var i := 2 * (offset / 2);
      data := HalfOf(host, address[i], address[i + 1]);
    }

    method FetchByte(offset: int) returns (data: bv32)
      requires Valid() && 0 <= offset < extent
      ensures data == ByteValue(address[offset])
    {
      data := ByteValue(address[offset]);
    }

    method StoreWord(offset: int, data: bv32)
      requires Valid() && 0 <= offset < extent
      modifies address
      ensures 0 <= WordAddress(offset) && WordAddress(offset) + 4 <= extent
      ensures address[..] == QuadPut(old(address[..]), WordAddress(offset), BytesOf(host, data))
    {
      WordInside(offset, extent);
      var i, q := 4 * (offset / 4), BytesOf(host, data);
      address[i], address[i + 1], address[i + 2], address[i + 3] := q.b0, q.b1, q.b2, q.b3;
    }

    method StoreHalfword(offset: int, data: bv32)
      requires Valid() && 0 <= offset < extent
      modifies address
      ensures 0 <= 2 * (offset / 2) && 2 * (offset / 2) + 2 <= extent
      ensures address[..] == old(address[..])[2 * (offset / 2) := HalfByte(host, data, 0)]
                                             [2 * (offset / 2) + 1 := HalfByte(host, data, 1)]
    {
      HalfInside(offset, extent);
      var i := 2 * (offset / 2);
      address[i], address[i + 1] := HalfByte(host, data, 0), HalfByte(host, data, 1);
    }

    method StoreByte(offset: int, data: bv32)
      requires Valid() && 0 <= offset < extent
      modifies address
      ensures address[..] == old(address[..])[offset := LowByte(data)]
    {
      address[offset] := LowByte(data);
    }
  }
}
