/** Physical memory: what the mapper does, stated without host byte order, and the
    flat byte memory that the caches have to be invisible over. */
module Memory {
  import opened Endian
  import opened Exceptions

  datatype Width = Byte | Half | Word

  function Size(width: Width): int {
    match width case Byte => 1 case Half => 2 case Word => 4
  }

  type Address = a: int | 0 <= a < 0x1_0000_0000

  datatype Region = Region(base: int, extent: int, readable: bool, writable: bool)

  predicate Has(r: Region, a: int) {
    r.base <= a < r.base + r.extent
  }

  // RAM and ROM: word aligned, ending below the top of the address space, and never write-only.
  predicate Plain(r: Region) {
    0 <= r.base && 0 <= r.extent && r.base + r.extent < 0x1_0000_0000 && r.base % 4 == 0 && r.extent % 4 == 0
    && (r.writable ==> r.readable)
  }

  predicate Apart(r: Region, s: Region) {
    r.base + r.extent <= s.base || s.base + s.extent <= r.base || r.extent == 0 || s.extent == 0
  }

  ghost predicate Layout(layout: seq<Region>) {
    (forall i :: 0 <= i < |layout| ==> Plain(layout[i]))
    && (forall i, j :: 0 <= i < j < |layout| ==> Apart(layout[i], layout[j]))
  }

  // The first region that has address a, or -1.
  ghost function Owner(layout: seq<Region>, a: int): (i: int)
    ensures -1 <= i < |layout|
    ensures i >= 0 ==> Has(layout[i], a)
    ensures i < 0 ==> forall j :: 0 <= j < |layout| ==> !Has(layout[j], a)
  {
    if layout == [] then -1
    else if Has(layout[0], a) then 0
    else
      var i := Owner(layout[1..], a);
      assert layout == [layout[0]] + layout[1..];
      if i < 0 then -1 else i + 1
  }

  // The regions, and the byte at every address that they have.
  datatype Space = Space(layout: seq<Region>, bytes: map<int, bv8>)

  ghost predicate WellFormed(s: Space) {
    Layout(s.layout) && (forall a :: a in s.bytes <==> Owner(s.layout, a) >= 0)
  }

  ghost predicate Readable(s: Space, a: int) {
    Owner(s.layout, a) >= 0 && s.layout[Owner(s.layout, a)].readable
  }

  ghost predicate Writable(s: Space, a: int) {
    Owner(s.layout, a) >= 0 && s.layout[Owner(s.layout, a)].writable
  }

  predicate Holds(bytes: map<int, bv8>, width: Width, a: int) {
    forall i :: a <= i < a + Size(width) ==> i in bytes
  }

  function QuadAt(bytes: map<int, bv8>, a: int): Quad
    requires Holds(bytes, Word, a)
  {
    Quad(bytes[a], bytes[a + 1], bytes[a + 2], bytes[a + 3])
  }

  function WithQuad(bytes: map<int, bv8>, a: int, q: Quad): map<int, bv8> {
    bytes[a := q.b0][a + 1 := q.b1][a + 2 := q.b2][a + 3 := q.b3]
  }

  // The value of the given width at address a, and memory with a value put there.
  function Gather(bytes: map<int, bv8>, big: bool, width: Width, a: int): bv32
    requires Holds(bytes, width, a)
  {
    match width
    case Byte => ByteValue(bytes[a])
    case Half => HalfOf(big, bytes[a], bytes[a + 1])
    case Word => WordOf(big, QuadAt(bytes, a))
  }

  function Scatter(bytes: map<int, bv8>, big: bool, width: Width, a: int, data: bv32): map<int, bv8> {
    match width
    case Byte => bytes[a := LowByte(data)]
    case Half => bytes[a := HalfByte(big, data, 0)][a + 1 := HalfByte(big, data, 1)]
    case Word => WithQuad(bytes, a, BytesOf(big, data))
  }

  function Ones(width: Width): bv32 {
    match width case Byte => 0xff case Half => 0xffff case Word => 0xffff_ffff
  }

  datatype Outcome<T> = Value(value: T) | Raised(code: Code, mode: Mode)

  // A load from, and a store to, flat memory.
  ghost function Load(s: Space, big: bool, width: Width, a: Address, mode: Mode): Outcome<bv32>
    requires WellFormed(s)
  {
    if a % Size(width) != 0 then Raised(AdEL, mode)
    else if Owner(s.layout, a) < 0 then Raised(if mode.InstFetch? then IBE else DBE, mode)
    else if !Readable(s, a) then Value(Ones(width))
    else
      WholeWord(s, a, width);
      Value(Gather(s.bytes, big, width, a))
  }

  ghost function StoreOutcome(s: Space, width: Width, a: Address): Outcome<()> {
    if a % Size(width) != 0 then Raised(AdES, DataStore)
    else if Owner(s.layout, a) < 0 then Raised(DBE, DataStore)
    else Value(())
  }

  ghost function Store(s: Space, big: bool, width: Width, a: Address, data: bv32): Space {
    if a % Size(width) == 0 && Writable(s, a) then s.(bytes := Scatter(s.bytes, big, width, a, data)) else s
  }

  function Tag(a: int): int { a / 4 }

  function WordAddress(a: int): (w: int)
    ensures w <= a < w + 4
  {
    4 * Tag(a)
  }

  lemma OneOwner(layout: seq<Region>, a: int, i: int)
    requires Layout(layout) && 0 <= i < |layout| && Has(layout[i], a)
    ensures Owner(layout, a) == i
  {
    var j := Owner(layout, a);
    assert j < i ==> Apart(layout[j], layout[i]);
    assert i < j ==> Apart(layout[i], layout[j]);
  }

  lemma WordsFit(r: Region, a: int, b: int)
    requires Plain(r) && WordAddress(a) == WordAddress(b)
    ensures Has(r, a) <==> Has(r, b)
  {
  }

  // All bytes of a word are in one region.
  lemma SameOwner(layout: seq<Region>, a: int, b: int)
    requires Layout(layout) && WordAddress(a) == WordAddress(b)
    ensures Owner(layout, a) == Owner(layout, b)
  {
    forall i | 0 <= i < |layout| ensures Has(layout[i], a) <==> Has(layout[i], b) {
      WordsFit(layout[i], a, b);
    }
    if Owner(layout, a) >= 0 {
      OneOwner(layout, b, Owner(layout, a));
    }
  }

  lemma QuotientBy4(a: int, q: int, r: int)
    requires a == 4 * q + r && 0 <= r < 4
    ensures a / 4 == q && a % 4 == r
  {
  }

  lemma EvenInWord(a: int)
    requires a % 2 == 0
    ensures a % 4 == 0 || a % 4 == 2
  {
    var q, h := a / 4, a / 2;
    assert a == 2 * h && a == 4 * q + a % 4;
  }

  lemma InOneWord(a: int, width: Width, i: int)
    requires a % Size(width) == 0 && a <= i < a + Size(width)
    ensures WordAddress(i) == WordAddress(a)
  {
    if width == Half { EvenInWord(a); }
    QuotientBy4(i, a / 4, a % 4 + (i - a));
  }

  lemma WholeWord(s: Space, a: int, width: Width)
    requires WellFormed(s) && Owner(s.layout, a) >= 0
    ensures Owner(s.layout, WordAddress(a)) == Owner(s.layout, a)
    ensures Holds(s.bytes, Word, WordAddress(a))
    ensures a % Size(width) == 0 ==> Holds(s.bytes, width, a)
  {
    var w := WordAddress(a);
    forall i | w <= i < w + 4
      ensures i in s.bytes && Owner(s.layout, i) == Owner(s.layout, a)
    {
      QuotientBy4(i, a / 4, i - w);
      SameOwner(s.layout, i, a);
    }
    if a % Size(width) == 0 {
      forall i | a <= i < a + Size(width)
        ensures i in s.bytes
      {
        InOneWord(a, width, i);
        SameOwner(s.layout, i, a);
      }
    }
  }

  lemma ScatterKeepsWellFormed(s: Space, big: bool, width: Width, a: int, data: bv32)
    requires WellFormed(s) && Holds(s.bytes, width, a)
    ensures WellFormed(s.(bytes := Scatter(s.bytes, big, width, a, data)))
  {
    assert Scatter(s.bytes, big, width, a, data).Keys == s.bytes.Keys;
  }

  lemma StoreKeepsWellFormed(s: Space, big: bool, width: Width, a: Address, data: bv32)
    requires WellFormed(s)
    ensures WellFormed(Store(s, big, width, a, data))
  {
    if a % Size(width) == 0 && Writable(s, a) {
      WholeWord(s, a, width);
      ScatterKeepsWellFormed(s, big, width, a, data);
    }
  }

  function Truncated(width: Width, data: bv32): bv32 {
    match width case Byte => data & 0xff case Half => data & 0xffff case Word => data
  }

  // What was stored is what is loaded, cut to the width of the access.
  lemma LoadAfterStore(s: Space, big: bool, width: Width, a: Address, data: bv32)
    requires WellFormed(s) && Writable(s, a) && a % Size(width) == 0
    ensures WellFormed(Store(s, big, width, a, data))
    ensures Load(Store(s, big, width, a, data), big, width, a, DataLoad) == Value(Truncated(width, data))
  {
    StoreKeepsWellFormed(s, big, width, a, data);
    assert Plain(s.layout[Owner(s.layout, a)]);
    LowByteValue(data);
    HalfValue(big, data);
    WordOfBytes(big, data);
  }
}
