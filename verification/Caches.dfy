/** The mapper with its two direct-mapped, write-through caches of one-word lines:
    what a load and a store do to them, and why they cannot be seen. */
module Caches {
  import opened Endian
  import opened Exceptions
  import opened Memory

  const LINES := 0x4000

  // data is the word as the target processor sees it.
  datatype Line = Line(valid: bool, tag: int, data: bv32)

  datatype State = State(big: bool, space: Space, icache: seq<Line>, dcache: seq<Line>,
                         isolated: bool, swapped: bool)
  {
    ghost predicate Valid() {
      WellFormed(space) && |icache| == LINES && |dcache| == LINES
    }

    // The cache that an access goes through.
    function Lines(mode: Mode): seq<Line> {
      if swapped == mode.InstFetch? then dcache else icache
    }

    function WithLines(mode: Mode, lines: seq<Line>): State {
      if swapped == mode.InstFetch? then this.(dcache := lines) else this.(icache := lines)
    }
  }

  datatype Reply<T> = Reply(outcome: Outcome<T>, state: State)

  function Slot(a: Address): (k: int)
    ensures 0 <= k < LINES
  {
    Tag(a) % LINES
  }

  // The piece number n of the bytes q (n counts halfwords or bytes), and q with that piece replaced.
  function Piece(big: bool, q: Quad, width: Width, n: int): bv32 {
    match width
    case Word => WordOf(big, q)
    case Half => if n == 0 then HalfOf(big, q.b0, q.b1) else HalfOf(big, q.b2, q.b3)
    case Byte => ByteValue(q.At(n))
  }

  function WithPiece(big: bool, q: Quad, width: Width, n: int, data: bv32): Quad {
    match width
    case Word => BytesOf(big, data)
    case Half =>
      var h0, h1 := HalfByte(big, data, 0), HalfByte(big, data, 1);
      if n == 0 then Quad(h0, h1, q.b2, q.b3) else Quad(q.b0, q.b1, h0, h1)
    case Byte => q.With(n, LowByte(data))
  }

  // Which piece of its word is at address a.
  function Index(width: Width, a: int): int {
    match width case Word => 0 case Half => (a / 2) % 2 case Byte => a % 4
  }

  // The piece of word w at address a, and w with that piece replaced.
  function Part(big: bool, w: bv32, width: Width, a: int): bv32 {
    Piece(big, BytesOf(big, w), width, Index(width, a))
  }

  function WithPart(big: bool, w: bv32, width: Width, a: int, data: bv32): bv32 {
    WordOf(big, WithPiece(big, BytesOf(big, w), width, Index(width, a), data))
  }

  function LineHolds(line: Line, a: int): bool { line.valid && line.tag == Tag(a) }

  ghost predicate Hit(s: State, a: Address, mode: Mode)
    requires s.Valid()
  {
    (s.isolated && !mode.InstFetch?) || LineHolds(s.Lines(mode)[Slot(a)], a)
  }

  // A load or fetch that the cache does not answer.
  ghost function Miss(s: State, width: Width, a: Address, mode: Mode, cacheable: bool): (r: Reply<bv32>)
    requires s.Valid() && a % Size(width) == 0
    ensures r.state.Valid()
  {
    if !cacheable || !Readable(s.space, a) then Reply(Load(s.space, s.big, width, a, mode), s)
    else
      WholeWord(s.space, a, width);
      var word := Gather(s.space.bytes, s.big, Word, WordAddress(a));
      Reply(Value(Part(s.big, word, width, a)),
            s.WithLines(mode, s.Lines(mode)[Slot(a) := Line(true, Tag(a), word)]))
  }

  // A load or an instruction fetch.
  ghost function Fetch(s: State, width: Width, a: Address, mode: Mode, cacheable: bool): (r: Reply<bv32>)
    requires s.Valid()
    ensures r.state.Valid()
  {
    if a % Size(width) != 0 then Reply(Raised(AdEL, mode), s)
    else if cacheable && Hit(s, a, mode) then Reply(Value(Part(s.big, s.Lines(mode)[Slot(a)].data, width, a)), s)
    else Miss(s, width, a, mode, cacheable)
  }

  // The word that a store through the cache leaves in its line.
  ghost function Merged(s: State, width: Width, a: Address, data: bv32): bv32
    requires s.Valid() && Owner(s.space.layout, a) >= 0
  {
    var line := s.Lines(DataStore)[Slot(a)];
    WholeWord(s.space, a, width);
    var word := if LineHolds(line, a) then line.data else Gather(s.space.bytes, s.big, Word, WordAddress(a));
    WithPart(s.big, word, width, a, data)
  }

  // A store through the cache to writable memory.
  ghost function CacheWrite(s: State, width: Width, a: Address, data: bv32): State
    requires s.Valid() && Owner(s.space.layout, a) >= 0
  {
    var lines := s.Lines(DataStore);
    var line := lines[Slot(a)];
    if s.isolated then
      s.WithLines(DataStore, lines[Slot(a) := if width == Word then line.(data := data) else line.(valid := false)])
    else
      var word := Merged(s, width, a, data);
      s.WithLines(DataStore, lines[Slot(a) := Line(true, Tag(a), word)])
       .(space := s.space.(bytes := Scatter(s.space.bytes, s.big, Word, WordAddress(a), word)))
  }

  ghost function StoreAt(s: State, width: Width, a: Address, data: bv32, cacheable: bool): Reply<()>
    requires s.Valid()
  {
    Reply(StoreOutcome(s.space, width, a),
          if a % Size(width) != 0 || !Writable(s.space, a) then s
          else if cacheable then CacheWrite(s, width, a, data)
          else if s.isolated then s
          else s.(space := Store(s.space, s.big, width, a, data)))
  }

  // A store that faults changes nothing.
  lemma FaultyStore(s: State, width: Width, a: Address, data: bv32, cacheable: bool)
    requires s.Valid() && StoreAt(s, width, a, data, cacheable).outcome.Raised?
    ensures StoreAt(s, width, a, data, cacheable).state == s
  {
  }

  // Word number tag of memory can be read, and is data.
  ghost predicate WordIs(s: Space, big: bool, tag: int, data: bv32) {
    Readable(s, 4 * tag) && Holds(s.bytes, Word, 4 * tag) && Gather(s.bytes, big, Word, 4 * tag) == data
  }

  // A valid line is in its slot and says what memory says.
  ghost predicate LineAgrees(line: Line, k: int, s: Space, big: bool) {
    line.valid ==> line.tag % LINES == k && WordIs(s, big, line.tag, line.data)
  }

  ghost predicate Agrees(lines: seq<Line>, s: Space, big: bool) {
    forall k :: 0 <= k < |lines| ==> LineAgrees(lines[k], k, s, big)
  }

  lemma IndexOfHalf(a: int)
    requires a % 2 == 0
    ensures Index(Half, a) == 0 ==> WordAddress(a) == a
    ensures Index(Half, a) != 0 ==> WordAddress(a) + 2 == a
  {
    EvenInWord(a);
    var q, r := a / 4, a % 4;
    assert a == 4 * q + r;
    assert a / 2 == 2 * q + r / 2;
  }

  lemma PieceOfQuad(bytes: map<int, bv8>, big: bool, width: Width, a: int)
    requires a % Size(width) == 0
    requires Holds(bytes, Word, WordAddress(a)) && Holds(bytes, width, a)
    ensures Piece(big, QuadAt(bytes, WordAddress(a)), width, Index(width, a)) == Gather(bytes, big, width, a)
  {
    if width == Half { IndexOfHalf(a); }
  }

  lemma PartOfWord(bytes: map<int, bv8>, big: bool, width: Width, a: int)
    requires a % Size(width) == 0
    requires Holds(bytes, Word, WordAddress(a)) && Holds(bytes, width, a)
    ensures Part(big, Gather(bytes, big, Word, WordAddress(a)), width, a) == Gather(bytes, big, width, a)
  {
    BytesOfWord(big, QuadAt(bytes, WordAddress(a)));
    PieceOfQuad(bytes, big, width, a);
  }

  lemma QuadWithPiece(bytes: map<int, bv8>, big: bool, width: Width, a: int, data: bv32)
    requires a % Size(width) == 0 && Holds(bytes, Word, WordAddress(a))
    ensures WithQuad(bytes, WordAddress(a), WithPiece(big, QuadAt(bytes, WordAddress(a)), width, Index(width, a), data))
         == Scatter(bytes, big, width, a, data)
  {
    if width == Half { IndexOfHalf(a); }
  }

  lemma WordWithPart(bytes: map<int, bv8>, big: bool, width: Width, a: int, data: bv32)
    requires a % Size(width) == 0
    requires Holds(bytes, Word, WordAddress(a))
    ensures Scatter(bytes, big, Word, WordAddress(a),
            WithPart(big, Gather(bytes, big, Word, WordAddress(a)), width, a, data))
         == Scatter(bytes, big, width, a, data)
  {
    var q := QuadAt(bytes, WordAddress(a));
    BytesOfWord(big, q);
    BytesOfWord(big, WithPiece(big, q, width, Index(width, a), data));
    QuadWithPiece(bytes, big, width, a, data);
  }

  lemma HitAgrees(s: State, width: Width, a: Address, mode: Mode)
    requires s.Valid() && a % Size(width) == 0
    requires LineHolds(s.Lines(mode)[Slot(a)], a) && Agrees(s.Lines(mode), s.space, s.big)
    ensures Load(s.space, s.big, width, a, mode) == Value(Part(s.big, s.Lines(mode)[Slot(a)].data, width, a))
  {
    var k := Slot(a);
    assert LineAgrees(s.Lines(mode)[k], k, s.space, s.big);
    WholeWord(s.space, a, width);
    PartOfWord(s.space.bytes, s.big, width, a);
  }

  lemma FilledAgrees(lines: seq<Line>, s: Space, big: bool, a: Address, data: bv32)
    requires WellFormed(s) && |lines| == LINES && Agrees(lines, s, big)
    requires WordIs(s, big, Tag(a), data)
    ensures Agrees(lines[Slot(a) := Line(true, Tag(a), data)], s, big)
  {
  }

  lemma WordLineAgrees(s: Space, big: bool, a: Address)
    requires WellFormed(s) && Readable(s, a) && Holds(s.bytes, Word, WordAddress(a))
    ensures WordIs(s, big, Tag(a), Gather(s.bytes, big, Word, WordAddress(a)))
  {
    WholeWord(s, a, Word);
  }

  ghost predicate ReadAgrees(s: State, width: Width, a: Address, mode: Mode, r: Reply<bv32>)
    requires s.Valid()
  {
    && r.outcome == Load(s.space, s.big, width, a, mode)
    && r.state == s.WithLines(mode, r.state.Lines(mode))
    && Agrees(r.state.Lines(mode), s.space, s.big)
  }

  lemma MissAgrees(s: State, width: Width, a: Address, mode: Mode)
    requires s.Valid() && a % Size(width) == 0 && Readable(s.space, a)
    requires Agrees(s.Lines(mode), s.space, s.big)
    ensures ReadAgrees(s, width, a, mode, Miss(s, width, a, mode, true))
  {
    hide Agrees, Part, Gather, Holds, WellFormed, WordIs, Owner;
    WholeWord(s.space, a, width);
    PartOfWord(s.space.bytes, s.big, width, a);
    WordLineAgrees(s.space, s.big, a);
    var word := Gather(s.space.bytes, s.big, Word, WordAddress(a));
    FilledAgrees(s.Lines(mode), s.space, s.big, a, word);
  }

  // A load or fetch that may use the cache returns what flat memory holds, and
  // leaves memory and the other cache alone.
  lemma FetchAgrees(s: State, width: Width, a: Address, mode: Mode, cacheable: bool)
    requires s.Valid() && (s.isolated ==> mode.InstFetch?)
    requires Agrees(s.Lines(mode), s.space, s.big)
    ensures var r := Fetch(s, width, a, mode, cacheable);
            && r.outcome == Load(s.space, s.big, width, a, mode)
            && r.state == s.WithLines(mode, r.state.Lines(mode))
            && r.state.Valid()
            && Agrees(r.state.Lines(mode), s.space, s.big)
  {
    hide Agrees, Part, Gather, Holds, WellFormed, Readable;
    if a % Size(width) == 0 && cacheable {
      if Hit(s, a, mode) {
        HitAgrees(s, width, a, mode);
      } else if Readable(s.space, a) {
        hide Miss;
        MissAgrees(s, width, a, mode);
      }
    }
  }

  lemma WordsApart(a: int, b: int, tag: int)
    requires a <= b && WordAddress(b) == WordAddress(a) && tag != Tag(a)
    ensures 4 * tag + 3 < a || b < 4 * tag
  {
  }

  // A store changes no other word.
  lemma StoreElsewhere(s: Space, big: bool, width: Width, a: Address, data: bv32, tag: int)
    requires WellFormed(s) && tag != Tag(a) && a % Size(width) == 0 && Holds(s.bytes, Word, 4 * tag)
    ensures Holds(Scatter(s.bytes, big, width, a, data), Word, 4 * tag)
    ensures QuadAt(Scatter(s.bytes, big, width, a, data), 4 * tag) == QuadAt(s.bytes, 4 * tag)
  {
    hide WordAddress, Tag, WellFormed, HalfByte, LowByte, BytesOf;
    InOneWord(a, width, a + Size(width) - 1);
    WordsApart(a, a + Size(width) - 1, tag);
  }

  lemma OthersStillAgree(lines: seq<Line>, s: Space, big: bool, width: Width, a: Address, data: bv32, k: int)
    requires WellFormed(s) && Agrees(lines, s, big) && 0 <= k < |lines|
    requires lines[k].valid ==> lines[k].tag != Tag(a)
    ensures LineAgrees(lines[k], k, Store(s, big, width, a, data), big)
  {
    assert LineAgrees(lines[k], k, s, big);
    if a % Size(width) == 0 && Writable(s, a) && lines[k].valid {
      StoreElsewhere(s, big, width, a, data, lines[k].tag);
    }
  }

  lemma OtherSlot(lines: seq<Line>, s: Space, big: bool, a: Address, k: int)
    requires Agrees(lines, s, big) && 0 <= k < |lines| && k != Slot(a) && lines[k].valid
    ensures lines[k].tag != Tag(a)
  {
    assert LineAgrees(lines[k], k, s, big);
  }

  lemma StoreMerges(s: State, width: Width, a: Address, data: bv32)
    requires s.Valid() && a % Size(width) == 0 && Writable(s.space, a)
    requires Agrees(s.Lines(DataStore), s.space, s.big)
    ensures Scatter(s.space.bytes, s.big, Word, WordAddress(a), Merged(s, width, a, data))
         == Scatter(s.space.bytes, s.big, width, a, data)
  {
    WholeWord(s.space, a, width);
    assert LineAgrees(s.Lines(DataStore)[Slot(a)], Slot(a), s.space, s.big);
    WordWithPart(s.space.bytes, s.big, width, a, data);
  }

  lemma ScatteredWord(bytes: map<int, bv8>, big: bool, a: int, data: bv32)
    ensures var r := Scatter(bytes, big, Word, a, data);
            Holds(r, Word, a) && Gather(r, big, Word, a) == data
  {
    WordOfBytes(big, data);
  }

  lemma CachedLinesAgree(s: State, width: Width, a: Address, data: bv32)
    requires s.Valid() && Agrees(s.Lines(DataStore), s.space, s.big) && a % Size(width) == 0 && Writable(s.space, a)
    ensures Agrees(s.Lines(DataStore)[Slot(a) := Line(true, Tag(a), Merged(s, width, a, data))],
                   Store(s.space, s.big, width, a, data), s.big)
  {
    var lines, space, word := s.Lines(DataStore), Store(s.space, s.big, width, a, data), Merged(s, width, a, data);
    StoreMerges(s, width, a, data);
    ScatteredWord(s.space.bytes, s.big, WordAddress(a), word);
    WholeWord(s.space, a, width);
    var line := Line(true, Tag(a), word);
    hide Merged, Store, Scatter;
    forall k | 0 <= k < LINES && k != Slot(a) ensures LineAgrees(lines[k], k, space, s.big) {
      if lines[k].valid { OtherSlot(lines, s.space, s.big, a, k); }
      OthersStillAgree(lines, s.space, s.big, width, a, data, k);
    }
    WordStored(s, width, a, data);
  }

  lemma WordStored(s: State, width: Width, a: Address, data: bv32)
    requires s.Valid() && Agrees(s.Lines(DataStore), s.space, s.big) && a % Size(width) == 0 && Writable(s.space, a)
    ensures LineAgrees(Line(true, Tag(a), Merged(s, width, a, data)), Slot(a), Store(s.space, s.big, width, a, data),
            s.big)
  {
    StoreMerges(s, width, a, data);
    ScatteredWord(s.space.bytes, s.big, WordAddress(a), Merged(s, width, a, data));
    WholeWord(s.space, a, width);
    hide Merged, Scatter, Agrees;
  }

  // A store through the cache changes flat memory as a plain store does, and its
  // line agrees afterwards; so do all others.
  lemma CachedStoreAgrees(s: State, width: Width, a: Address, data: bv32)
    requires s.Valid() && !s.isolated
    requires Agrees(s.Lines(DataStore), s.space, s.big)
    ensures var r := StoreAt(s, width, a, data, true);
            && r.outcome == StoreOutcome(s.space, width, a)
            && r.state.space == Store(s.space, s.big, width, a, data)
            && r.state == s.WithLines(DataStore, r.state.Lines(DataStore)).(space := r.state.space)
            && r.state.Valid()
            && Agrees(r.state.Lines(DataStore), r.state.space, s.big)
  {
    StoreKeepsWellFormed(s.space, s.big, width, a, data);
    if a % Size(width) == 0 && Writable(s.space, a) {
      StoreMerges(s, width, a, data);
      CachedLinesAgree(s, width, a, data);
      hide Agrees, Merged, Scatter, WellFormed;
    }
  }

  ghost predicate Unchanged(s: Space, t: Space, a: int)
    requires Holds(s.bytes, Word, WordAddress(a)) && Holds(t.bytes, Word, WordAddress(a))
  {
    QuadAt(s.bytes, WordAddress(a)) == QuadAt(t.bytes, WordAddress(a))
  }

  // The pieces of a word determine its bytes.
  lemma ByteDetermined(b: bv8, c: bv8)
    requires ByteValue(b) == ByteValue(c)
    ensures b == c
  {
    hide Join, Split;
    SplitOfJoin(Quad(0, 0, 0, b));
    SplitOfJoin(Quad(0, 0, 0, c));
  }

  lemma HalfDetermined(big: bool, b0: bv8, b1: bv8, c0: bv8, c1: bv8)
    requires HalfOf(big, b0, b1) == HalfOf(big, c0, c1)
    ensures b0 == c0 && b1 == c1
  {
    hide Join, Split;
    SplitOfJoin(Quad(0, 0, b0, b1));
    SplitOfJoin(Quad(0, 0, b1, b0));
    SplitOfJoin(Quad(0, 0, c0, c1));
    SplitOfJoin(Quad(0, 0, c1, c0));
  }

  lemma ScatterOfGathered(bytes: map<int, bv8>, big: bool, width: Width, a: int, data: bv32)
    requires Holds(bytes, width, a) && Gather(bytes, big, width, a) == Truncated(width, data)
    ensures Scatter(bytes, big, width, a, data) == bytes
  {
    hide HalfByte, LowByte, ByteValue, HalfOf, WordOf, BytesOf;
    match width
    case Byte =>
      LowByteValue(data);
      ByteDetermined(bytes[a], LowByte(data));
    case Half =>
      HalfValue(big, data);
      HalfDetermined(big, bytes[a], bytes[a + 1], HalfByte(big, data, 0), HalfByte(big, data, 1));
    case Word =>
      BytesOfWord(big, QuadAt(bytes, a));
  }

  // A store changes its word exactly unless the value is there already.
  lemma UnchangedExactly(s: Space, big: bool, width: Width, a: Address, data: bv32)
    requires WellFormed(s) && Writable(s, a) && a % Size(width) == 0
    requires Holds(s.bytes, width, a) && Holds(s.bytes, Word, WordAddress(a))
    requires WellFormed(Store(s, big, width, a, data))
        && Holds(Store(s, big, width, a, data).bytes, Word, WordAddress(a))
    ensures Unchanged(s, Store(s, big, width, a, data), a) <==> Gather(s.bytes, big, width, a) == Truncated(width, data)
  {
    var t := Store(s, big, width, a, data);
    if Gather(s.bytes, big, width, a) == Truncated(width, data) {
      ScatterOfGathered(s.bytes, big, width, a, data);
    }
    if Unchanged(s, t, a) {
      StoredIsGathered(s, big, width, a, data);
      PieceOfQuad(s.bytes, big, width, a);
      PieceOfQuad(t.bytes, big, width, a);
    }
  }

  lemma StoredIsGathered(s: Space, big: bool, width: Width, a: Address, data: bv32)
    requires WellFormed(s) && Writable(s, a) && a % Size(width) == 0
    ensures var t := Store(s, big, width, a, data).bytes;
            Holds(t, width, a) && Gather(t, big, width, a) == Truncated(width, data)
  {
    LoadAfterStore(s, big, width, a, data);
    WholeWord(Store(s, big, width, a, data), a, width);
    assert Plain(s.layout[Owner(s.layout, a)]);
  }

  // A store around the cache keeps the data cache in agreement exactly when the
  // cache does not hold the word, or memory holds the value already.
  lemma UncachedStoreAgrees(s: State, width: Width, a: Address, data: bv32)
    requires s.Valid() && !s.isolated && Agrees(s.Lines(DataStore), s.space, s.big)
    requires a % Size(width) == 0 && Writable(s.space, a)
    ensures var r := StoreAt(s, width, a, data, false);
            && r == Reply(Value(()), s.(space := Store(s.space, s.big, width, a, data)))
            && r.state.Valid() && Holds(s.space.bytes, width, a)
            && (Agrees(s.Lines(DataStore), r.state.space, s.big)
                <==> (!LineHolds(s.Lines(DataStore)[Slot(a)], a)
                      || Gather(s.space.bytes, s.big, width, a) == Truncated(width, data)))
  {
    hide Agrees, Truncated, Scatter, Gather, Unchanged;
    StoreKeepsWellFormed(s.space, s.big, width, a, data);
    WholeWord(s.space, a, width);
    WholeWord(Store(s.space, s.big, width, a, data), a, width);
    AgreesAfterStore(s.Lines(DataStore), s.space, s.big, width, a, data);
    UnchangedExactly(s.space, s.big, width, a, data);
  }

  // Lines agree after a store that does not go through them.
  lemma AgreesAfterStore(lines: seq<Line>, s: Space, big: bool, width: Width, a: Address, data: bv32)
    requires WellFormed(s) && |lines| == LINES && Agrees(lines, s, big) && a % Size(width) == 0 && Writable(s, a)
    requires WellFormed(Store(s, big, width, a, data))
    requires Holds(s.bytes, Word, WordAddress(a)) && Holds(Store(s, big, width, a, data).bytes, Word, WordAddress(a))
    ensures Agrees(lines, Store(s, big, width, a, data), big)
       <==> !LineHolds(lines[Slot(a)], a) || Unchanged(s, Store(s, big, width, a, data), a)
  {
    var space := Store(s, big, width, a, data);
    forall k | 0 <= k < LINES && !LineHolds(lines[k], a) ensures LineAgrees(lines[k], k, space, big) {
      OthersStillAgree(lines, s, big, width, a, data, k);
    }
    forall k | 0 <= k < LINES && LineHolds(lines[k], a) ensures k == Slot(a) {
      if k != Slot(a) { OtherSlot(lines, s, big, a, k); }
    }
    if LineHolds(lines[Slot(a)], a) {
      assert LineAgrees(lines[Slot(a)], Slot(a), s, big);
      var q, r := QuadAt(s.bytes, WordAddress(a)), QuadAt(space.bytes, WordAddress(a));
      BytesOfWord(big, q);
      BytesOfWord(big, r);
      assert LineAgrees(lines[Slot(a)], Slot(a), space, big) <==> q == r;
    }
  }

  // And when it does not, the next load through the cache returns the word as it was.
  lemma StaleLoad(s: State, width: Width, a: Address, data: bv32)
    requires s.Valid() && !s.isolated && Agrees(s.Lines(DataStore), s.space, s.big)
    requires a % Size(width) == 0 && Writable(s.space, a) && LineHolds(s.Lines(DataStore)[Slot(a)], a)
    ensures var w, t := WordAddress(a), s.(space := Store(s.space, s.big, width, a, data));
            StoreAt(s, width, a, data, false).state == t && t.Valid()
            && Fetch(t, Word, w, DataLoad, true).outcome == Load(s.space, s.big, Word, w, DataLoad)
  {
    StoreKeepsWellFormed(s.space, s.big, width, a, data);
    WholeWord(s.space, a, width);
    QuotientBy4(WordAddress(a), Tag(a), 0);
    HitAgrees(s, Word, WordAddress(a), DataLoad);
  }

  // One region of one word that holds zero, and the data cache has it.
  function OneWord(): State {
    State(true, Space([Region(0, 4, true, true)], map[0 := 0, 1 := 0, 2 := 0, 3 := 0]),
          seq(LINES, i => Line(false, 0, 0)), seq(LINES, i => Line(i == 0, 0, 0)), false, false)
  }

  lemma OneWordAgrees()
    ensures OneWord().Valid() && Agrees(OneWord().Lines(DataStore), OneWord().space, true)
  {
    var s := OneWord().space;
    forall a ensures a in s.bytes <==> Owner(s.layout, a) >= 0 {
      assert Has(s.layout[0], a) <==> 0 <= a < 4;
    }
    assert WordIs(s, true, 0, 0);
  }

  // For instance: 1 is stored there around the cache, and the next load finds 0.
  lemma StaleLoadHappens()
    ensures OneWord().Valid() && StoreAt(OneWord(), Word, 0, 1, false).state.Valid()
    ensures Fetch(StoreAt(OneWord(), Word, 0, 1, false).state, Word, 0, DataLoad, true).outcome == Value(0)
    ensures Load(StoreAt(OneWord(), Word, 0, 1, false).state.space, true, Word, 0, DataLoad) == Value(1)
  {
    hide Agrees, Scatter, Gather;
    OneWordAgrees();
    var s := OneWord();
    assert Has(s.space.layout[0], 0);
    StaleLoad(s, Word, 0, 1);
    LoadAfterStore(s.space, true, Word, 0, 1);
    ZeroIsLoaded();
  }

  lemma ZeroIsLoaded()
    requires OneWord().Valid()
    ensures Load(OneWord().space, true, Word, 0, DataLoad) == Value(0)
  {
    assert Has(OneWord().space.layout[0], 0);
  }

  datatype Op = LoadOp(width: Width, a: Address, cacheable: bool)
              | StoreOp(width: Width, a: Address, data: bv32, cacheable: bool)
              | CodeOp(a: Address, cacheable: bool)

  datatype Seen = Loaded(Outcome<bv32>) | Stored(Outcome<()>) | Fetched

  // One access by the machine with caches, and by the flat memory.
  ghost function Do(s: State, op: Op): (Seen, State)
    requires s.Valid()
  {
    match op
    case LoadOp(width, a, cacheable) => var r := Fetch(s, width, a, DataLoad, cacheable); (Loaded(r.outcome), r.state)
    case StoreOp(width, a, data, cacheable) =>
      var r := StoreAt(s, width, a, data, cacheable);
      (Stored(r.outcome), r.state)
    case CodeOp(a, cacheable) => (Fetched, Fetch(s, Word, a, InstFetch, cacheable).state)
  }

  ghost function DoFlat(s: Space, big: bool, op: Op): (Seen, Space)
    requires WellFormed(s)
  {
    match op
    case LoadOp(width, a, _) => (Loaded(Load(s, big, width, a, DataLoad)), s)
    case StoreOp(width, a, data, _) => (Stored(StoreOutcome(s, width, a)), Store(s, big, width, a, data))
    case CodeOp(_, _) => (Fetched, s)
  }

  lemma DoIsValid(s: State, op: Op)
    requires s.Valid()
    ensures Do(s, op).1.Valid()
  {
    match op
    case LoadOp(width, a, cacheable) =>
    case CodeOp(a, cacheable) =>
    case StoreOp(width, a, data, cacheable) =>
      StoreKeepsWellFormed(s.space, s.big, width, a, data);
      if Writable(s.space, a) {
        WholeWord(s.space, a, width);
        QuotientBy4(WordAddress(a), Tag(a), 0);
        SameOwner(s.space.layout, WordAddress(a), a);
        StoreKeepsWellFormed(s.space, s.big, Word, WordAddress(a), Merged(s, width, a, data));
      }
  }

  ghost function Run(s: State, ops: seq<Op>): (seq<Seen>, State)
    requires s.Valid()
    decreases |ops|
  {
    if ops == [] then ([], s)
    else
      var (seen, t) := Do(s, ops[0]);
      DoIsValid(s, ops[0]);
      var (rest, end) := Run(t, ops[1..]);
      ([seen] + rest, end)
  }

  lemma DoFlatIsWellFormed(s: Space, big: bool, op: Op)
    requires WellFormed(s)
    ensures WellFormed(DoFlat(s, big, op).1)
  {
    if op.StoreOp? { StoreKeepsWellFormed(s, big, op.width, op.a, op.data); }
  }

  ghost function RunFlat(s: Space, big: bool, ops: seq<Op>): (seq<Seen>, Space)
    requires WellFormed(s)
    decreases |ops|
  {
    if ops == [] then ([], s)
    else
      var (seen, t) := DoFlat(s, big, ops[0]);
      DoFlatIsWellFormed(s, big, ops[0]);
      var (rest, end) := RunFlat(t, big, ops[1..]);
      ([seen] + rest, end)
  }

  // The access is a store around the cache to a word that the data cache holds.
  ghost predicate Bypasses(s: State, op: Op)
    requires s.Valid()
  {
    op.StoreOp? && !op.cacheable && LineHolds(s.Lines(DataStore)[Slot(op.a)], op.a)
  }

  ghost predicate NeverBypasses(s: State, ops: seq<Op>)
    requires s.Valid()
    decreases |ops|
  {
    ops == [] || (DoIsValid(s, ops[0]); !Bypasses(s, ops[0]) && NeverBypasses(Do(s, ops[0]).1, ops[1..]))
  }

  lemma DoAgrees(s: State, op: Op)
    requires s.Valid() && !s.isolated && Agrees(s.Lines(DataStore), s.space, s.big)
    requires !Bypasses(s, op)
    ensures var (seen, t) := Do(s, op);
            && DoFlat(s.space, s.big, op) == (seen, t.space)
            && t.Valid() && !t.isolated && t.big == s.big
            && Agrees(t.Lines(DataStore), t.space, t.big)
  {
    match op
    case LoadOp(width, a, cacheable) => FetchAgrees(s, width, a, DataLoad, cacheable);
    case CodeOp(a, cacheable) =>
    case StoreOp(width, a, data, cacheable) =>
      if cacheable {
        CachedStoreAgrees(s, width, a, data);
      } else if a % Size(width) == 0 && Writable(s.space, a) {
        UncachedStoreAgrees(s, width, a, data);
      }
  }

  // The caches cannot be seen: over any interleaving of accesses in which stores
  // around the cache go to words that it does not hold, every load returns, and memory
  // ends up with, what flat byte memory would give.
  lemma {:induction false} CachesAreInvisible(s: State, ops: seq<Op>)
    requires s.Valid() && !s.isolated && Agrees(s.Lines(DataStore), s.space, s.big)
    requires NeverBypasses(s, ops)
    ensures var (seen, t) := Run(s, ops);
            RunFlat(s.space, s.big, ops) == (seen, t.space) && Agrees(t.Lines(DataStore), t.space, t.big)
    decreases |ops|
  {
    if ops != [] {
      DoAgrees(s, ops[0]);
      CachesAreInvisible(Do(s, ops[0]).1, ops[1..]);
    }
  }

  // And code: where no store changes a word that the instruction cache holds either, both caches
  // go on agreeing with memory.
  ghost predicate Rewrites(s: State, op: Op)
    requires s.Valid()
  {
    op.StoreOp? && LineHolds(s.Lines(InstFetch)[Slot(op.a)], op.a)
  }

  ghost predicate NeverRewrites(s: State, ops: seq<Op>)
    requires s.Valid()
    decreases |ops|
  {
    DoIsValid(s, if ops == [] then CodeOp(0, true) else ops[0]);
    ops == [] || (!Bypasses(s, ops[0]) && !Rewrites(s, ops[0]) && NeverRewrites(Do(s, ops[0]).1, ops[1..]))
  }

  ghost predicate BothAgree(s: State) {
    Agrees(s.Lines(DataStore), s.space, s.big) && Agrees(s.Lines(InstFetch), s.space, s.big)
  }

  lemma CodeStillAgrees(s: State, width: Width, a: Address, data: bv32)
    requires s.Valid() && Agrees(s.Lines(InstFetch), s.space, s.big) && !LineHolds(s.Lines(InstFetch)[Slot(a)], a)
    ensures Agrees(s.Lines(InstFetch), Store(s.space, s.big, width, a, data), s.big)
  {
    StoreKeepsWellFormed(s.space, s.big, width, a, data);
    if a % Size(width) == 0 && Writable(s.space, a) {
      WholeWord(s.space, a, width);
      WholeWord(Store(s.space, s.big, width, a, data), a, width);
      hide Agrees, Unchanged;
      AgreesAfterStore(s.Lines(InstFetch), s.space, s.big, width, a, data);
    }
  }

  lemma DoKeepsBoth(s: State, op: Op)
    requires s.Valid() && !s.isolated && BothAgree(s) && !Bypasses(s, op) && !Rewrites(s, op)
    ensures var t := Do(s, op).1;
            t.Valid() && !t.isolated && BothAgree(t)
  {
    hide Agrees, Fetch, StoreAt, Store, WellFormed;
    DoAgrees(s, op);
    match op
    case LoadOp(width, a, cacheable) => FetchAgrees(s, width, a, DataLoad, cacheable);
    case CodeOp(a, cacheable) => FetchAgrees(s, Word, a, InstFetch, cacheable);
    case StoreOp(width, a, data, cacheable) =>
      CodeStillAgrees(s, width, a, data);
      StoreKeepsCode(s, width, a, data, cacheable);
  }

  lemma StoreKeepsCode(s: State, width: Width, a: Address, data: bv32, cacheable: bool)
    requires s.Valid() && !s.isolated && Agrees(s.Lines(DataStore), s.space, s.big)
    ensures var t := StoreAt(s, width, a, data, cacheable).state;
            && t.Lines(InstFetch) == s.Lines(InstFetch) && t.big == s.big
            && t.space == Store(s.space, s.big, width, a, data)
  {
    hide Agrees, Scatter, Merged;
    if cacheable {
      CachedStoreAgrees(s, width, a, data);
    }
  }

  // Then, after any run, every fetch of an instruction returns what flat memory holds.
  lemma {:induction false} CodeIsFlat(s: State, ops: seq<Op>, a: Address, cacheable: bool)
    requires s.Valid() && !s.isolated && BothAgree(s) && NeverRewrites(s, ops)
    ensures var t := Run(s, ops).1;
            t.Valid() && Fetch(t, Word, a, InstFetch, cacheable).outcome == Load(t.space, t.big, Word, a, InstFetch)
    decreases |ops|
  {
    hide Bypasses, Rewrites, Fetch, Do, Load, Agrees;
    if ops == [] {
      FetchAgrees(s, Word, a, InstFetch, cacheable);
    } else {
      DoIsValid(s, ops[0]);
      DoKeepsBoth(s, ops[0]);
      CodeIsFlat(Do(s, ops[0]).1, ops[1..], a, cacheable);
    }
  }
}
