/** Packets of the debugger's remote protocol: a payload framed with a checksum, and
    read back with its run lengths expanded. Characters are numbers below 128. */
module RemoteGdb {

  const PBUFSIZ := 728
  const TIMEOUT := -2

  const DOLLAR := 0x24
  const HASH := 0x23
  const STAR := 0x2a

  function ToHex(nib: int): int { if nib < 10 then 0x30 + nib else 0x61 + nib - 10 }

  function FromHex(a: int): int {
    if 0x30 <= a <= 0x39 then a - 0x30
    else if 0x61 <= a <= 0x66 then a - 0x61 + 10
    else if 0x41 <= a <= 0x46 then a - 0x41 + 10
    else a
  }

  lemma HexDigit(nib: int)
    requires 0 <= nib < 16
    ensures FromHex(ToHex(nib)) == nib
    ensures Plain(ToHex(nib))
  {
  }

  // A character that stands for itself in a frame.
  predicate Plain(c: int) { 0 <= c < 128 && c != DOLLAR && c != HASH && c != STAR }

  function Sum(s: seq<int>): int { if s == [] then 0 else Sum(s[..|s| - 1]) + s[|s| - 1] }

  function Checksum(s: seq<int>): int { Sum(s) % 256 }

  function Trailer(csum: int): seq<int> { [HASH, ToHex(csum / 16), ToHex(csum % 16)] }

  // putpkt: the frame of a payload, or none if it does not fit.
  method PutPkt(buf: seq<int>) returns (ok: bool, frame: seq<int>)
    ensures ok <==> |buf| <= PBUFSIZ - 5
    ensures ok ==> frame == [DOLLAR] + buf + Trailer(Checksum(buf))
  {
    if |buf| > PBUFSIZ - 5 {
      return false, [];
    }
    var csum := 0;
    frame := [DOLLAR];
    for i := 0 to |buf|
      invariant csum == Checksum(buf[..i]) && frame == [DOLLAR] + buf[..i]
    {
      assert buf[..i + 1][..i] == buf[..i];
      csum := (csum + buf[i]) % 256;
      frame := frame + [buf[i]];
    }
    assert buf[..|buf|] == buf;
    frame := frame + Trailer(csum);
    ok := true;
  }

  function OrBit(a: int, b: int, bit: int): int
    requires bit > 0
  {
    if a / bit % 2 == 1 || b / bit % 2 == 1 then bit else 0
  }

  // The bitwise or of two half bytes; and of a multiple of 16 with a byte.
  function OrNibble(a: int, b: int): int
    requires 0 <= a < 16 && 0 <= b < 16
  {
    if b == 0 then a else OrBit(a, b, 8) + OrBit(a, b, 4) + OrBit(a, b, 2) + OrBit(a, b, 1)
  }

  function OrByte(h: int, l: int): int
    requires 0 <= h < 16 && 0 <= l < 256
  {
    16 * OrNibble(h, l / 16) + l % 16
  }

  // What the two characters after the hash say; either may be missing, or no digit.
  function PacketChecksum(high: int, low: int): int { OrByte(FromHex(high) % 16, FromHex(low) % 256) }

  lemma TwoDigits(h: int, l: int)
    requires 0 <= h < 16 && 0 <= l < 16
    ensures PacketChecksum(ToHex(h), ToHex(l)) == 16 * h + l
  {
    hide OrByte, FromHex, ToHex;
    HexDigit(h);
    HexDigit(l);
    OrWithDigit(h, l);
    NoRemainder(h, 16);
    NoRemainder(l, 256);
  }

  lemma OrWithDigit(h: int, l: int)
    requires 0 <= h < 16 && 0 <= l < 16
    ensures OrByte(h, l) == 16 * h + l
  {
    assert l / 16 == 0;
  }

  lemma NoRemainder(x: int, m: int)
    requires 0 <= x < m
    ensures x % m == x
  {
  }

  // A character of the input, cut to seven bits; none when the input ends.
  function ReadChar(input: seq<int>, i: int): int
    requires 0 <= i
  {
    if i < |input| then input[i] % 128 else TIMEOUT
  }

  function After(input: seq<int>, n: int): seq<int>
    requires 0 <= n
  {
    if n <= |input| then input[n..] else []
  }

  function Repeated(c: int, n: int): seq<int>
    requires 0 <= n
  {
    seq(n, i => c)
  }

  function Last(s: seq<int>): int
    requires s != []
  {
    s[|s| - 1]
  }

  // Undefined: a run before any character, which the program reads from outside its buffer.
  datatype Outcome = Accepted(payload: seq<int>, rest: seq<int>) | Rejected | Undefined

  function RepeatCount(c: int): int { c - 0x20 + 3 }

  predicate RunFits(out: seq<int>, count: int) {
    0 < count < 255 && |out| + count - 1 < PBUFSIZ - 1
  }

  // read_frame on the input after the dollar, with the payload and its sum so far.
  function ReadFrom(input: seq<int>, out: seq<int>, csum: int): Outcome
    decreases |input|
  {
    var c := ReadChar(input, 0);
    if c == TIMEOUT || c == DOLLAR then Rejected
    else if c == HASH then
      if csum % 256 == PacketChecksum(ReadChar(input, 1), ReadChar(input, 2)) then Accepted(out, After(input, 3))
          else Rejected
    else if c == STAR then
      var r := ReadChar(input, 1);
      if !RunFits(out, RepeatCount(r)) then Rejected
      else if out == [] then Undefined
      else ReadFrom(input[2..], out + Repeated(Last(out), RepeatCount(r)), csum + c + r)
    else if |out| < PBUFSIZ - 1 then ReadFrom(input[1..], out + [c], csum + c)
    else Rejected
  }

  // read_frame itself.
  method ReadFrame(input: seq<int>) returns (r: Outcome)
    ensures r == ReadFrom(input, [], 0)
  {
    var rest, buf, csum := input, [], 0;
    while true
      invariant ReadFrom(input, [], 0) == ReadFrom(rest, buf, csum)
      decreases |rest|
    {
      var c := ReadChar(rest, 0);
      if c == TIMEOUT || c == DOLLAR {
        return Rejected;
      } else if c == HASH {
        if csum % 256 == PacketChecksum(ReadChar(rest, 1), ReadChar(rest, 2)) {
          return Accepted(buf, After(rest, 3));
        }
        return Rejected;
      } else if c == STAR {
        var n := RepeatCount(ReadChar(rest, 1));
        if !RunFits(buf, n) {
          return Rejected;
        }
        if buf == [] {
          return Undefined;
        }
        csum := csum + c + ReadChar(rest, 1);
        buf := buf + Repeated(Last(buf), n);
        rest := rest[2..];
      } else if |buf| < PBUFSIZ - 1 {
        buf := buf + [c];
        csum := csum + c;
        rest := rest[1..];
      } else {
        return Rejected;
      }
    }
  }

  // What a sender may put into a frame: a character, or a run of the one before it.
  datatype Token = Literal(c: int) | Run(code: int)

  function Characters(t: Token): seq<int> {
    match t case Literal(c) => [c] case Run(code) => [STAR, code]
  }

  function Encoded(ts: seq<Token>): seq<int> {
    if ts == [] then [] else Characters(ts[0]) + Encoded(ts[1..])
  }

  function Expanded(out: seq<int>, ts: seq<Token>): seq<int>
    requires Fits(out, ts)
    decreases |ts|
  {
    if ts == [] then out else Expanded(Grown(out, ts[0]), ts[1..])
  }

  predicate TokenFits(out: seq<int>, t: Token) {
    match t
    case Literal(c) => Plain(c) && |out| < PBUFSIZ - 1
    case Run(code) => 0 <= code < 128 && out != [] && RunFits(out, RepeatCount(code))
  }

  function Grown(out: seq<int>, t: Token): seq<int>
    requires TokenFits(out, t)
  {
    match t case Literal(c) => out + [c] case Run(code) => out + Repeated(Last(out), RepeatCount(code))
  }

  predicate Fits(out: seq<int>, ts: seq<Token>)
    decreases |ts|
  {
    ts == [] || (TokenFits(out, ts[0]) && Fits(Grown(out, ts[0]), ts[1..]))
  }

  // Sums from the front.
  function Total(s: seq<int>): int { if s == [] then 0 else s[0] + Total(s[1..]) }

  lemma {:induction false} TotalJoin(a: seq<int>, b: seq<int>)
    ensures Total(a + b) == Total(a) + Total(b)
  {
    if a == [] {
      assert a + b == b;
    } else {
      assert (a + b)[1..] == a[1..] + b;
      TotalJoin(a[1..], b);
    }
  }

  lemma {:induction false} SumIsTotal(s: seq<int>)
    ensures Sum(s) == Total(s)
  {
    if s != [] {
      var n := |s| - 1;
      SumIsTotal(s[..n]);
      TotalJoin(s[..n], [s[n]]);
      assert s == s[..n] + [s[n]];
    }
  }

  lemma ReadLiteral(c: int, rest: seq<int>, out: seq<int>, csum: int)
    requires TokenFits(out, Literal(c))
    ensures ReadFrom([c] + rest, out, csum) == ReadFrom(rest, out + [c], csum + c)
  {
    assert ([c] + rest)[1..] == rest;
  }

  lemma ReadRun(code: int, rest: seq<int>, out: seq<int>, csum: int)
    requires TokenFits(out, Run(code))
    ensures ReadFrom([STAR, code] + rest, out, csum) == ReadFrom(rest, Grown(out, Run(code)), csum + STAR + code)
  {
    hide Repeated, Last, RunFits, RepeatCount, PacketChecksum, After;
    var input := [STAR, code] + rest;
    assert input[2..] == rest && ReadChar(input, 0) == STAR && ReadChar(input, 1) == code;
  }

  lemma ReadToken(t: Token, rest: seq<int>, out: seq<int>, csum: int)
    requires TokenFits(out, t)
    ensures ReadFrom(Characters(t) + rest, out, csum) == ReadFrom(rest, Grown(out, t), csum + Total(Characters(t)))
  {
    match t {
      case Literal(c) =>
        assert Total([c]) == c;
        hide Total;
        ReadLiteral(c, rest, out, csum);
      case Run(code) =>
        assert [STAR, code][1..] == [code] && [code][1..] == [];
        assert Total([STAR, code]) == STAR + Total([code]);
        hide Total;
        ReadRun(code, rest, out, csum);
    }
  }

  lemma Unfolded(ts: seq<Token>, out: seq<int>)
    requires ts != [] && Fits(out, ts)
    ensures TokenFits(out, ts[0]) && Fits(Grown(out, ts[0]), ts[1..])
    ensures Expanded(out, ts) == Expanded(Grown(out, ts[0]), ts[1..])
    ensures Encoded(ts) == Characters(ts[0]) + Encoded(ts[1..])
  {
    hide Grown, TokenFits, Characters;
  }

  lemma JoinAssociates(a: seq<int>, b: seq<int>, c: seq<int>)
    ensures a + b + c == a + (b + c)
  {
  }

  lemma ReadTokenThen(t: Token, tail: seq<int>, more: seq<int>, out: seq<int>, csum: int)
    requires TokenFits(out, t)
    ensures ReadFrom(Characters(t) + tail + more, out, csum)
        == ReadFrom(tail + more, Grown(out, t), csum + Total(Characters(t)))
    ensures Total(Characters(t) + tail) == Total(Characters(t)) + Total(tail)
  {
    hide ReadFrom, Total, Grown, TokenFits, Characters;
    JoinAssociates(Characters(t), tail, more);
    ReadToken(t, tail + more, out, csum);
    TotalJoin(Characters(t), tail);
  }

  // Reading tokens expands them and sums their encoding.
  lemma {:induction false} ReadTokens(ts: seq<Token>, more: seq<int>, out: seq<int>, csum: int)
    requires Fits(out, ts)
    ensures ReadFrom(Encoded(ts) + more, out, csum) == ReadFrom(more, Expanded(out, ts), csum + Total(Encoded(ts)))
    decreases |ts|
  {
    if ts == [] {
      assert Encoded(ts) + more == more;
    } else {
      hide ReadFrom, Total, Grown, TokenFits, Characters, Fits, Expanded, Encoded;
      Unfolded(ts, out);
      var t, tail := ts[0], Encoded(ts[1..]);
      ReadTokenThen(t, tail, more, out, csum);
      ReadTokens(ts[1..], more, Grown(out, t), csum + Total(Characters(t)));
    }
  }

  // Every frame of tokens that fit is accepted, as their expansion.
  lemma FramesAreAccepted(ts: seq<Token>, rest: seq<int>)
    requires Fits([], ts)
    ensures ReadFrom(Encoded(ts) + Trailer(Total(Encoded(ts)) % 256) + rest, [], 0) == Accepted(Expanded([], ts), rest)
  {
    hide ReadFrom, Trailer, Total, Encoded, Expanded, Fits;
    var csum := Total(Encoded(ts));
    var t := Trailer(csum % 256);
    assert Encoded(ts) + t + rest == Encoded(ts) + (t + rest);
    ReadTokens(ts, t + rest, [], 0);
    ReadHash(csum, csum % 256, rest, Expanded([], ts));
  }

  lemma TrailerDigits(x: int)
    requires 0 <= x < 256
    ensures PacketChecksum(ToHex(x / 16), ToHex(x % 16)) == x
    ensures Plain(ToHex(x / 16)) && Plain(ToHex(x % 16))
  {
    TwoDigits(x / 16, x % 16);
    HexDigit(x / 16);
    HexDigit(x % 16);
  }

  lemma AtHash(input: seq<int>, out: seq<int>, csum: int)
    requires |input| >= 3 && input[0] == HASH
    ensures ReadFrom(input, out, csum)
         == if csum % 256 == PacketChecksum(input[1] % 128, input[2] % 128) then Accepted(out, input[3..]) else Rejected
  {
    hide PacketChecksum;
  }

  // After the hash: accepted if the two digits say the sum, and not otherwise.
  lemma ReadHash(csum: int, x: int, rest: seq<int>, out: seq<int>)
    requires 0 <= x < 256
    ensures ReadFrom(Trailer(x) + rest, out, csum) == if csum % 256 == x then Accepted(out, rest) else Rejected
  {
    hide ReadFrom, PacketChecksum, ToHex;
    TrailerDigits(x);
    var input := [HASH, ToHex(x / 16), ToHex(x % 16)] + rest;
    assert input[3..] == rest;
    AtHash(input, out, csum);
  }

  function Literals(s: seq<int>): seq<Token> {
    if s == [] then [] else [Literal(s[0])] + Literals(s[1..])
  }

  predicate AllPlain(s: seq<int>) { forall i :: 0 <= i < |s| ==> Plain(s[i]) }

  lemma {:induction false} LiteralsEncode(s: seq<int>)
    ensures Encoded(Literals(s)) == s
  {
    if s != [] {
      LiteralsEncode(s[1..]);
      assert Literals(s)[1..] == Literals(s[1..]);
    }
  }

  lemma LiteralsFirst(s: seq<int>)
    requires s != []
    ensures Literals(s) == [Literal(s[0])] + Literals(s[1..])
  {
  }

  lemma ExpandFirst(out: seq<int>, t: Token, ts: seq<Token>)
    requires TokenFits(out, t) && Fits(Grown(out, t), ts)
    ensures Fits(out, [t] + ts) && Expanded(out, [t] + ts) == Expanded(Grown(out, t), ts)
  {
    assert ([t] + ts)[1..] == ts;
    hide Grown, TokenFits;
  }

  lemma {:induction false} LiteralsExpand(s: seq<int>, out: seq<int>)
    requires AllPlain(s) && |out| + |s| <= PBUFSIZ - 1
    ensures Fits(out, Literals(s)) && Expanded(out, Literals(s)) == out + s
    decreases |s|
  {
    if s == [] {
      assert out + s == out;
    } else {
      hide Plain, Literals, Fits, Expanded;
      LiteralsExpand(s[1..], out + [s[0]]);
      LiteralsFirst(s);
      ExpandFirst(out, Literal(s[0]), Literals(s[1..]));
      assert (out + [s[0]]) + s[1..] == out + s;
    }
  }

  lemma ReadPlain(s: seq<int>, more: seq<int>)
    requires AllPlain(s) && |s| <= PBUFSIZ - 1
    ensures ReadFrom(s + more, [], 0) == ReadFrom(more, s, Sum(s))
  {
    hide ReadFrom, Literals, Encoded, Expanded, Fits, Total, Sum, Plain;
    LiteralsEncode(s);
    LiteralsExpand(s, []);
    SumIsTotal(s);
    assert [] + s == s;
    ReadTokens(Literals(s), more, [], 0);
  }

  // What putpkt sends, read_frame returns.
  lemma FrameRoundTrip(buf: seq<int>, rest: seq<int>)
    requires AllPlain(buf) && |buf| <= PBUFSIZ - 5
    ensures var frame := [DOLLAR] + buf + Trailer(Checksum(buf));
            ReadFrom((frame + rest)[1..], [], 0) == Accepted(buf, rest)
  {
    hide ReadFrom, Trailer, Sum, AllPlain;
    var t := Trailer(Checksum(buf));
    assert ([DOLLAR] + buf + t + rest)[1..] == buf + (t + rest);
    ReadPlain(buf, t + rest);
    ReadHash(Sum(buf), Checksum(buf), rest, buf);
  }

  lemma {:induction false} SumChanged(s: seq<int>, i: int, c: int)
    requires 0 <= i < |s|
    ensures Total(s[i := c]) == Total(s) - s[i] + c
  {
    if i > 0 {
      assert s[i := c][1..] == s[1..][i - 1 := c];
      SumChanged(s[1..], i - 1, c);
    } else {
      assert s[0 := c][1..] == s[1..];
    }
  }

  lemma DifferentMod(x: int, y: int)
    requires -128 < x - y < 128 && x != y
    ensures x % 256 != y % 256
  {
  }

  // A frame in which one character of the payload has become another is not accepted.
  lemma OneWrongCharacter(buf: seq<int>, i: int, c: int, rest: seq<int>)
    requires AllPlain(buf) && |buf| <= PBUFSIZ - 5 && 0 <= i < |buf| && Plain(buf[i]) && Plain(c) && c != buf[i]
    ensures ReadFrom(buf[i := c] + Trailer(Checksum(buf)) + rest, [], 0) == Rejected
  {
    var bad, t := buf[i := c], Trailer(Checksum(buf));
    assert AllPlain(bad);
    hide ReadFrom, Trailer, AllPlain, Plain, Total, Sum;
    assert bad + t + rest == bad + (t + rest);
    ReadPlain(bad, t + rest);
    ReadHash(Sum(bad), Checksum(buf), rest, bad);
    SumChanged(buf, i, c);
    SumIsTotal(buf);
    SumIsTotal(bad);
    Bounded(buf[i], c);
    DifferentMod(Sum(bad), Sum(buf));
  }

  lemma Bounded(a: int, b: int)
    requires Plain(a) && Plain(b)
    ensures -128 < a - b < 128
  {
  }

  // The input as the reader sees it.
  function Cut(input: seq<int>): (r: seq<int>)
    ensures |r| == |input|
  {
    seq(|input|, i requires 0 <= i < |input| => input[i] % 128)
  }

  // What is accepted and does not end here starts with a token that fits.
  lemma FirstToken(input: seq<int>, out: seq<int>, csum: int) returns (t: Token)
    requires ReadFrom(input, out, csum).Accepted? && ReadChar(input, 0) != HASH
    ensures TokenFits(out, t) && 0 < |Characters(t)| <= |input|
    ensures t == if ReadChar(input, 0) == STAR then Run(ReadChar(input, 1)) else Literal(ReadChar(input, 0))
  {
    hide PacketChecksum, Repeated, Last, Total;
    var c := ReadChar(input, 0);
    t := if c == STAR then Run(ReadChar(input, 1)) else Literal(c);
  }

  lemma LiteralRead(input: seq<int>, out: seq<int>, csum: int)
    requires input != [] && TokenFits(out, Literal(ReadChar(input, 0)))
    ensures var t := Literal(ReadChar(input, 0));
            && Cut(input[..1]) == Characters(t)
            && ReadFrom(input, out, csum) == ReadFrom(input[1..], Grown(out, t), csum + Total(Characters(t)))
  {
    hide PacketChecksum, Repeated, Last;
    var c := ReadChar(input, 0);
    assert Total([c]) == c;
    assert Cut(input[..1]) == [c];
  }

  lemma RunRead(input: seq<int>, out: seq<int>, csum: int)
    requires |input| >= 2 && ReadChar(input, 0) == STAR && TokenFits(out, Run(ReadChar(input, 1)))
    ensures var t := Run(ReadChar(input, 1));
            && Cut(input[..2]) == Characters(t)
            && ReadFrom(input, out, csum) == ReadFrom(input[2..], Grown(out, t), csum + Total(Characters(t)))
  {
    hide PacketChecksum, Repeated, Last;
    var code := ReadChar(input, 1);
    assert [STAR, code][1..] == [code] && [code][1..] == [];
    assert Total([code]) == code && Total([STAR, code]) == STAR + Total([code]);
    assert Cut(input[..2]) == [STAR, code];
  }

  lemma TokenRead(input: seq<int>, out: seq<int>, csum: int) returns (t: Token)
    requires ReadFrom(input, out, csum).Accepted? && ReadChar(input, 0) != HASH
    ensures TokenFits(out, t) && 0 < |Characters(t)| <= |input| && Cut(input[..|Characters(t)|]) == Characters(t)
    ensures ReadFrom(input, out, csum)
         == ReadFrom(input[|Characters(t)|..], Grown(out, t), csum + Total(Characters(t)))
  {
    hide ReadFrom, ReadChar, TokenFits, Grown, Total, Cut;
    t := FirstToken(input, out, csum);
    if ReadChar(input, 0) == STAR {
      RunRead(input, out, csum);
    } else {
      LiteralRead(input, out, csum);
    }
  }

  lemma CutJoin(input: seq<int>, i: nat, k: nat)
    requires i + k <= |input|
    ensures Cut(input[..i + k]) == Cut(input[..i]) + Cut(input[i..][..k])
  {
  }

  lemma Skipped(input: seq<int>, i: nat, k: nat)
    requires i <= |input|
    ensures ReadChar(input[i..], k) == ReadChar(input, i + k) && After(input[i..], k) == After(input, i + k)
  {
  }

  lemma EncodeFirst(t: Token, ts: seq<Token>)
    ensures Encoded([t] + ts) == Characters(t) + Encoded(ts)
  {
    assert ([t] + ts)[1..] == ts;
    hide Characters;
  }

  // The input is tokens that fit, a hash, and their sum in the two characters after it; and it is
  // accepted as what they expand to.
  ghost predicate FrameOf(input: seq<int>, out: seq<int>, csum: int, ts: seq<Token>, n: nat) {
    && n <= |input| && Cut(input[..n]) == Encoded(ts) && ReadChar(input, n) == HASH
    && (csum + Total(Encoded(ts))) % 256 == PacketChecksum(ReadChar(input, n + 1), ReadChar(input, n + 2))
    && Fits(out, ts) && ReadFrom(input, out, csum) == Accepted(Expanded(out, ts), After(input, n + 3))
  }

  lemma OneMore(input: seq<int>, out: seq<int>, csum: int, t: Token, ts: seq<Token>, n: nat)
    requires TokenFits(out, t) && |Characters(t)| <= |input| && Cut(input[..|Characters(t)|]) == Characters(t)
    requires var k, sum := |Characters(t)|, csum + Total(Characters(t));
             && FrameOf(input[k..], Grown(out, t), sum, ts, n)
             && ReadFrom(input, out, csum) == ReadFrom(input[k..], Grown(out, t), sum)
    ensures FrameOf(input, out, csum, [t] + ts, |Characters(t)| + n)
  {
    hide ReadFrom, Total, Grown, TokenFits, Fits, Expanded, Encoded, Characters, PacketChecksum, Cut, ReadChar, After;
    var k := |Characters(t)|;
    Skipped(input, k, n);
    Skipped(input, k, n + 1);
    Skipped(input, k, n + 2);
    Skipped(input, k, n + 3);
    CutJoin(input, k, n);
    ExpandFirst(out, t, ts);
    EncodeFirst(t, ts);
    TotalJoin(Characters(t), Encoded(ts));
    assert csum + Total(Encoded([t] + ts)) == csum + Total(Characters(t)) + Total(Encoded(ts));
  }

  // Whatever is accepted is a frame.
  lemma {:induction false} AcceptedIsFrame(input: seq<int>, out: seq<int>, csum: int)
    returns (ts: seq<Token>, n: nat)
    requires ReadFrom(input, out, csum).Accepted?
    ensures FrameOf(input, out, csum, ts, n)
    decreases |input|
  {
    if ReadChar(input, 0) == HASH {
      ts, n := [], 0;
      hide PacketChecksum;
    } else {
      hide ReadFrom, Total, Grown, TokenFits, Characters, Cut, FrameOf;
      var t := TokenRead(input, out, csum);
      ts, n := AcceptedIsFrame(input[|Characters(t)|..], Grown(out, t), csum + Total(Characters(t)));
      OneMore(input, out, csum, t, ts, n);
      ts, n := [t] + ts, |Characters(t)| + n;
    }
  }
}
