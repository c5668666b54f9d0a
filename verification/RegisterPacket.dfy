/** The registers as the debugger sees them: hexadecimal digits in the target's byte order. */
module RegisterPacket {
  import opened Endian
  import opened RemoteGdb

  function DropDigit(w: bv32): bv32 { w >> 4 }

  // The first i hexadecimal digits of a word as a number, and digit number i.
  function Top(w: bv32, i: int): bv32
    requires 0 <= i <= 8
    decreases 8 - i
  {
    if i == 8 then w else DropDigit(Top(w, i + 1))
  }

  function Digit(w: bv32, i: int): bv32
    requires 0 <= i < 8
  {
    Top(w, i + 1) & 0xf
  }

  // Appending a digit to a number.
  function Append(x: bv32, d: bv32): bv32 { (x << 4) | d }

  function CharOf(d: bv32): int { ToHex((d & 0xf) as int) }

  predicate IsHex(c: int) { 0x30 <= c <= 0x39 || 0x61 <= c <= 0x66 || 0x41 <= c <= 0x46 }

  function ValueOf(c: int): bv32
    requires IsHex(c)
  {
    FromHex(c) as bv32
  }

  lemma DigitChar(d: bv32)
    requires d < 16
    ensures IsHex(CharOf(d)) && Plain(CharOf(d))
    ensures ValueOf(CharOf(d)) == d
  {
  }

  lemma DigitIsSmall(w: bv32, i: int)
    requires 0 <= i < 8
    ensures Digit(w, i) < 16
  {
    var t := Top(w, i + 1);
    hide Top;
  }

  lemma DropAndAppend(x: bv32)
    ensures Append(DropDigit(x), x & 0xf) == x
  {
  }

  lemma TopStep(w: bv32, i: int)
    requires 0 <= i < 8
    ensures Top(w, i + 1) == Append(Top(w, i), Digit(w, i))
  {
    hide Append, DropDigit;
    DropAndAppend(Top(w, i + 1));
  }

  function DropFour(w: bv32): bv32 { DropDigit(DropDigit(DropDigit(DropDigit(w)))) }

  lemma EightDrops(w: bv32)
    ensures DropFour(DropFour(w)) == 0
  {
  }

  lemma TopOfNone(w: bv32)
    ensures Top(w, 0) == 0
  {
    hide DropDigit;
    assert Top(w, 6) == DropDigit(DropDigit(w));
    assert Top(w, 4) == DropFour(w);
    assert Top(w, 2) == DropDigit(DropDigit(DropFour(w)));
    EightDrops(w);
  }

  // A word in eight digits, as it is pushed; and digits as a number.
  function Digits(w: bv32): (s: seq<int>)
    ensures |s| == 8
    ensures forall i :: 0 <= i < 8 ==> s[i] == CharOf(Digit(w, i))
  {
    seq(8, i requires 0 <= i < 8 => CharOf(Digit(w, i)))
  }

  function Pushed(big: bool, w: bv32): seq<int> { Digits(Swapped(!big, w)) }

  predicate AllHex(s: seq<int>) { forall i :: 0 <= i < |s| ==> IsHex(s[i]) }

  function Parse(s: seq<int>): bv32
    requires AllHex(s)
  {
    if s == [] then 0 else Append(Parse(s[..|s| - 1]), ValueOf(s[|s| - 1]))
  }

  lemma DigitsAreHex(w: bv32)
    ensures AllHex(Digits(w)) && AllPlain(Digits(w))
  {
    hide Digit, CharOf, IsHex, Plain;
    forall i | 0 <= i < 8
      ensures IsHex(Digits(w)[i]) && Plain(Digits(w)[i])
    {
      DigitIsSmall(w, i);
      DigitChar(Digit(w, i));
    }
  }

  lemma ParseLast(s: seq<int>, c: int)
    requires AllHex(s) && IsHex(c)
    ensures AllHex(s + [c]) && Parse(s + [c]) == Append(Parse(s), ValueOf(c))
  {
    hide Append, ValueOf, IsHex;
    assert (s + [c])[..|s|] == s;
  }

  lemma {:induction false} ParsePrefix(w: bv32, i: int)
    requires 0 <= i <= 8
    ensures AllHex(Digits(w)[..i]) && Parse(Digits(w)[..i]) == Top(w, i)
    decreases i
  {
    if i == 0 {
      assert Digits(w)[..0] == [];
      TopOfNone(w);
    } else {
      hide Digit, CharOf, IsHex, Top, Append, ValueOf, Parse, AllHex;
      ParsePrefix(w, i - 1);
      var d := Digit(w, i - 1);
      DigitIsSmall(w, i - 1);
      DigitChar(d);
      ParseLast(Digits(w)[..i - 1], CharOf(d));
      assert Digits(w)[..i] == Digits(w)[..i - 1] + [CharOf(d)];
      TopStep(w, i - 1);
    }
  }

  lemma DigitsParse(w: bv32)
    ensures AllHex(Digits(w)) && Parse(Digits(w)) == w
  {
    hide Digits, Parse, AllHex;
    ParsePrefix(w, 8);
    assert Digits(w)[..8] == Digits(w);
  }

  lemma SwapTwice(yes: bool, w: bv32)
    ensures Swapped(yes, Swapped(yes, w)) == w
  {
    hide SwapWord, Join, Split;
    JoinOfSplit(w);
    SwapOfJoin(Split(w));
    SwapOfJoin(Split(w).Reversed());
  }

  // The word at a position of a packet, as it is popped.
  predicate WordThere(packet: seq<int>, pos: int) {
    0 <= pos <= pos + 8 <= |packet| && AllHex(packet[pos..pos + 8])
  }

  function WordAt(big: bool, packet: seq<int>, pos: int): bv32
    requires WordThere(packet, pos)
  {
    Swapped(!big, Parse(packet[pos..pos + 8]))
  }

  lemma PoppedIsPushed(big: bool, w: bv32, packet: seq<int>, pos: int)
    requires 0 <= pos <= pos + 8 <= |packet| && packet[pos..pos + 8] == Pushed(big, w)
    ensures WordThere(packet, pos) && WordAt(big, packet, pos) == w
  {
    hide Digits, Parse, AllHex, Swapped;
    DigitsParse(Swapped(!big, w));
    SwapTwice(!big, w);
  }

  // A packet of words.
  function Text(big: bool, ws: seq<bv32>): (s: seq<int>)
    ensures |s| == 8 * |ws|
  {
    if ws == [] then [] else Text(big, ws[..|ws| - 1]) + Pushed(big, ws[|ws| - 1])
  }

  lemma TextLast(big: bool, ws: seq<bv32>, w: bv32)
    ensures Text(big, ws + [w]) == Text(big, ws) + Pushed(big, w)
  {
    assert (ws + [w])[..|ws|] == ws;
  }

  lemma {:induction false} TextPiece(big: bool, ws: seq<bv32>, k: int)
    requires 0 <= k < |ws|
    ensures Text(big, ws)[8 * k..8 * k + 8] == Pushed(big, ws[k])
    decreases |ws|
  {
    hide Digits, Swapped, Text;
    var n := |ws| - 1;
    TextLast(big, ws[..n], ws[n]);
    assert ws == ws[..n] + [ws[n]];
    if k < n {
      TextPiece(big, ws[..n], k);
      assert Text(big, ws)[8 * k..8 * k + 8] == Text(big, ws[..n])[8 * k..8 * k + 8];
    }
  }

  // Popping word k of a packet gives word k of what was pushed, in either byte order.
  lemma WordsComeBack(big: bool, ws: seq<bv32>, k: int)
    requires 0 <= k < |ws|
    ensures WordThere(Text(big, ws), 8 * k) && WordAt(big, Text(big, ws), 8 * k) == ws[k]
  {
    hide Text, Pushed, WordThere, WordAt;
    TextPiece(big, ws, k);
    PoppedIsPushed(big, ws[k], Text(big, ws), 8 * k);
  }

  lemma PlainJoin(a: seq<int>, b: seq<int>)
    requires AllPlain(a) && AllPlain(b)
    ensures AllPlain(a + b)
  {
    hide Plain;
  }

  lemma {:induction false} TextIsPlain(big: bool, ws: seq<bv32>)
    ensures AllPlain(Text(big, ws))
  {
    if ws != [] {
      hide Digits, Swapped, AllPlain;
      var n := |ws| - 1;
      TextIsPlain(big, ws[..n]);
      DigitsAreHex(Swapped(!big, ws[n]));
      PlainJoin(Text(big, ws[..n]), Pushed(big, ws[n]));
    }
  }

  method PacketPushWord(big: bool, packet: seq<int>, n: bv32) returns (r: seq<int>)
    ensures r == packet + Pushed(big, n)
  {
    hide SwapWord, Digits;
    var w := n;
    if !big {
      w := SwapWord(w);
    }
    r := packet + Digits(w);
  }

  method PacketPopWord(big: bool, packet: seq<int>, pos: nat) returns (val: bv32, next: nat)
    requires WordThere(packet, pos)
    ensures val == WordAt(big, packet, pos) && next == pos + 8
  {
    hide SwapWord, IsHex, Parse;
    var valstr := [];
    var p := pos;
    for i := 0 to 8
      invariant p == pos + i && valstr == packet[pos..p]
    {
      valstr := valstr + [packet[p]];
      p := p + 1;
    }
    val := Parse(valstr);
    if !big {
      val := SwapWord(val);
    }
    next := p;
  }
}
