/** Interrupt lines: what devices assert, and what the processor sees. */
module Interrupts {

  // The lines of one device.
  datatype Lines = Lines(connected: bv32, asserted: bv32)

  predicate Touches(a: bv32, b: bv32) { a & b != 0 }

  function Asserting(l: Lines, line: bv32): Lines {
    if Touches(line, l.connected) then l.(asserted := l.asserted | line) else l
  }

  function Deasserting(l: Lines, line: bv32): Lines {
    if Touches(line, l.connected) then l.(asserted := l.asserted & !line) else l
  }

  lemma SetTouches(a: bv32, line: bv32)
    requires line != 0
    ensures Touches(a | line, line)
  {
  }

  lemma ClearedTouchesNot(a: bv32, line: bv32)
    ensures !Touches(a & !line, line)
  {
  }

  lemma OrOfAnds(a: bv32, b: bv32, m: bv32)
    ensures (a | b) & m == (a & m) | (b & m)
  {
  }

  lemma OrIsZero(x: bv32, y: bv32)
    ensures x | y == 0 ==> x == 0
    ensures x | y == 0 ==> y == 0
  {
  }

  lemma OrTouches(a: bv32, b: bv32, m: bv32)
    ensures Touches(a | b, m) <==> Touches(a, m) || Touches(b, m)
  {
    OrOfAnds(a, b, m);
    OrIsZero(a & m, b & m);
  }

  lemma NothingTouches(m: bv32)
    ensures !Touches(0, m)
  {
  }

  // All lines of all devices together.
  function Or(a: bv32, b: bv32): bv32 { a | b }

  function OrAll(ls: seq<bv32>): bv32 {
    if ls == [] then 0 else Or(OrAll(ls[..|ls| - 1]), ls[|ls| - 1])
  }

  // A line is seen exactly when some device asserts it, whatever the others do.
  lemma {:induction false} SeenIffAsserted(ls: seq<bv32>, line: bv32)
    ensures Touches(OrAll(ls), line) <==> exists i :: 0 <= i < |ls| && Touches(ls[i], line)
  {
    hide Touches, Or;
    NothingTouches(line);
    if ls != [] {
      var n := |ls| - 1;
      SeenIffAsserted(ls[..n], line);
      OrTouchesBy(OrAll(ls[..n]), ls[n], line);
      assert forall i :: 0 <= i < n ==> ls[..n][i] == ls[i];
    }
  }

  lemma OrTouchesBy(a: bv32, b: bv32, m: bv32)
    ensures Touches(Or(a, b), m) <==> Touches(a, m) || Touches(b, m)
  {
    OrTouches(a, b, m);
  }

  class DeviceInt {
    var connected: bv32
    var asserted: bv32

    ghost function View(): Lines
      reads this
    {
      Lines(connected, asserted)
    }

    constructor ()
      ensures View() == Lines(0, 0)
    {
      connected, asserted := 0, 0;
    }

    method AssertInt(line: bv32)
      modifies this
      ensures View() == Asserting(old(View()), line)
    {
      if Touches(line, connected) {
        asserted := asserted | line;
      }
    }

    method DeassertInt(line: bv32)
      modifies this
      ensures View() == Deasserting(old(View()), line)
    {
      if Touches(line, connected) {
        asserted := asserted & !line;
      }
    }
  }

  class IntCtrl {
    var devs: seq<DeviceInt>

    // Every device is listed once.
    ghost predicate Valid()
      reads this
    {
      forall i, j :: 0 <= i < j < |devs| ==> devs[i] != devs[j]
    }

    constructor ()
      ensures Valid() && devs == []
    {
      devs := [];
    }

    // The pending bits, of any line, are those that some listed device asserts.
    method CalculateIP() returns (ip: bv32)
      requires Valid()
      ensures forall line: bv32 :: Touches(ip, line) <==> exists i :: 0 <= i < |devs| && Touches(devs[i].asserted, line)
    {
      ip := 0;
      ghost var ls := [];
      for n := 0 to |devs|
        invariant |ls| == n && ip == OrAll(ls)
        invariant forall i :: 0 <= i < n ==> ls[i] == devs[i].asserted
      {
        ls := ls + [devs[n].asserted];
        assert ls[..n] + [devs[n].asserted] == ls;
        ip := Or(ip, devs[n].asserted);
      }
      forall line: bv32
        ensures Touches(ip, line) <==> exists i :: 0 <= i < |devs| && Touches(devs[i].asserted, line)
      {
        SeenIffAsserted(ls, line);
      }
    }

    // Connecting a second line of a device does not list it again.
    method ConnectLine(line: bv32, dev: DeviceInt)
      requires Valid()
      modifies this, dev
      ensures Valid() && dev.View() == old(dev.View()).(connected := old(dev.connected) | line)
      ensures devs == if dev in old(devs) then old(devs) else old(devs) + [dev]
    {
      dev.connected := dev.connected | line;
      for i := 0 to |devs|
        invariant devs == old(devs) && dev.View() == old(dev.View()).(connected := old(dev.connected) | line)
        invariant forall j :: 0 <= j < i ==> devs[j] != dev
      {
        if devs[i] == dev {
          return;
        }
      }
      devs := devs + [dev];
    }
  }
}
