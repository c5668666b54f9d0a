/** The debugger's view of the registers: dumped into a packet, and written from one. */
module DebugRegisters {
  import opened Cp0
  import opened Cpus
  import opened RemoteGdb
  import opened RegisterPacket

  // How many words of a dump mean something, and how many there are.
  const KNOWN := 38
  const DUMPED := 90

  const WRITE_REGISTERS := 0x47

  ghost function Seen(c: CPU): (ws: seq<bv32>)
    requires c.Valid()
    reads c, c.mem, c.Parts()
    ensures |ws| == KNOWN
  {
    c.reg[..] + [c.cpzero.reg[STATUS], c.lo, c.hi, c.cpzero.reg[BAD_VADDR], c.cpzero.reg[CAUSE], c.pc]
  }

  function Zeros(n: nat): (ws: seq<bv32>)
    ensures |ws| == n
  {
    seq(n, i => 0)
  }

  function Dump(big: bool, ws: seq<bv32>): seq<int>
    requires |ws| == KNOWN
  {
    Text(big, ws + Zeros(DUMPED - KNOWN))
  }

  predicate HoldsWords(packet: seq<int>) {
    forall k :: 0 <= k < KNOWN ==> WordThere(packet, 8 * k)
  }

  function Received(big: bool, packet: seq<int>): (ws: seq<bv32>)
    requires HoldsWords(packet)
    ensures |ws| == KNOWN
  {
    seq(KNOWN, k requires 0 <= k < KNOWN => WordAt(big, packet, 8 * k))
  }

  method PushAll(big: bool, packet: seq<int>, ghost done: seq<bv32>, ws: seq<bv32>) returns (r: seq<int>)
    requires packet == Text(big, done)
    ensures r == Text(big, done + ws)
  {
    hide Text, Pushed;
    r := packet;
    assert done + ws[..0] == done;
    for i := 0 to |ws|
      invariant r == Text(big, done + ws[..i])
    {
      r := PacketPushWord(big, r, ws[i]);
      TextLast(big, done + ws[..i], ws[i]);
      assert done + ws[..i + 1] == (done + ws[..i]) + [ws[i]];
    }
    assert ws[..|ws|] == ws;
  }

  method DebugRegistersToPacket(c: CPU, big: bool) returns (packet: seq<int>)
    requires c.Valid()
    ensures packet == Dump(big, Seen(c))
  {
    packet := [];
    assert packet == Text(big, []);
    hide Text;
    packet := PushAll(big, packet, [], c.reg[..]);
    packet := PushAll(big, packet, [] + c.reg[..], [c.cpzero.reg[STATUS], c.lo, c.hi, c.cpzero.reg[BAD_VADDR],
        c.cpzero.reg[CAUSE], c.pc]);
    assert [] + c.reg[..] + [c.cpzero.reg[STATUS], c.lo, c.hi, c.cpzero.reg[BAD_VADDR], c.cpzero.reg[CAUSE], c.pc]
        == Seen(c);
    packet := PushAll(big, packet, Seen(c), Zeros(DUMPED - KNOWN));
  }

  method PopGeneral(big: bool, packet: seq<int>, reg: array<bv32>) returns (p: nat)
    requires reg.Length == 32 && HoldsWords(packet)
    modifies reg
    ensures reg[..] == Received(big, packet)[..32] && p == 8 * 32
  {
    hide WordThere, WordAt;
    p := 0;
    for i := 0 to 32
      invariant p == 8 * i && reg[..i] == Received(big, packet)[..i]
    {
      reg[i], p := PacketPopWord(big, packet, p);
    }
  }

  method PopOther(big: bool, packet: seq<int>, start: nat)
    returns (sr: bv32, lo: bv32, hi: bv32, bad: bv32, cause: bv32, pc: bv32)
    requires HoldsWords(packet) && start == 8 * 32
    ensures [sr, lo, hi, bad, cause, pc] == Received(big, packet)[32..]
  {
    assert WordThere(packet, 8 * 32) && WordThere(packet, 8 * 33) && WordThere(packet, 8 * 34);
    assert WordThere(packet, 8 * 35) && WordThere(packet, 8 * 36) && WordThere(packet, 8 * 37);
    hide WordThere, WordAt;
    var p := start;
    sr, p := PacketPopWord(big, packet, p);
    lo, p := PacketPopWord(big, packet, p);
    hi, p := PacketPopWord(big, packet, p);
    bad, p := PacketPopWord(big, packet, p);
    cause, p := PacketPopWord(big, packet, p);
    pc, p := PacketPopWord(big, packet, p);
  }

  method DebugPacketToRegisters(c: CPU, big: bool, packet: seq<int>)
    requires c.Valid() && HoldsWords(packet)
    modifies c`pc, c`lo, c`hi, c.reg, c.cpzero.reg
    ensures c.Valid() && Seen(c) == Received(big, packet)
    ensures forall r :: 0 <= r < REGISTERS && r != STATUS && r != BAD_VADDR && r != CAUSE ==>
      c.cpzero.reg[r] == old(c.cpzero.reg[r])
  {
    ghost var ws := Received(big, packet);
    hide HoldsWords, Received;
    var p := PopGeneral(big, packet, c.reg);
    var sr, bad, cause;
    sr, c.lo, c.hi, bad, cause, c.pc := PopOther(big, packet, p);
    assert c.reg[..] + [sr, c.lo, c.hi, bad, cause, c.pc] == ws[..32] + ws[32..] == ws;
    c.cpzero.reg[STATUS] := sr;
    c.cpzero.reg[BAD_VADDR] := bad;
    c.cpzero.reg[CAUSE] := cause;
  }

  // A dump sent back restores every register, in either byte order.
  lemma DumpRestores(big: bool, ws: seq<bv32>)
    requires |ws| == KNOWN
    ensures HoldsWords(Dump(big, ws)) && Received(big, Dump(big, ws)) == ws
  {
    hide Text, WordThere, WordAt;
    var all := ws + Zeros(DUMPED - KNOWN);
    forall k | 0 <= k < KNOWN
      ensures WordThere(Dump(big, ws), 8 * k) && WordAt(big, Dump(big, ws), 8 * k) == ws[k]
    {
      WordsComeBack(big, all, k);
    }
  }

  lemma CommandIsPlain()
    ensures AllPlain([WRITE_REGISTERS])
  {
  }

  // A dump goes through a frame, and so does a command to write it.
  lemma DumpIsFramed(big: bool, ws: seq<bv32>, rest: seq<int>)
    requires |ws| == KNOWN
    ensures ReadFrom(Dump(big, ws) + Trailer(Checksum(Dump(big, ws))) + rest, [], 0) == Accepted(Dump(big, ws), rest)
    ensures var command := [WRITE_REGISTERS] + Dump(big, ws);
            ReadFrom(command + Trailer(Checksum(command)) + rest, [], 0) == Accepted(command, rest)
  {
    hide Text, ReadFrom, Trailer, Checksum, AllPlain;
    var d := Dump(big, ws);
    var command := [WRITE_REGISTERS] + d;
    TextIsPlain(big, ws + Zeros(DUMPED - KNOWN));
    CommandIsPlain();
    PlainJoin([WRITE_REGISTERS], d);
    FrameRoundTrip(d, rest);
    FrameRoundTrip(command, rest);
    assert ([DOLLAR] + d + Trailer(Checksum(d)) + rest)[1..] == d + Trailer(Checksum(d)) + rest;
    assert ([DOLLAR] + command + Trailer(Checksum(command)) + rest)[1..] == command + Trailer(Checksum(command)) + rest;
  }
}
