/** Whole steps of the processor, from fetch to the next program counter. */
module Steps {
  import opened Exceptions
  import opened Memory
  import opened Cp0
  import opened DelaySlot
  import opened Execution

  // The machine as it fetches: time has passed for the Random register, and the
  // restart address of this instruction is known.
  ghost function Begun(m: Machine, lines: bv32): (r: Machine)
    requires m.Valid() && LinesOk(lines)
    ensures r.Valid()
  {
    m.(pending := false, lines := lines, nextEpc := Epc(m.Control()), cp0 := Cp0.AdjustRandom(m.cp0))
  }

  // The machine after a reset; its delay state is left as it was.
  function WasReset(m: Machine): Machine
    requires |m.reg| == 32 && m.cp0.Valid()
  {
    m.(reg := m.reg[0 := 0], pc := 0xbfc0_0000, cp0 := Cp0.Reset(m.cp0))
  }

  ghost predicate Interrupted(m: Machine)
    requires m.Valid()
  {
    Cp0.InterruptPending(m.cp0.reg[STATUS], m.cp0.reg[CAUSE], m.lines)
  }

  ghost function FetchOf(m: Machine): (a: Attempt<Loaded>)
    requires m.Valid()
    ensures Behind(m, a).Valid()
  {
    LoadedFrom(m.cp0, m.mem, m.pc, Word, InstFetch)
  }

  // The instruction at the program counter is fetched and executed, unless the fetch faults
  // or an interrupt comes first.
  ghost predicate Turned(was: Machine, now: Machine)
    requires was.Valid()
  {
    var a := FetchOf(was);
    var ready := Behind(was, a);
    if a.Faulted? then now == Excepted(a.code, NO_COPROCESSOR, ready)
    else if Interrupted(ready) then now == Excepted(Int, NO_COPROCESSOR, ready)
    else Executed(a.value.data, ready, now)
  }

  // After it.
  function Finished(m: Machine): (r: Machine)
    requires |m.reg| == 32
    ensures |r.reg| == 32
  {
    var r := m.(reg := m.reg[0 := 0]);
    if m.pending then r.(phase := Normal)
    else r.(pc := if m.phase == DelaySlot then m.delayPc else Plus4(m.pc), phase := Shifted(m.phase))
  }

  ghost predicate Stepped(was: Machine, lines: bv32, now: Machine)
    requires was.Valid() && LinesOk(lines)
  {
    exists turned: Machine :: turned.Valid() && Turned(Begun(was, lines), turned) && now == Finished(turned)
  }
}
