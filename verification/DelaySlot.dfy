/** Branch delay slots: the processor's three-state machine against the two program
    counters of the architecture. */
module DelaySlot {

  datatype Phase = Normal | Delaying | DelaySlot

  // The program's own state between two steps.
  datatype Control = Control(pc: bv32, phase: Phase, delayPc: bv32, nextEpc: bv32)

  // What the instruction of one step does to the flow of control.
  datatype Event = Plain | Taken(target: bv32) | Trap(vector: bv32)

  // Where an exception of this step is reported to have happened.
  function Epc(c: Control): bv32 { if c.phase == DelaySlot then c.nextEpc else c.pc }

  function Plus4(a: bv32): bv32 { a + 4 }

  function Shifted(phase: Phase): Phase {
    match phase case Normal => Normal case Delaying => DelaySlot case DelaySlot => Normal
  }

  function Next(c: Control, e: Event): Control {
    var epc := Epc(c);
    match e
    case Trap(vector) => Control(vector, Normal, c.delayPc, epc)
    case Taken(target) => Control(Plus4(c.pc), Shifted(Delaying), target, epc)
    case Plain => Control(if c.phase == DelaySlot then c.delayPc else Plus4(c.pc), Shifted(c.phase), c.delayPc, epc)
  }

  // The architecture: the instruction to execute, the one after it, and the taken branch whose
  // slot the first one is in. The word after a branch that is not taken counts as an ordinary one.
  datatype Branch = NoBranch | At(address: bv32)

  datatype Arch = Arch(pc: bv32, npc: bv32, branch: Branch)

  function ArchNext(a: Arch, e: Event): Arch {
    match e
    case Trap(vector) => Arch(vector, Plus4(vector), NoBranch)
    case Taken(target) => Arch(a.npc, target, At(a.pc))
    case Plain => Arch(a.npc, Plus4(a.npc), NoBranch)
  }

  // What an exception records: the restart address, and whether it is a branch before it.
  datatype Record = Record(epc: bv32, bd: bool)

  function Recorded(c: Control): Record { Record(Epc(c), c.phase == DelaySlot) }

  function ArchRecorded(a: Arch): Record {
    match a.branch case NoBranch => Record(a.pc, false) case At(address) => Record(address, true)
  }

  ghost predicate Flows(c: Control, a: Arch) {
    && c.phase != Delaying && a.pc == c.pc
    && a.npc == (if c.phase == DelaySlot then c.delayPc else Plus4(c.pc))
    && (a.branch.At? <==> c.phase == DelaySlot)
  }

  // The states agree, and the branch of a slot is the word before it and where the
  // processor will report an exception.
  ghost predicate Simulates(c: Control, a: Arch) {
    Flows(c, a) && (a.branch.At? ==> a.branch.address == c.nextEpc && Plus4(c.nextEpc) == c.pc)
  }

  predicate TakenInSlot(c: Control, e: Event) { c.phase == DelaySlot && e.Taken? }

  // One step keeps the simulation exactly unless it takes a branch in a delay slot.
  lemma StepSimulates(c: Control, a: Arch, e: Event)
    requires Simulates(c, a)
    ensures Simulates(Next(c, e), ArchNext(a, e)) <==> !TakenInSlot(c, e)
    ensures Recorded(c) == ArchRecorded(a)
  {
    if TakenInSlot(c, e) {
      NotPlus4(c.nextEpc);
    }
    hide Plus4;
  }

  lemma NotPlus4(a: bv32)
    ensures Plus4(a) != a
  {
  }

  // And then the flow itself goes wrong exactly unless the first branch went to the
  // word after its slot: its target is dropped.
  lemma TakenInSlotDropsTarget(c: Control, a: Arch, e: Event)
    requires Simulates(c, a) && TakenInSlot(c, e)
    ensures Flows(Next(c, e), ArchNext(a, e)) <==> c.delayPc == Plus4(c.pc)
    ensures Recorded(Next(c, e)) != ArchRecorded(ArchNext(a, e))
  {
    NotPlus4(c.nextEpc);
    hide Plus4;
  }

  // For instance: a branch to 0x200, and in its slot one to 0x300. The architecture goes to 0x200
  // and then to 0x300; the program goes on to the word after the slot.
  lemma TargetIsDropped()
    ensures var c, a := Control(0x104, DelaySlot, 0x200, 0x100), Arch(0x104, 0x200, At(0x100));
            Simulates(c, a) && Next(c, Taken(0x300)).pc == 0x108 && ArchNext(a, Taken(0x300)).pc == 0x200
  {
  }

  function Run(c: Control, events: seq<Event>): Control
    decreases |events|
  {
    if events == [] then c else Run(Next(c, events[0]), events[1..])
  }

  function ArchRun(a: Arch, events: seq<Event>): Arch
    decreases |events|
  {
    if events == [] then a else ArchRun(ArchNext(a, events[0]), events[1..])
  }

  // The records of all exceptions of a run.
  function Records(c: Control, events: seq<Event>): seq<Record>
    decreases |events|
  {
    if events == [] then []
    else (if events[0].Trap? then [Recorded(c)] else []) + Records(Next(c, events[0]), events[1..])
  }

  function ArchRecords(a: Arch, events: seq<Event>): seq<Record>
    decreases |events|
  {
    if events == [] then []
    else (if events[0].Trap? then [ArchRecorded(a)] else []) + ArchRecords(ArchNext(a, events[0]), events[1..])
  }

  predicate NeverTakenInSlot(c: Control, events: seq<Event>)
    decreases |events|
  {
    events == [] || (!TakenInSlot(c, events[0]) && NeverTakenInSlot(Next(c, events[0]), events[1..]))
  }

  // Every run that takes no branch in a delay slot executes the instructions that the
  // architecture executes, and restarts each exception where the architecture would.
  lemma {:induction false} RunSimulates(c: Control, a: Arch, events: seq<Event>)
    requires Simulates(c, a) && NeverTakenInSlot(c, events)
    ensures Simulates(Run(c, events), ArchRun(a, events))
    ensures Records(c, events) == ArchRecords(a, events)
    decreases |events|
  {
    if events != [] {
      StepSimulates(c, a, events[0]);
      RunSimulates(Next(c, events[0]), ArchNext(a, events[0]), events[1..]);
    }
  }

  // From reset.
  lemma ResetSimulates(c: Control)
    requires c.pc == 0xbfc0_0000 && c.phase == Normal
    ensures Simulates(c, Arch(0xbfc0_0000, 0xbfc0_0004, NoBranch))
  {
  }
}
