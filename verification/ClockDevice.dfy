/** The clock device: a task that re-arms itself, a ready flag and an interrupt line. */
module ClockDevices {
  import opened Agenda
  import opened Interrupts
  import opened SharedClock

  // clock_state, interrupt_enabled, and the device's interrupt lines.
  datatype Device = Device(ready: bool, enabled: bool, lines: Lines)

  // The one kind of task that the device has on the clock.
  datatype Task = Trigger

  datatype Config = Config(irq: bv32, frequency: Nanos)

  function Readied(d: Device, irq: bv32): Device {
    d.(ready := true, lines := if d.enabled then Asserting(d.lines, irq) else d.lines)
  }

  function Unreadied(d: Device, irq: bv32): Device {
    d.(ready := false, lines := Deasserting(d.lines, irq))
  }

  // A store to the control word, with its interrupt enable bit.
  function Controlled(d: Device, irq: bv32, enable: bool): Device {
    d.(enabled := enable, lines := if enable && d.ready then Asserting(d.lines, irq) else d.lines)
  }

  class ClockDevice {
    const config: Config
    const interrupt: DeviceInt
    var ready: bool
    var enabled: bool

    ghost function View(): Device
      reads this, interrupt
    {
      Device(ready, enabled, interrupt.View())
    }

    constructor (config: Config)
      ensures View() == Device(false, false, Lines(0, 0)) && this.config == config && fresh(interrupt)
    {
      this.config := config;
      interrupt := new DeviceInt();
      ready, enabled := false, false;
    }

    // What the device asks the clock for when it is made, and again whenever it fires.
    function Rearm(): Request<Task> { Request(Trigger, config.frequency) }

    method ReadyClock() returns (requests: seq<Request<Task>>)
      modifies this, interrupt
      ensures View() == Readied(old(View()), config.irq) && requests == [Rearm()]
    {
      ready := true;
      if enabled {
        interrupt.AssertInt(config.irq);
      }
      requests := [Rearm()];
    }

    method UnreadyClock()
      modifies this, interrupt
      ensures View() == Unreadied(old(View()), config.irq)
    {
      ready := false;
      interrupt.DeassertInt(config.irq);
    }

    method StoreControl(enable: bool)
      modifies this, interrupt
      ensures View() == Controlled(old(View()), config.irq, enable)
    {
      enabled := enable;
      if enabled && ready {
        interrupt.AssertInt(config.irq);
      }
    }
  }

  function Firing(config: Config): Callback<Device, Task> {
    (d: Device, task: Task) => (Readied(d, config.irq), [Request(Trigger, config.frequency)])
  }

  // What the device sees of the clock; and the clock itself, which it shares with tasks T of
  // other devices, whose world is X. The clock's time is the time of the last increment.
  type View = Agenda.Moment<Device, Task>

  type Moment<X, T> = Agenda.Moment<(Device, X), Shared<Task, T>>

  // Time passing, a read of the control word, a store to it, and anything that happens to
  // the rest of the world.
  datatype Op<X, T> = Tick(nanoseconds: Nanos) | ReadControl | StoreControl(enable: bool)
                    | Elsewhere(world: X, requests: seq<Request<T>>)

  // fired: the times at which the trigger has run.
  datatype Run<X, T> = Run(moment: Moment<X, T>, fired: seq<int>)

  ghost function FiredBy(v: View, now: int, fired: seq<int>): seq<int> {
    if DueCount(v.queue, now) > 0 then fired + [now] else fired
  }

  ghost function Step<X, T>(r: Run<X, T>, op: Op<X, T>, config: Config, others: Others<Device, X, T>): Run<X, T> {
    var m := r.moment;
    var (d, x) := m.world;
    match op
    case Tick(n) => Run(After(m, n, Both(Firing(config), others)), FiredBy(Own(m), m.now + n, r.fired))
    case ReadControl => r.(moment := m.(world := (Unreadied(d, config.irq), x)))
    case StoreControl(enable) => r.(moment := m.(world := (Controlled(d, config.irq, enable), x)))
    case Elsewhere(world, requests) =>
      r.(moment := m.(world := (d, world), queue := InsertAll(m.queue, m.now, Theirs(requests))))
  }

  ghost function Steps<X, T>(r: Run<X, T>, ops: seq<Op<X, T>>, config: Config, others: Others<Device, X, T>): Run<X, T>
    decreases |ops|
  {
    if ops == [] then r else Steps(Step(r, ops[0], config, others), ops[1..], config, others)
  }

  // One trigger is pending, in the future but no more than a period away.
  ghost predicate OnePending(v: View, config: Config) {
    |v.queue| == 1 && 0 < v.queue[0].due - v.now <= config.frequency
  }

  // The interrupt line tells no lies: asserted only if ready, and asserted if ready and
  // enabled.
  ghost predicate LineTrue(d: Device, config: Config) {
    && Touches(config.irq, d.lines.connected)
    && (Touches(d.lines.asserted, config.irq) ==> d.ready)
    && (d.ready && d.enabled ==> Touches(d.lines.asserted, config.irq))
  }

  // Firings are at least a period apart, and less than a period and an increment.
  ghost predicate Spaced(fired: seq<int>, frequency: int, largest: int) {
    forall i :: 0 < i < |fired| ==> frequency <= fired[i] - fired[i - 1] < frequency + largest
  }

  ghost predicate Small<X, T>(op: Op<X, T>, largest: int) { op.Tick? ==> op.nanoseconds <= largest }

  ghost predicate GoodView(v: View, fired: seq<int>, config: Config, largest: int) {
    && OnePending(v, config) && LineTrue(v.world, config)
    && Spaced(fired, config.frequency, largest)
    && (fired != [] ==> v.queue[0].due == fired[|fired| - 1] + config.frequency)
  }

  ghost predicate Good<X, T>(r: Run<X, T>, config: Config, largest: int) {
    Sorted(r.moment.queue) && GoodView(Own(r.moment), r.fired, config, largest)
  }

  lemma AssertKeepsTruth(d: Device, config: Config)
    requires config.irq != 0 && LineTrue(d, config)
    ensures LineTrue(Readied(d, config.irq), config)
    ensures LineTrue(Unreadied(d, config.irq), config)
    ensures LineTrue(Controlled(d, config.irq, true), config)
    ensures LineTrue(Controlled(d, config.irq, false), config)
  {
    AssertSets(d.lines, config.irq);
    DeassertClears(d.lines, config.irq);
    hide Touches, Asserting, Deasserting;
  }

  lemma AssertSets(l: Lines, line: bv32)
    requires line != 0 && Touches(line, l.connected)
    ensures Asserting(l, line).connected == l.connected && Touches(Asserting(l, line).asserted, line)
  {
    SetTouches(l.asserted, line);
  }

  lemma DeassertClears(l: Lines, line: bv32)
    requires Touches(line, l.connected)
    ensures Deasserting(l, line).connected == l.connected && !Touches(Deasserting(l, line).asserted, line)
  {
    ClearedTouchesNot(l.asserted, line);
  }

  lemma ViewTick(v: View, n: Nanos, config: Config)
    requires OnePending(v, config)
    ensures var due, now := v.queue[0].due, v.now + n;
            && (DueCount(v.queue, now) > 0 <==> due <= now)
            && After(v, n, Firing(config))
               == (if due <= now
                   then Agenda.Moment(now, [Entry(now + config.frequency, Trigger)], Readied(v.world, config.irq))
                   else Agenda.Moment(now, v.queue, v.world))
  {
    hide Readied;
    var now, e, run := v.now + n, v.queue[0], Firing(config);
    assert v.queue == [e] + [];
    if e.due <= now {
      AdvanceHead(e, [], now, v.world, run);
      var next := Agenda.Moment(now, [Entry(now + config.frequency, Trigger)], Readied(v.world, config.irq));
      var reqs := [Request(Trigger, config.frequency)];
      assert InsertAll([], now, reqs) == next.queue by {
        assert reqs[1..] == [];
        assert Insert([], Entry(now + config.frequency, Trigger)) == next.queue;
      }
      AdvanceIdle(next, run);
    } else {
      AdvanceIdle(Agenda.Moment(now, v.queue, v.world), run);
    }
  }

  // One increment of the shared clock, whatever else it runs, fires the trigger at most once:
  // exactly if it is due, and then the next one is pending a period later.
  lemma TickOnce<X, T>(m: Moment<X, T>, n: Nanos, config: Config, others: Others<Device, X, T>)
    requires Sorted(m.queue) && OnePending(Own(m), config)
    ensures var due, now, v := Own(m).queue[0].due, m.now + n, Own(After(m, n, Both(Firing(config), others)));
            && v.now == now && v.queue == [Entry(if due <= now then now + config.frequency else due, Trigger)]
            && v.world == if due <= now then Readied(m.world.0, config.irq) else m.world.0
  {
    hide Readied, After;
    AfterOwn(m, n, Firing(config), others);
    ViewTick(Own(m), n, config);
    var e := Own(m).queue[0];
    assert e.task.Trigger? && Own(m).queue == [e];
  }

  lemma TickKeeps(v: View, fired: seq<int>, n: Nanos, config: Config, largest: int)
    requires GoodView(v, fired, config, largest) && n <= largest && LineTrue(Readied(v.world, config.irq), config)
    ensures GoodView(After(v, n, Firing(config)), FiredBy(v, v.now + n, fired), config, largest)
  {
    hide LineTrue, Readied, After, DueCount, Firing;
    ViewTick(v, n, config);
  }

  lemma StepKeeps<X, T>(r: Run<X, T>, op: Op<X, T>, config: Config, largest: int, others: Others<Device, X, T>)
    requires config.irq != 0 && Good(r, config, largest) && Small(op, largest)
    ensures Good(Step(r, op, config, others), config, largest)
  {
    hide LineTrue, Readied, Unreadied, Controlled, After, DueCount, Firing, Spaced, OwnEntries, InsertAll;
    var m := r.moment;
    AssertKeepsTruth(m.world.0, config);
    match op
    case Tick(n) =>
      AfterOwn(m, n, Firing(config), others);
      TickKeeps(Own(m), r.fired, n, config, largest);
    case ReadControl =>
      assert Good(Step(r, op, config, others), config, largest);
    case StoreControl(enable) =>
      assert Good(Step(r, op, config, others), config, largest);
    case Elsewhere(world, requests) =>
      InsertAllKeepsSorted(m.queue, m.now, Theirs<Task, T>(requests));
      OwnInsertTheirs<Task, T>(m.queue, m.now, requests);
  }

  // From its construction with the line connected, over every run of increments of at
  // most `largest`, of reads and writes of the control word, and of anything that other
  // devices do on the same clock.
  lemma {:induction false} RunsAreGood<X, T>(r: Run<X, T>, ops: seq<Op<X, T>>, config: Config, largest: int,
                                             others: Others<Device, X, T>)
    requires config.irq != 0 && Good(r, config, largest) && forall i :: 0 <= i < |ops| ==> Small(ops[i], largest)
    ensures Good(Steps(r, ops, config, others), config, largest)
    decreases |ops|
  {
    if ops != [] {
      hide Good, Step;
      StepKeeps(r, ops[0], config, largest, others);
      RunsAreGood(Step(r, ops[0], config, others), ops[1..], config, largest, others);
    }
  }

  // The device joins a clock that others may be using already.
  ghost function Beginning<X, T>(now: int, queue: seq<Entry<T>>, x: X, lines: Lines, config: Config): Run<X, T> {
    Run(Agenda.Moment(now, InsertAll(OnlyTheirs(queue), now, Mines([Request(Trigger, config.frequency)])),
                      (Device(false, false, lines), x)), [])
  }

  lemma BeginningIsGood<X, T>(now: int, queue: seq<Entry<T>>, x: X, lines: Lines, config: Config, largest: int)
    requires Sorted(queue) && Touches(config.irq, lines.connected) && !Touches(lines.asserted, config.irq)
    ensures Good(Beginning(now, queue, x, lines, config), config, largest)
  {
    hide Touches;
    var q: seq<Entry<Shared<Task, T>>> := OnlyTheirs(queue);
    var reqs := [Request(Trigger, config.frequency)];
    NoneOwn<Task, T>(queue);
    InsertAllKeepsSorted(q, now, Mines<Task, T>(reqs));
    OwnInsertAll<Task, T>(q, now, reqs);
    assert reqs[1..] == [];
    assert InsertAll([], now, reqs) == [Entry(now + config.frequency, Trigger)];
  }
}
