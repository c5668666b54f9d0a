/** The terminal controller on a clock that it shares with other devices, over every run. */
module TerminalRuns {
  import opened Agenda
  import opened SharedClock
  import opened Terminal
  import opened TerminalInvariant

  // The controller, and what the host will answer to its tasks in turn.
  datatype World = World(state: State, inputs: nat -> Input, turn: nat)

  // What the controller sees of the clock; and the clock itself, which it shares with tasks T of
  // other devices, whose world is X.
  type View = Agenda.Moment<World, Task>

  type Moment<X, T> = Agenda.Moment<(World, X), Shared<Task, T>>

  // Running one task; a state of the wrong shape, which does not arise, is left alone.
  function Running(config: Config): Callback<World, Task> {
    (w: World, task: Task) =>
      if !Shaped(w.state) then (w, [])
      else
        var o := RunTask(w.state, task, w.inputs(w.turn), config);
        (World(o.state, w.inputs, w.turn + 1), o.requests)
  }

  // The tasks that the clock holds.
  ghost function Held(q: seq<Entry<Task>>): multiset<Task> {
    if q == [] then multiset{} else multiset{q[0].task} + Held(q[1..])
  }

  lemma {:induction false} HeldInsert(q: seq<Entry<Task>>, e: Entry<Task>)
    ensures Held(Insert(q, e)) == Held(q) + multiset{e.task}
  {
    var r := Insert(q, e);
    if q == [] || e.due < q[0].due {
      assert r[1..] == q;
    } else {
      HeldInsert(q[1..], e);
      assert r[1..] == Insert(q[1..], e);
    }
  }

  lemma {:induction false} HeldInsertAll(q: seq<Entry<Task>>, now: int, reqs: seq<Request<Task>>)
    ensures Held(InsertAll(q, now, reqs)) == Held(q) + TasksOf(reqs)
    decreases |reqs|
  {
    if reqs != [] {
      var e := Entry(now + reqs[0].delay, reqs[0].task);
      HeldInsert(q, e);
      HeldInsertAll(Insert(q, e), now, reqs[1..]);
    }
  }

  ghost predicate GoodView(v: View) { Inv(v.world.state, Held(v.queue)) }

  lemma {:induction false} AdvanceKeeps(v: View, config: Config)
    requires GoodView(v)
    ensures GoodView(Advance(v, Running(config)))
    decreases DueCount(v.queue, v.now)
  {
    if DueCount(v.queue, v.now) > 0 {
      var task, rest := v.queue[0].task, v.queue[1..];
      var (world, reqs) := Running(config)(v.world, task);
      RunKeeps(v.world.state, Held(v.queue), task, v.world.inputs(v.world.turn), config);
      HeldInsertAll(rest, v.now, reqs);
      assert Held(v.queue) - multiset{task} == Held(rest);
      DueUntouched(rest, v.now, reqs);
      AdvanceKeeps(Agenda.Moment(v.now, InsertAll(rest, v.now, reqs), world), config);
    }
  }

  // What the machine around the controller may do, and what it owes it; and whatever happens
  // to the rest of the world.
  datatype Op<X, T> = Connecting(fd: int, line: int, prepared: bool) | Removing(line: int)
                    | Writing(line: int) | Reading(line: int) | Tick(nanoseconds: Nanos)
                    | Elsewhere(world: X, requests: seq<Request<T>>)

  predicate Allowed<X, T>(s: State, op: Op<X, T>)
    requires Shaped(s)
  {
    match op
    case Connecting(fd, line, _) =>
      InRange(line) && 0 <= fd && forall i :: 0 <= i < MAX_TERMINALS ==> s.lines[i].fd != fd
    case Removing(line) => InRange(line)
    case Writing(line) => Connected(s, line)
    case Reading(line) => Connected(s, line) && s.lines[line].keyboardReady
    case Tick(_) => true
    case Elsewhere(_, _) => true
  }

  // An operation of the controller, with what it asks the clock for.
  ghost function Operated<X, T>(s: State, op: Op<X, T>, config: Config): Outcome
    requires Shaped(s) && Allowed(s, op)
  {
    match op
    case Connecting(fd, line, prepared) => Outcome(Connect(s, fd, line, prepared), [])
    case Removing(line) => Outcome(Remove(s, line), [])
    case Writing(line) => UnreadyDisplay(s, line, config)
    case Reading(line) => Outcome(UnreadyKeyboard(s, line), [])
    case Tick(_) => Outcome(s, [])
    case Elsewhere(_, _) => Outcome(s, [])
  }

  ghost function Step<X, T>(m: Moment<X, T>, op: Op<X, T>, config: Config, others: Others<World, X, T>): Moment<X, T>
    requires Shaped(m.world.0.state) && Allowed(m.world.0.state, op)
  {
    match op
    case Tick(n) => After(m, n, Both(Running(config), others))
    case Elsewhere(world, requests) =>
      m.(world := (m.world.0, world), queue := InsertAll(m.queue, m.now, Theirs(requests)))
    case _ =>
      var o := Operated(m.world.0.state, op, config);
      m.(world := (m.world.0.(state := o.state), m.world.1), queue := InsertAll(m.queue, m.now, Mines(o.requests)))
  }

  ghost predicate Good<X, T>(m: Moment<X, T>) { Sorted(m.queue) && GoodView(Own(m)) }

  // The controller joins a clock that others may be using already.
  ghost function Beginning<X, T>(now: int, queue: seq<Entry<T>>, x: X, config: Config,
          inputs: nat -> Input): Moment<X, T> {
    Agenda.Moment(now, InsertAll(OnlyTheirs(queue), now, Mines(Start(config).requests)),
                  (World(Start(config).state, inputs, 0), x))
  }

  lemma BeginningIsGood<X, T>(now: int, queue: seq<Entry<T>>, x: X, config: Config, inputs: nat -> Input)
    requires Sorted(queue)
    ensures Good(Beginning(now, queue, x, config, inputs))
  {
    var q: seq<Entry<Shared<Task, T>>> := OnlyTheirs(queue);
    var reqs := Start(config).requests;
    StartKeeps(config);
    NoneOwn<Task, T>(queue);
    InsertAllKeepsSorted(q, now, Mines<Task, T>(reqs));
    OwnInsertAll<Task, T>(q, now, reqs);
    HeldInsertAll([], now, reqs);
    assert multiset{} + TasksOf(reqs) == TasksOf(reqs);
  }

  lemma OperationKeeps<X, T>(s: State, held: multiset<Task>, op: Op<X, T>, config: Config)
    requires Inv(s, held) && Allowed(s, op)
    ensures var o := Operated(s, op, config);
            Inv(o.state, held + TasksOf(o.requests))
  {
    hide Connect, Remove, UnreadyDisplay, UnreadyKeyboard, LinesOk, TasksOk;
    assert held + multiset{} == held;
    match op
    case Connecting(fd, line, prepared) => ConnectKeeps(s, held, fd, line, prepared);
    case Removing(line) => RemoveKeeps(s, held, line);
    case Writing(line) => UnreadyDisplayKeeps(s, held, line, config);
    case Reading(line) => UnreadyKeyboardKeeps(s, held, line);
    case Tick(_) =>
    case Elsewhere(_, _) =>
  }

  lemma StepKeeps<X, T>(m: Moment<X, T>, op: Op<X, T>, config: Config, others: Others<World, X, T>)
    requires Good(m) && Allowed(m.world.0.state, op)
    ensures Good(Step(m, op, config, others))
  {
    hide Operated, Held, OwnEntries, InsertAll, TasksOk, After, Running;
    var s := m.world.0.state;
    match op
    case Tick(n) =>
      AfterOwn(m, n, Running(config), others);
      TickKeeps(Own(m), n, config);
    case Elsewhere(world, requests) =>
      InsertAllKeepsSorted(m.queue, m.now, Theirs<Task, T>(requests));
      OwnInsertTheirs<Task, T>(m.queue, m.now, requests);
    case _ =>
      var o := Operated(s, op, config);
      OperationKeeps(s, Held(Own(m).queue), op, config);
      InsertAllKeepsSorted(m.queue, m.now, Mines<Task, T>(o.requests));
      OwnInsertAll<Task, T>(m.queue, m.now, o.requests);
      HeldInsertAll(Own(m).queue, m.now, o.requests);
  }

  lemma TickKeeps(v: View, n: Nanos, config: Config)
    requires GoodView(v)
    ensures GoodView(After(v, n, Running(config)))
  {
    hide Advance, LinesOk, TasksOk;
    AdvanceKeeps(Agenda.Moment(v.now + n, v.queue, v.world), config);
  }

  // The moments that a run can reach.
  ghost predicate Reaches<X, T>(m: Moment<X, T>, ops: seq<Op<X, T>>, config: Config, others: Others<World, X, T>,
                                end: Moment<X, T>)
    requires Shaped(m.world.0.state)
    decreases |ops|
  {
    if ops == [] then m == end
    else
      Allowed(m.world.0.state, ops[0]) && Shaped(Step(m, ops[0], config, others).world.0.state)
      && Reaches(Step(m, ops[0], config, others), ops[1..], config, others, end)
  }

  lemma {:induction false} RunsAreGood<X, T>(m: Moment<X, T>, ops: seq<Op<X, T>>, config: Config,
                                             others: Others<World, X, T>, end: Moment<X, T>)
    requires Good(m) && Reaches(m, ops, config, others, end)
    ensures Good(end)
    decreases |ops|
  {
    if ops != [] {
      hide Step, Good, Allowed;
      StepKeeps(m, ops[0], config, others);
      RunsAreGood(Step(m, ops[0], config, others), ops[1..], config, others, end);
    }
  }

  // A live task: pending on the clock, once, and not cancelled.
  ghost predicate Live<X, T>(m: Moment<X, T>, t: Task) {
    Held(OwnEntries(m.queue))[t] == 1 && t.id in m.world.0.state.needed
  }

  // On every connected line, at every moment of every run: the keyboard is ready exactly
  // when a repoll of it is live, which is when it is not waited for; the display is
  // unready exactly when a delay of it is live; no line has two live tasks of a kind;
  // exactly one keyboard poll is live; and no assertion of the controller has failed.
  lemma LinesFollowTheirTasks<X, T>(now: int, queue: seq<Entry<T>>, x: X, config: Config, inputs: nat -> Input,
                                    ops: seq<Op<X, T>>, others: Others<World, X, T>, end: Moment<X, T>)
    requires Sorted(queue) && Reaches(Beginning(now, queue, x, config, inputs), ops, config, others, end)
    ensures var s := end.world.0.state;
            && Shaped(s) && !s.failed
            && (forall i :: 0 <= i < MAX_TERMINALS && Connected(s, i) ==> LineFollows(end, i))
    ensures forall t, u :: Live(end, t) && Live(end, u) && SameKind(t, u) ==> t == u
    ensures exists id :: Live(end, Poll(id))
  {
    BeginningIsGood(now, queue, x, config, inputs);
    RunsAreGood(Beginning(now, queue, x, config, inputs), ops, config, others, end);
    hide OwnEntries, Held, Reaches, Beginning;
    var s, held := end.world.0.state, Held(Own(end).queue);
    forall t ensures Live(end, t) <==> Expected(s, t) {
      assert t in held <==> held[t] > 0;
    }
    assert Live(end, Poll(s.poll));
    forall i | 0 <= i < MAX_TERMINALS && Connected(s, i)
      ensures LineFollows(end, i)
    {
      assert LineOk(s.lines[i], s.unready, s.maxFd);
      if s.lines[i].keyboardReady { assert Live(end, Repoll(s.lines[i].repoll, i)); }
      if !s.lines[i].displayReady { assert Live(end, Delay(s.lines[i].delay, i)); }
    }
  }

  ghost predicate LineFollows<X, T>(m: Moment<X, T>, i: int)
    requires Shaped(m.world.0.state) && InRange(i)
  {
    var l := m.world.0.state.lines[i];
    && (l.keyboardReady <==> exists id :: Live(m, Repoll(id, i)))
    && (l.keyboardReady <==> l.fd !in m.world.0.state.unready)
    && (!l.displayReady <==> exists id :: Live(m, Delay(id, i)))
  }

  predicate SameKind(t: Task, u: Task) {
    match t
    case Poll(_) => u.Poll?
    case Repoll(_, line) => u.Repoll? && u.line == line
    case Delay(_, line) => u.Delay? && u.line == line
  }
}
