/** The terminal controller as a value: sixteen lines, the tasks it has asked the clock
    for, and what each of its operations does. A failed internal assertion sets failed. */
module Terminal {
  import opened Agenda

  const MAX_TERMINALS := 16
  const NULL := -1

  // A task object has a number; needed says which of them have not been cancelled.
  datatype Task = Poll(id: int) | Repoll(id: int, line: int) | Delay(id: int, line: int)

  datatype Line = Line(fd: int, repoll: int, delay: int, key: int, keyboardReady: bool, displayReady: bool)

  datatype State = State(lines: seq<Line>, unready: set<int>, maxFd: int, poll: int, nextId: int, needed: set<int>,
                         failed: bool)

  datatype Config = Config(poll: Nanos, repoll: Nanos, delay: Nanos)

  // What the host answers: which descriptors have data, and what is read on each line.
  datatype Input = Input(readable: set<int>, key: int -> int)

  predicate Shaped(s: State) { |s.lines| == MAX_TERMINALS }

  predicate InRange(line: int) { 0 <= line < MAX_TERMINALS }

  predicate Connected(s: State, line: int)
    requires Shaped(s)
  {
    InRange(line) && s.lines[line].fd != -1
  }

  function Asserting(s: State, c: bool): State { if c then s else s.(failed := true) }

  function SetLine(s: State, line: int, l: Line): State
    requires Shaped(s) && InRange(line)
  {
    s.(lines := s.lines[line := l])
  }

  // Give out a new task number; the task is needed.
  function Fresh(s: State): State { s.(nextId := s.nextId + 1, needed := s.needed + {s.nextId}) }

  function Cancel(s: State, id: int): State { s.(needed := s.needed - {id}) }

  datatype Outcome = Outcome(state: State, requests: seq<Request<Task>>)

  // One more than the largest descriptor among the first n lines, or -1.
  function MaxFd(lines: seq<Line>): int {
    if lines == [] then -1
    else
      var m, fd := MaxFd(lines[..|lines| - 1]), lines[|lines| - 1].fd;
      if fd != -1 && fd + 1 > m then fd + 1 else m
  }

  function Start(config: Config): Outcome {
    var line := Line(-1, NULL, NULL, 0, false, true);
    Outcome(State(seq(MAX_TERMINALS, i => line), {}, -1, 0, 1, {0}, false), [Request(Poll(0), config.poll)])
  }

  function Connect(s: State, fd: int, line: int, prepared: bool): State
    requires Shaped(s) && InRange(line)
  {
    if Connected(s, line) then s
    else
      var t := Asserting(s, s.lines[line].repoll == NULL && s.lines[line].delay == NULL);
      if !prepared then t
      else
        SetLine(t, line, s.lines[line].(fd := fd, key := 0, keyboardReady := false, displayReady := true))
        .(unready := s.unready + {fd}, maxFd := if fd + 1 > s.maxFd then fd + 1 else s.maxFd)
  }

  function Remove(s: State, line: int): State
    requires Shaped(s)
  {
    if !InRange(line) then Asserting(s, false)
    else
      var l := s.lines[line];
      if l.fd == -1 then Asserting(s, l.repoll == NULL && l.delay == NULL)
      else
        var t := SetLine(s, line, l.(fd := -1, repoll := NULL, delay := NULL));
        var u := if l.repoll != NULL then Cancel(t, l.repoll) else t;
        var v := if l.delay != NULL then Cancel(u, l.delay) else u;
        v.(unready := s.unready - {l.fd}, maxFd := MaxFd(t.lines))
  }

  function ReadyDisplay(s: State, line: int): State
    requires Shaped(s)
  {
    if !Connected(s, line) then Asserting(s, false)
    else
      var l := s.lines[line];
      SetLine(Asserting(s, !l.displayReady && l.delay != NULL), line, l.(delay := NULL, displayReady := true))
  }

  function UnreadyDisplay(s: State, line: int, config: Config): Outcome
    requires Shaped(s)
  {
    if !Connected(s, line) then Outcome(Asserting(s, false), [])
    else
      var l := s.lines[line];
      if !l.displayReady then Outcome(s, [])
      else
        Outcome(SetLine(Fresh(Asserting(s, l.delay == NULL)), line, l.(delay := s.nextId, displayReady := false)),
                [Request(Delay(s.nextId, line), config.delay)])
  }

  function UnreadyKeyboard(s: State, line: int): State
    requires Shaped(s)
  {
    if !Connected(s, line) then Asserting(s, false)
    else
      var l := s.lines[line];
      SetLine(Cancel(Asserting(s, l.keyboardReady && l.repoll != NULL), l.repoll), line,
          l.(repoll := NULL, keyboardReady := false))
      .(unready := s.unready + {l.fd})
  }

  // The attention character is not delivered.
  function Delivered(key: int): int { if key == 0x1f then 0 else key }

  function ReadyKeyboard(s: State, line: int, key: int): State
    requires Shaped(s)
  {
    if !Connected(s, line) then Asserting(s, false)
    else
      var l := s.lines[line];
      SetLine(s, line, l.(keyboardReady := true, key := Delivered(key))).(unready := s.unready - {l.fd})
  }

  function WithRepoll(s: State, line: int): State
    requires Shaped(s) && InRange(line)
  {
    SetLine(Fresh(s), line, s.lines[line].(repoll := s.nextId))
  }

  function RepollKeyboard(s: State, line: int, input: Input, config: Config): Outcome
    requires Shaped(s)
  {
    if !Connected(s, line) then Outcome(Asserting(s, false), [])
    else
      var t := ReadyKeyboard(Asserting(s, s.lines[line].keyboardReady), line, input.key(line));
      Outcome(WithRepoll(t, line), [Request(Repoll(t.nextId, line), config.repoll)])
  }

  // The lines from number i on that have data become ready, and are polled again later.
  function PollLines(s: State, i: int, readable: set<int>, input: Input, config: Config): (r: Outcome)
    requires Shaped(s) && 0 <= i <= MAX_TERMINALS
    ensures Shaped(r.state)
    decreases MAX_TERMINALS - i
  {
    if i == MAX_TERMINALS then Outcome(s, [])
    else
      var l := s.lines[i];
      if l.fd == -1 || l.fd !in readable then PollLines(s, i + 1, readable, input, config)
      else
        var t := Asserting(s, l.repoll == NULL && !l.keyboardReady);
        var u := ReadyKeyboard(WithRepoll(t, i), i, input.key(i));
        var rest := PollLines(u, i + 1, readable, input, config);
        Outcome(rest.state, [Request(Repoll(s.nextId, i), config.repoll)] + rest.requests)
  }

  // What select leaves of the unready descriptors below max_fd.
  function Selected(s: State, input: Input): set<int> {
    set fd | fd in s.unready && fd < s.maxFd && fd in input.readable
  }

  function PollKeyboards(s: State, input: Input, config: Config): Outcome
    requires Shaped(s)
  {
    var t := Fresh(s).(poll := s.nextId);
    var next := Request(Poll(s.nextId), config.poll);
    if s.maxFd == -1 then Outcome(t, [next])
    else
      var r := PollLines(t, 0, Selected(s, input), input, config);
      Outcome(r.state, [next] + r.requests)
  }

  // A task that comes due does nothing if it has been cancelled.
  function RunTask(s: State, task: Task, input: Input, config: Config): Outcome
    requires Shaped(s)
  {
    if task.id !in s.needed then Outcome(s, [])
    else
      match task
      case Poll(_) => PollKeyboards(s, input, config)
      case Repoll(_, line) => RepollKeyboard(s, line, input, config)
      case Delay(_, line) => Outcome(ReadyDisplay(s, line), [])
  }
}
