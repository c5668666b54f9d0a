/** What the terminal controller keeps: the state of each line against its tasks. */
module TerminalInvariant {
  import opened Agenda
  import opened Terminal

  // The task that the controller's pointers mean.
  predicate Expected(s: State, t: Task)
    requires Shaped(s)
  {
    match t
    case Poll(id) => id == s.poll
    case Repoll(id, line) => InRange(line) && id != NULL && s.lines[line].repoll == id
    case Delay(id, line) => InRange(line) && id != NULL && s.lines[line].delay == id
  }

  predicate LineOk(l: Line, unready: set<int>, maxFd: int) {
    if l.fd == -1 then l.repoll == NULL && l.delay == NULL
    else
      && 0 <= l.fd < maxFd
      && (l.keyboardReady <==> l.repoll != NULL) && (l.displayReady <==> l.delay == NULL)
      && (l.fd in unready <==> !l.keyboardReady)
  }

  ghost predicate DistinctFds(lines: seq<Line>) {
    forall i, j :: 0 <= i < j < |lines| && lines[i].fd != -1 ==> lines[i].fd != lines[j].fd
  }

  ghost predicate LinesOk(s: State) {
    && Shaped(s) && !s.failed && DistinctFds(s.lines)
    && (forall i :: 0 <= i < |s.lines| ==> LineOk(s.lines[i], s.unready, s.maxFd))
    && s.maxFd == MaxFd(s.lines)
  }

  datatype Hole = NoHole | TheHole(task: Task)

  // The tasks that the clock holds are each held once; the needed ones are those that the
  // controller means, all of them but the one that is running.
  ghost predicate TasksOk(s: State, held: multiset<Task>, hole: Hole)
    requires Shaped(s)
  {
    && (forall t :: t in held ==> held[t] == 1 && 0 <= t.id < s.nextId && (t.id in s.needed <==> Expected(s, t)))
    && (forall t :: Expected(s, t) && hole != TheHole(t) ==> t in held)
    && (forall t, u :: t in held && u in held && t.id == u.id ==> t == u)
    && (hole.TheHole? ==> Expected(s, hole.task) && 0 <= hole.task.id < s.nextId && hole.task !in held
                          && forall t :: t in held ==> t.id != hole.task.id)
    && 0 <= s.nextId && (forall id :: id in s.needed ==> id < s.nextId)
  }

  ghost predicate Inv(s: State, held: multiset<Task>) {
    LinesOk(s) && TasksOk(s, held, NoHole)
  }

  // The clock takes a needed task off its list to run it.
  lemma Taken(s: State, held: multiset<Task>, t: Task)
    requires Shaped(s) && TasksOk(s, held, NoHole) && t in held && t.id in s.needed
    ensures TasksOk(s, held - multiset{t}, TheHole(t))
  {
  }

  lemma TakenIdly(s: State, held: multiset<Task>, t: Task)
    requires Shaped(s) && TasksOk(s, held, NoHole) && t in held && t.id !in s.needed
    ensures TasksOk(s, held - multiset{t}, NoHole)
  {
  }

  // A new task takes the place of the one that is running, or of none.
  lemma Scheduled(s: State, held: multiset<Task>, hole: Hole, t: Task, s': State)
    requires Shaped(s) && Shaped(s') && TasksOk(s, held, hole) && t.id == s.nextId
    requires forall u :: Expected(s', u) <==> u == t || (Expected(s, u) && hole != TheHole(u))
    requires s'.needed == s.needed + {s.nextId} && s'.nextId == s.nextId + 1
    ensures TasksOk(s', held + multiset{t}, NoHole)
  {
  }

  // A task is cancelled and forgotten.
  lemma Cancelled(s: State, held: multiset<Task>, t: Task, s': State)
    requires Shaped(s) && Shaped(s') && TasksOk(s, held, NoHole) && Expected(s, t)
    requires forall u :: Expected(s', u) <==> Expected(s, u) && u != t
    requires s'.needed == s.needed - {t.id} && s'.nextId == s.nextId
    ensures TasksOk(s', held, NoHole)
  {
  }

  // The running task is forgotten.
  lemma Finished(s: State, held: multiset<Task>, t: Task, s': State)
    requires Shaped(s) && Shaped(s') && TasksOk(s, held, TheHole(t))
    requires forall u :: Expected(s', u) <==> Expected(s, u) && u != t
    requires s'.needed == s.needed && s'.nextId == s.nextId
    ensures TasksOk(s', held, NoHole)
  {
  }

  // Only the pointers and the needed marks matter to the tasks.
  lemma SameTasks(s: State, s': State, held: multiset<Task>, hole: Hole)
    requires Shaped(s) && Shaped(s') && TasksOk(s, held, hole)
    requires s'.poll == s.poll && s'.nextId == s.nextId && s'.needed == s.needed
    requires forall i :: 0 <= i < MAX_TERMINALS ==> s'.lines[i].repoll == s.lines[i].repoll
    requires forall i :: 0 <= i < MAX_TERMINALS ==> s'.lines[i].delay == s.lines[i].delay
    ensures TasksOk(s', held, hole)
  {
    assert forall t :: Expected(s', t) <==> Expected(s, t);
  }

  lemma {:induction false} MaxFdOf(lines: seq<Line>, i: int)
    requires 0 <= i < |lines| && lines[i].fd != -1
    ensures lines[i].fd < MaxFd(lines)
  {
    if i < |lines| - 1 {
      assert lines[..|lines| - 1][i] == lines[i];
      MaxFdOf(lines[..|lines| - 1], i);
    }
  }

  lemma {:induction false} MaxFdConnect(lines: seq<Line>, i: int, l: Line)
    requires 0 <= i < |lines| && lines[i].fd == -1 && 0 <= l.fd
    ensures MaxFd(lines[i := l]) == if l.fd + 1 > MaxFd(lines) then l.fd + 1 else MaxFd(lines)
  {
    var n := |lines| - 1;
    if i == n {
      assert lines[i := l][..n] == lines[..n];
    } else {
      assert lines[i := l][..n] == lines[..n][i := l];
      MaxFdConnect(lines[..n], i, l);
    }
  }

  lemma {:induction false} MaxFdSame(lines: seq<Line>, i: int, l: Line)
    requires 0 <= i < |lines| && lines[i].fd == l.fd
    ensures MaxFd(lines[i := l]) == MaxFd(lines)
  {
    var n := |lines| - 1;
    if i == n {
      assert lines[i := l][..n] == lines[..n];
    } else {
      assert lines[i := l][..n] == lines[..n][i := l];
      MaxFdSame(lines[..n], i, l);
    }
  }

  ghost predicate NewFd(s: State, fd: int)
    requires Shaped(s)
  {
    0 <= fd && forall i :: 0 <= i < MAX_TERMINALS ==> s.lines[i].fd != fd
  }

  // A line that keeps its descriptor and goes on agreeing with its tasks.
  lemma LineChanged(s: State, line: int, l: Line, unready: set<int>, s': State)
    requires LinesOk(s) && InRange(line) && l.fd == s.lines[line].fd != -1
    requires LineOk(l, unready, s.maxFd)
    requires forall fd :: fd != l.fd ==> (fd in unready <==> fd in s.unready)
    requires Shaped(s') && s'.lines == s.lines[line := l] && s'.unready == unready && s'.maxFd == s.maxFd && !s'.failed
    ensures LinesOk(s')
  {
    MaxFdSame(s.lines, line, l);
  }

  lemma ConnectKeeps(s: State, held: multiset<Task>, fd: int, line: int, prepared: bool)
    requires Inv(s, held) && InRange(line) && NewFd(s, fd)
    ensures Inv(Connect(s, fd, line, prepared), held)
  {
    var s' := Connect(s, fd, line, prepared);
    if !Connected(s, line) && prepared {
      MaxFdConnect(s.lines, line, s'.lines[line]);
      forall i | 0 <= i < MAX_TERMINALS && i != line ensures LineOk(s'.lines[i], s'.unready, s'.maxFd) {
        assert LineOk(s.lines[i], s.unready, s.maxFd);
      }
    }
    assert LineOk(s.lines[line], s.unready, s.maxFd);
    SameTasks(s, s', held, NoHole);
  }

  // Cancelling both tasks of a line.
  function WithoutRepoll(s: State, line: int): State
    requires Shaped(s) && InRange(line)
  {
    var l := s.lines[line];
    if l.repoll == NULL then s else Cancel(SetLine(s, line, l.(repoll := NULL)), l.repoll)
  }

  function WithoutDelay(s: State, line: int): State
    requires Shaped(s) && InRange(line)
  {
    var l := s.lines[line];
    if l.delay == NULL then s else Cancel(SetLine(s, line, l.(delay := NULL)), l.delay)
  }

  lemma WithoutKeeps(s: State, held: multiset<Task>, line: int)
    requires Shaped(s) && InRange(line) && TasksOk(s, held, NoHole)
    ensures TasksOk(WithoutRepoll(s, line), held, NoHole)
    ensures TasksOk(WithoutDelay(s, line), held, NoHole)
  {
    var l := s.lines[line];
    if l.repoll != NULL { Cancelled(s, held, Repoll(l.repoll, line), WithoutRepoll(s, line)); }
    if l.delay != NULL { Cancelled(s, held, Delay(l.delay, line), WithoutDelay(s, line)); }
  }

  lemma RemovedLines(s: State, line: int)
    requires LinesOk(s) && InRange(line) && s.lines[line].fd != -1
    ensures LinesOk(Remove(s, line))
  {
    var s' := Remove(s, line);
    forall i | 0 <= i < MAX_TERMINALS ensures LineOk(s'.lines[i], s'.unready, s'.maxFd) {
      assert LineOk(s.lines[i], s.unready, s.maxFd);
      if i != line && s'.lines[i].fd != -1 { MaxFdOf(s'.lines, i); }
    }
  }

  lemma RemoveKeeps(s: State, held: multiset<Task>, line: int)
    requires Inv(s, held) && InRange(line)
    ensures Inv(Remove(s, line), held)
  {
    assert LineOk(s.lines[line], s.unready, s.maxFd);
    if s.lines[line].fd != -1 {
      RemovedLines(s, line);
      WithoutKeeps(s, held, line);
      WithoutKeeps(WithoutRepoll(s, line), held, line);
      SameTasks(WithoutDelay(WithoutRepoll(s, line), line), Remove(s, line), held, NoHole);
    }
  }

  lemma ReadyDisplayKeeps(s: State, held: multiset<Task>, id: int, line: int)
    requires LinesOk(s) && TasksOk(s, held, TheHole(Delay(id, line)))
    ensures Inv(ReadyDisplay(s, line), held)
  {
    var l := s.lines[line];
    assert LineOk(l, s.unready, s.maxFd);
    LineChanged(s, line, l.(delay := NULL, displayReady := true), s.unready, ReadyDisplay(s, line));
    Finished(s, held, Delay(id, line), ReadyDisplay(s, line));
  }

  function TasksOf(reqs: seq<Request<Task>>): multiset<Task> {
    if reqs == [] then multiset{} else multiset{reqs[0].task} + TasksOf(reqs[1..])
  }

  lemma UnreadyDisplayKeeps(s: State, held: multiset<Task>, line: int, config: Config)
    requires Inv(s, held) && Connected(s, line)
    ensures var o := UnreadyDisplay(s, line, config);
            Inv(o.state, held + TasksOf(o.requests))
  {
    var l, o := s.lines[line], UnreadyDisplay(s, line, config);
    assert LineOk(l, s.unready, s.maxFd);
    if l.displayReady {
      LineChanged(s, line, l.(delay := s.nextId, displayReady := false), s.unready, o.state);
      Scheduled(s, held, NoHole, Delay(s.nextId, line), o.state);
    }
  }

  lemma UnreadyKeyboardKeeps(s: State, held: multiset<Task>, line: int)
    requires Inv(s, held) && Connected(s, line) && s.lines[line].keyboardReady
    ensures Inv(UnreadyKeyboard(s, line), held)
  {
    var l, s' := s.lines[line], UnreadyKeyboard(s, line);
    assert LineOk(l, s.unready, s.maxFd);
    LineChanged(s, line, l.(repoll := NULL, keyboardReady := false), s.unready + {l.fd}, s');
    Cancelled(s, held, Repoll(l.repoll, line), s');
  }

  lemma RepollKeeps(s: State, held: multiset<Task>, id: int, line: int, input: Input, config: Config)
    requires LinesOk(s) && TasksOk(s, held, TheHole(Repoll(id, line)))
    ensures var o := RepollKeyboard(s, line, input, config);
            Inv(o.state, held + TasksOf(o.requests))
  {
    var l, o := s.lines[line], RepollKeyboard(s, line, input, config);
    assert LineOk(l, s.unready, s.maxFd);
    LineChanged(s, line, l.(keyboardReady := true, key := Delivered(input.key(line)), repoll := s.nextId),
        s.unready - {l.fd}, o.state);
    Scheduled(s, held, TheHole(Repoll(id, line)), Repoll(s.nextId, line), o.state);
  }

  // Polling: every readable line not yet visited is unready.
  ghost predicate ReadableUnready(s: State, i: int, readable: set<int>)
    requires Shaped(s)
  {
    forall j :: 0 <= i <= j < MAX_TERMINALS && s.lines[j].fd != -1 && s.lines[j].fd in readable
        ==> s.lines[j].fd in s.unready
  }

  // One line of the poll.
  lemma PollLineKeeps(s: State, held: multiset<Task>, i: int, readable: set<int>, input: Input)
    requires Inv(s, held) && 0 <= i < MAX_TERMINALS && ReadableUnready(s, i, readable)
    requires Shaped(s) && s.lines[i].fd != -1 && s.lines[i].fd in readable
    ensures s.lines[i].repoll == NULL && !s.lines[i].keyboardReady
    ensures var u := ReadyKeyboard(WithRepoll(s, i), i, input.key(i));
            Inv(u, held + multiset{Repoll(s.nextId, i)}) && ReadableUnready(u, i + 1, readable)
  {
    var l, u := s.lines[i], ReadyKeyboard(WithRepoll(s, i), i, input.key(i));
    assert LineOk(l, s.unready, s.maxFd);
    LineChanged(s, i, l.(keyboardReady := true, key := Delivered(input.key(i)), repoll := s.nextId),
        s.unready - {l.fd}, u);
    Scheduled(s, held, NoHole, Repoll(s.nextId, i), u);
  }

  lemma TasksOfCons(r: Request<Task>, rest: seq<Request<Task>>)
    ensures TasksOf([r] + rest) == multiset{r.task} + TasksOf(rest)
  {
    assert ([r] + rest)[1..] == rest;
  }

  lemma AddingAssociates(a: multiset<Task>, b: multiset<Task>, c: multiset<Task>)
    ensures a + b + c == a + (b + c)
  {
  }

  lemma {:induction false} PollLinesKeeps(s: State, held: multiset<Task>, i: int, readable: set<int>, input: Input,
          config: Config)
    requires Inv(s, held) && 0 <= i <= MAX_TERMINALS && ReadableUnready(s, i, readable)
    ensures var o := PollLines(s, i, readable, input, config);
            Inv(o.state, held + TasksOf(o.requests))
    decreases MAX_TERMINALS - i
  {
    if i == MAX_TERMINALS {
    } else if s.lines[i].fd == -1 || s.lines[i].fd !in readable {
      PollLinesKeeps(s, held, i + 1, readable, input, config);
    } else {
      PollLineKeeps(s, held, i, readable, input);
      var u := ReadyKeyboard(WithRepoll(s, i), i, input.key(i));
      var t := Repoll(s.nextId, i);
      PollLinesKeeps(u, held + multiset{t}, i + 1, readable, input, config);
      var rest := PollLines(u, i + 1, readable, input, config);
      TasksOfCons(Request(t, config.repoll), rest.requests);
      AddingAssociates(held, multiset{t}, TasksOf(rest.requests));
    }
  }

  lemma PollKeeps(s: State, held: multiset<Task>, id: int, input: Input, config: Config)
    requires LinesOk(s) && TasksOk(s, held, TheHole(Poll(id)))
    ensures var o := PollKeyboards(s, input, config);
            Inv(o.state, held + TasksOf(o.requests))
  {
    var t, p := Fresh(s).(poll := s.nextId), Poll(s.nextId);
    Scheduled(s, held, TheHole(Poll(id)), p, t);
    var o := PollKeyboards(s, input, config);
    if s.maxFd != -1 {
      var r := PollLines(t, 0, Selected(s, input), input, config);
      PollLinesKeeps(t, held + multiset{p}, 0, Selected(s, input), input, config);
      TasksOfCons(Request(p, config.poll), r.requests);
      assert held + multiset{p} + TasksOf(r.requests) == held + TasksOf(o.requests);
    } else {
      TasksOfCons(Request(p, config.poll), []);
      assert held + TasksOf(o.requests) == held + multiset{p};
    }
  }

  // Whatever task the clock runs, nothing is lost and no assertion fails.
  lemma RunKeeps(s: State, held: multiset<Task>, task: Task, input: Input, config: Config)
    requires Inv(s, held) && task in held
    ensures var o := RunTask(s, task, input, config);
            Inv(o.state, held - multiset{task} + TasksOf(o.requests))
  {
    var rest, o := held - multiset{task}, RunTask(s, task, input, config);
    if task.id !in s.needed {
      TakenIdly(s, held, task);
      assert rest + multiset{} == rest;
    } else {
      Taken(s, held, task);
      match task
      case Poll(id) => PollKeeps(s, rest, id, input, config);
      case Repoll(id, line) => RepollKeeps(s, rest, id, line, input, config);
      case Delay(id, line) =>
        ReadyDisplayKeeps(s, rest, id, line);
        assert rest + multiset{} == rest;
    }
  }

  lemma StartKeeps(config: Config)
    ensures Inv(Start(config).state, TasksOf(Start(config).requests))
  {
    var s := Start(config).state;
    NoFds(s.lines);
    TasksOfCons(Request(Poll(0), config.poll), []);
    assert TasksOf(Start(config).requests) == multiset{Poll(0)};
  }

  lemma {:induction false} NoFds(lines: seq<Line>)
    requires forall i :: 0 <= i < |lines| ==> lines[i].fd == -1
    ensures MaxFd(lines) == -1
  {
    if lines != [] {
      NoFds(lines[..|lines| - 1]);
    }
  }

  // What the controller's callers owe it, exactly: an operation fails an assertion if and
  // only if the line is not connected, or its keyboard is not ready to be read.
  lemma FailsExactly(s: State, held: multiset<Task>, line: int, config: Config)
    requires Inv(s, held)
    ensures UnreadyKeyboard(s, line).failed <==> !(Connected(s, line) && s.lines[line].keyboardReady)
    ensures UnreadyDisplay(s, line, config).state.failed <==> !Connected(s, line)
    ensures Remove(s, line).failed <==> !InRange(line)
  {
    if InRange(line) {
      assert LineOk(s.lines[line], s.unready, s.maxFd);
    }
  }
}
