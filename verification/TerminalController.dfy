/** The terminal controller as the program keeps it: an array of lines, updated in place.
    Each method returns what it asks the clock for. */
module TerminalControllers {
  import opened Agenda
  import opened Terminal

  lemma {:induction false} LargestFd(lines: seq<Line>, n: int)
    requires 0 <= n < |lines|
    ensures var m, fd := MaxFd(lines[..n]), lines[n].fd;
            MaxFd(lines[..n + 1]) == (if fd != -1 && fd + 1 > m then fd + 1 else m)
  {
    assert lines[..n + 1][..n] == lines[..n];
  }

  // The outcome of a poll that has got as far as line i, with the requests made so far.
  function PolledTo(done: seq<Request<Task>>, s: State, i: int, readable: set<int>, input: Input,
          config: Config): Outcome
    requires Shaped(s) && 0 <= i <= MAX_TERMINALS
  {
    var rest := PollLines(s, i, readable, input, config);
    Outcome(rest.state, done + rest.requests)
  }

  // A line that has data becomes ready.
  function Polled(s: State, i: int, input: Input): State
    requires Shaped(s) && InRange(i)
  {
    var t := Asserting(s, s.lines[i].repoll == NULL && !s.lines[i].keyboardReady);
    ReadyKeyboard(WithRepoll(t, i), i, input.key(i))
  }

  lemma PollStep(done: seq<Request<Task>>, s: State, i: int, readable: set<int>, input: Input, config: Config)
    requires Shaped(s) && 0 <= i < MAX_TERMINALS
    ensures var l := s.lines[i];
            var next := if l.fd == -1 || l.fd !in readable then PolledTo(done, s, i + 1, readable, input, config)
                        else PolledTo(done + [Request(Repoll(s.nextId, i), config.repoll)],
                                      Polled(s, i, input), i + 1, readable, input, config);
            PolledTo(done, s, i, readable, input, config) == next
  {
    var l := s.lines[i];
    if l.fd != -1 && l.fd in readable {
      var u := Polled(s, i, input);
      var r, rest := Request(Repoll(s.nextId, i), config.repoll), PollLines(u, i + 1, readable, input, config);
      assert done + ([r] + rest.requests) == (done + [r]) + rest.requests;
    }
  }

  lemma PollEnd(done: seq<Request<Task>>, s: State, readable: set<int>, input: Input, config: Config)
    requires Shaped(s)
    ensures PolledTo(done, s, MAX_TERMINALS, readable, input, config) == Outcome(s, done)
  {
    assert done + [] == done;
  }

  class TerminalController {
    const config: Config
    const lines: array<Line>
    var unready: set<int>
    var maxFd: int
    var poll: int
    var nextId: int
    // The tasks that have not been cancelled.
    var needed: set<int>
    // Whether an assertion has failed.
    var failed: bool

    ghost predicate Valid()
      reads this
    {
      lines.Length == MAX_TERMINALS
    }

    ghost function View(): (s: State)
      requires Valid()
      reads this, lines
      ensures Shaped(s)
    {
      State(lines[..], unready, maxFd, poll, nextId, needed, failed)
    }

    constructor (config: Config)
      ensures Valid() && fresh(lines) && this.config == config
      ensures View() == Start(config).state
    {
      this.config := config;
      lines := new Line[MAX_TERMINALS](i => Line(-1, NULL, NULL, 0, false, true));
      unready, maxFd, poll, nextId, needed, failed := {}, -1, 0, 1, {0}, false;
    }

    predicate LineConnected(line: int)
      requires Valid()
      reads this, lines
    {
      InRange(line) && lines[line].fd != -1
    }

    method Check(c: bool)
      requires Valid()
      modifies this`failed
      ensures View() == Asserting(old(View()), c)
    {
      if !c {
        failed := true;
      }
    }

    // A new task object.
    method NewTask() returns (id: int)
      requires Valid()
      modifies this`nextId, this`needed
      ensures id == old(nextId) && View() == Fresh(old(View()))
    {
      id := nextId;
      needed := needed + {id};
      nextId := nextId + 1;
    }

    method ConnectTerminal(fd: int, line: int, prepared: bool) returns (connected: bool)
      requires Valid() && InRange(line)
      modifies this, lines
      ensures View() == Connect(old(View()), fd, line, prepared)
      ensures connected <==> prepared && !Connected(old(View()), line)
    {
      if LineConnected(line) {
        return false;
      }
      Check(lines[line].repoll == NULL && lines[line].delay == NULL);
      if !prepared {
        return false;
      }
      lines[line] := lines[line].(fd := fd, key := 0, keyboardReady := false, displayReady := true);
      unready := unready + {fd};
      if fd + 1 > maxFd {
        maxFd := fd + 1;
      }
      return true;
    }

    method RemoveTerminal(line: int)
      requires Valid()
      modifies this, lines
      ensures View() == Remove(old(View()), line)
    {
      if !InRange(line) {
        failed := true;
        return;
      }
      var l := lines[line];
      if l.fd == -1 {
        Check(l.repoll == NULL && l.delay == NULL);
        return;
      }
      unready := unready - {l.fd};
      if l.repoll != NULL {
        needed := needed - {l.repoll};
      }
      if l.delay != NULL {
        needed := needed - {l.delay};
      }
      lines[line] := l.(fd := -1, repoll := NULL, delay := NULL);
      RecomputeMaxFd();
    }

    method RecomputeMaxFd()
      requires Valid()
      modifies this`maxFd
      ensures View() == old(View()).(maxFd := MaxFd(lines[..]))
    {
      maxFd := -1;
      for i := 0 to MAX_TERMINALS
        invariant maxFd == (if MaxFd(lines[..i]) == -1 then -1 else MaxFd(lines[..i]) - 1)
        invariant MaxFd(lines[..i]) == -1 || MaxFd(lines[..i]) >= 1
      {
        LargestFd(lines[..], i);
        assert lines[..][..i] == lines[..i] && lines[..][..i + 1] == lines[..i + 1];
        if lines[i].fd > maxFd {
          maxFd := lines[i].fd;
        }
      }
      assert lines[..MAX_TERMINALS] == lines[..];
      if maxFd != -1 {
        maxFd := maxFd + 1;
      }
    }

    method ReadyDisplay(line: int)
      requires Valid()
      modifies this, lines
      ensures View() == Terminal.ReadyDisplay(old(View()), line)
    {
      if !LineConnected(line) {
        failed := true;
        return;
      }
      Check(!lines[line].displayReady && lines[line].delay != NULL);
      lines[line] := lines[line].(delay := NULL, displayReady := true);
    }

    method UnreadyDisplay(line: int) returns (requests: seq<Request<Task>>)
      requires Valid()
      modifies this, lines
      ensures Outcome(View(), requests) == Terminal.UnreadyDisplay(old(View()), line, config)
    {
      if !LineConnected(line) {
        failed := true;
        return [];
      }
      if !lines[line].displayReady {
        return [];
      }
      Check(lines[line].delay == NULL);
      var id := NewTask();
      lines[line] := lines[line].(delay := id, displayReady := false);
      return [Request(Delay(id, line), config.delay)];
    }

    method UnreadyKeyboard(line: int)
      requires Valid()
      modifies this, lines
      ensures View() == Terminal.UnreadyKeyboard(old(View()), line)
    {
      if !LineConnected(line) {
        failed := true;
        return;
      }
      Check(lines[line].keyboardReady && lines[line].repoll != NULL);
      unready := unready + {lines[line].fd};
      needed := needed - {lines[line].repoll};
      lines[line] := lines[line].(repoll := NULL, keyboardReady := false);
    }

    method ReadyKeyboard(line: int, key: int)
      requires Valid()
      modifies this, lines
      ensures View() == Terminal.ReadyKeyboard(old(View()), line, key)
    {
      if !LineConnected(line) {
        failed := true;
        return;
      }
      unready := unready - {lines[line].fd};
      lines[line] := lines[line].(keyboardReady := true, key := Delivered(key));
    }

    // Schedule the next look at a line whose keyboard is ready.
    method ScheduleRepoll(line: int) returns (request: Request<Task>)
      requires Valid() && InRange(line)
      modifies this, lines
      ensures View() == WithRepoll(old(View()), line) && request == Request(Repoll(old(nextId), line), config.repoll)
    {
      var id := NewTask();
      lines[line] := lines[line].(repoll := id);
      request := Request(Repoll(id, line), config.repoll);
    }

    method RepollKeyboard(line: int, input: Input) returns (requests: seq<Request<Task>>)
      requires Valid()
      modifies this, lines
      ensures Outcome(View(), requests) == Terminal.RepollKeyboard(old(View()), line, input, config)
    {
      if !LineConnected(line) {
        failed := true;
        return [];
      }
      Check(lines[line].keyboardReady);
      ReadyKeyboard(line, input.key(line));
      var r := ScheduleRepoll(line);
      return [r];
    }

    // One line that has data.
    method PollLine(i: int, input: Input) returns (request: Request<Task>)
      requires Valid() && InRange(i) && lines[i].fd != -1
      modifies this, lines
      ensures request == Request(Repoll(old(nextId), i), config.repoll)
      ensures View() == Polled(old(View()), i, input)
    {
      Check(lines[i].repoll == NULL && !lines[i].keyboardReady);
      request := ScheduleRepoll(i);
      ReadyKeyboard(i, input.key(i));
    }

    // Look at every line in turn.
    method PollAll(toRead: set<int>, input: Input) returns (requests: seq<Request<Task>>)
      requires Valid()
      modifies this, lines
      ensures Outcome(View(), requests) == PollLines(old(View()), 0, toRead, input, config)
    {
      hide PollLines, Terminal.ReadyKeyboard, WithRepoll;
      requests := [];
      for i := 0 to MAX_TERMINALS
        invariant PollLines(old(View()), 0, toRead, input, config)
            == PolledTo(requests, View(), i, toRead, input, config)
      {
        PollStep(requests, View(), i, toRead, input, config);
        if lines[i].fd != -1 && lines[i].fd in toRead {
          var r := PollLine(i, input);
          requests := requests + [r];
        }
      }
      PollEnd(requests, View(), toRead, input, config);
    }

    method PollKeyboards(input: Input) returns (requests: seq<Request<Task>>)
      requires Valid()
      modifies this, lines
      ensures Outcome(View(), requests) == Terminal.PollKeyboards(old(View()), input, config)
    {
      hide PollLines;
      poll := NewTask();
      requests := [Request(Poll(poll), config.poll)];
      if maxFd == -1 {
        return;
      }
      var toRead := Selected(State(lines[..], unready, maxFd, poll, nextId, needed, failed), input);
      var rest := PollAll(toRead, input);
      requests := requests + rest;
    }

    // CancelableTask::task for the controller's tasks.
    method RunTask(task: Task, input: Input) returns (requests: seq<Request<Task>>)
      requires Valid()
      modifies this, lines
      ensures Outcome(View(), requests) == Terminal.RunTask(old(View()), task, input, config)
    {
      if task.id !in needed {
        return [];
      }
      match task
      case Poll(_) => requests := PollKeyboards(input);
      case Repoll(_, line) => requests := RepollKeyboard(line, input);
      case Delay(_, line) =>
        ReadyDisplay(line);
        requests := [];
    }
  }
}
