/** The deferred-task clock. Callbacks re-enter AddDeferredTask while the group
    they belong to is still at the front of the list and already overdue. */
module Clocks {
  import opened Agenda
  import opened DeltaList
  import opened Pacing
  import opened Timespecs

  class DeferredTasks<T> {
    var nanosecondsLeft: int
    var tasks: seq<T>

    constructor (nanosecondsLeft: int, task: T)
      requires nanosecondsLeft > 0
      ensures this.nanosecondsLeft == nanosecondsLeft && tasks == [task]
    {
      this.nanosecondsLeft := nanosecondsLeft;
      tasks := [];
      new;
      AddTask(task);
    }

    method AddTask(task: T)
      modifies this`tasks
      ensures tasks == old(tasks) + [task]
    {
      tasks := tasks + [task];
    }

    // The caller runs the tasks when the result is not positive (Clock.RunTasks):
    // the tasks call back into the clock that owns this group.
    method PassTime(nanoseconds: int) returns (left: int)
      requires nanoseconds > 0
      requires nanosecondsLeft > 0
      modifies this`nanosecondsLeft
      ensures left == nanosecondsLeft == old(nanosecondsLeft) - nanoseconds
    {
      nanosecondsLeft := nanosecondsLeft - nanoseconds;
      left := nanosecondsLeft;
    }
  }

  ghost function View<T>(ds: seq<DeferredTasks<T>>): (gs: seq<Group<T>>)
    reads ds
    ensures |gs| == |ds|
    ensures forall i :: 0 <= i < |gs| ==> gs[i] == Group(ds[i].nanosecondsLeft, ds[i].tasks)
  {
    seq(|ds|, i requires 0 <= i < |ds| reads ds => Group(ds[i].nanosecondsLeft, ds[i].tasks))
  }

  lemma ViewInsert<T>(ds: seq<DeferredTasks<T>>, i: nat, d: DeferredTasks<T>)
    requires i <= |ds|
    ensures View(ds[..i] + [d] + ds[i..])
         == View(ds)[..i] + [Group(d.nanosecondsLeft, d.tasks)] + View(ds)[i..]
  {
  }

  class Clock<T> {
    var time: Timespec
    var lastHost: Timespec  // host time at the last PassRealtime; sec == -1 before the first
    var spill: int
    var deferred: seq<DeferredTasks<T>>
    ghost var Repr: set<DeferredTasks<T>>  // every group object the list may hold
    ghost var elapsed: int  // simulated nanoseconds passed; unlike time, no set_time changes it

    ghost function Groups(): seq<Group<T>>
      reads this`deferred, deferred
    {
      View(deferred)
    }

    ghost predicate Listed()
      reads this`deferred, this`Repr
    {
      Distinct(deferred) && forall i :: 0 <= i < |deferred| ==> deferred[i] in Repr
    }

    // Holds at every entry to AddDeferredTask, also from inside a callback.
    ghost predicate Valid()
      reads this`deferred, this`Repr, deferred
    {
      && Listed()
      && TailPositive(Groups())
      && Inhabited(Groups())
    }

    // Holds outside callbacks.
    ghost predicate Settled()
      reads this`deferred, this`Repr, deferred
    {
      Valid() && Positive(Groups())
    }

    // The queue of absolute due times that the delta list stands for.
    ghost function Pending(): seq<Entry<T>>
      reads this`elapsed, this`deferred, deferred
    {
      Flatten(elapsed, Groups())
    }

    ghost function Now<W>(w: W): Moment<W, T>
      reads this`elapsed, this`deferred, deferred
    {
      Moment(elapsed, Pending(), w)
    }

    constructor (startTime: Timespec)
      requires startTime.sec >= 0 && startTime.nsec >= 0
      ensures Settled() && Pending() == [] && deferred == [] && Repr == {}
      ensures time == startTime && lastHost == Timespec(-1, 0) && spill == 0
    {
      time, spill, lastHost := startTime, 0, Timespec(-1, 0);
      deferred, Repr, elapsed := [], {}, 0;
    }

    method SetTime(newTime: Timespec)
      requires newTime.sec >= 0 && newTime.nsec >= 0
      modifies this`time
      ensures time == newTime
    {
      time := newTime;
    }

    method AddDeferredTask(task: T, delay: int)
      requires Valid()
      requires delay > 0
      modifies this`deferred, this`Repr, Repr
      ensures Valid()
      ensures old(Settled()) ==> Settled()
      ensures fresh(Repr - old(Repr))
      ensures Pending() == Insert(old(Pending()), Entry(elapsed + delay, task))
      ensures Groups() == AddAt(old(Groups()), task, delay)
      ensures old(deferred) != [] && old(deferred[0].nanosecondsLeft) <= 0 ==>
                deferred != [] && deferred[0] == old(deferred[0])
    {
      AddAtKeepsShape(Groups(), task, delay);
      AddAtIsInsert(elapsed, Groups(), task, delay);
      AddFromStart(Groups(), task, delay);
      Splice(task, delay);
    }

    // The search for the place, and the splice.
    method Splice(task: T, delay: int)
      requires Listed()
      requires delay > 0
      modifies this`deferred, this`Repr, Repr
      ensures Listed()
      ensures fresh(Repr - old(Repr))
      ensures Groups() == AddFrom(old(Groups()), 0, task, delay)
      ensures old(deferred) != [] && old(deferred[0].nanosecondsLeft) <= 0 ==>
                deferred != [] && deferred[0] == old(deferred[0])
    {
      ghost var gs := Groups();
      var nanoseconds, waitTime, i := delay, delay, 0;
      while i < |deferred|
        invariant 0 <= i <= |deferred|
        invariant deferred == old(deferred) && Repr == old(Repr) && Groups() == gs
        invariant nanoseconds > 0
        invariant AddFrom(gs, 0, task, delay) == AddFrom(gs, i, task, nanoseconds)
      {
        waitTime := nanoseconds;
        nanoseconds := nanoseconds - deferred[i].nanosecondsLeft;
        if nanoseconds < 0 {
          InsertGroup(i, waitTime, task);
          return;
        } else if nanoseconds == 0 {
          AddToGroup(i, task);
          return;
        }
        i := i + 1;
      }
      InsertNew(i, nanoseconds, task);
    }

    // A new group in front of group i, which now waits that much less.
    method InsertGroup(i: nat, waitTime: int, task: T)
      requires Listed()
      requires i < |deferred| && 0 < waitTime < deferred[i].nanosecondsLeft
      modifies this`deferred, this`Repr, deferred[i]
      ensures Listed()
      ensures fresh(Repr - old(Repr))
      ensures i > 0 ==> deferred != [] && deferred[0] == old(deferred[0])
      ensures Groups() == Wedged(old(Groups()), i, waitTime, task)
    {
      ghost var next := deferred[i];
      InsertNew(i, waitTime, task);
      assert deferred[i + 1] == next;
      var left := PassGroup(i + 1, waitTime);
      assert left > 0;  // so this PassTime never runs a task
    }

    method AddToGroup(i: nat, task: T)
      requires Listed() && i < |deferred|
      modifies deferred[i]
      ensures Groups() == old(Groups())[i := Group(deferred[i].nanosecondsLeft, old(deferred[i].tasks) + [task])]
      ensures deferred[i].nanosecondsLeft == old(deferred[i].nanosecondsLeft)
    {
      deferred[i].AddTask(task);
    }

    method InsertNew(i: nat, nanoseconds: int, task: T)
      requires Listed()
      requires i <= |deferred| && nanoseconds > 0
      modifies this`deferred, this`Repr
      ensures Listed() && fresh(Repr - old(Repr))
      ensures |deferred| == |old(deferred)| + 1 && fresh(deferred[i])
      ensures forall k :: 0 <= k < i ==> deferred[k] == old(deferred)[k]
      ensures forall k :: i < k < |deferred| ==> deferred[k] == old(deferred)[k - 1]
      ensures Groups() == WithGroup(old(Groups()), i, nanoseconds, task)
    {
      var tasks := new DeferredTasks(nanoseconds, task);
      InsertInList(i, tasks);
    }

    method InsertInList(i: nat, tasks: DeferredTasks<T>)
      requires Listed() && tasks !in Repr
      requires i <= |deferred|
      modifies this`deferred, this`Repr
      ensures Listed() && Repr == old(Repr) + {tasks}
      ensures deferred == old(deferred[..i] + [tasks] + deferred[i..])
      ensures Groups() == old(Groups()[..i] + [Group(tasks.nanosecondsLeft, tasks.tasks)] + Groups()[i..])
    {
      InsertDistinct(deferred, i, tasks);
      ViewInsert(deferred, i, tasks);
      deferred, Repr := deferred[..i] + [tasks] + deferred[i..], Repr + {tasks};
    }

    method PassGroup(i: nat, nanoseconds: int) returns (left: int)
      requires Listed()
      requires i < |deferred| && deferred[i].nanosecondsLeft > 0 && nanoseconds > 0
      modifies deferred[i]
      ensures left == deferred[i].nanosecondsLeft == old(deferred[i].nanosecondsLeft) - nanoseconds
      ensures deferred[i].tasks == old(deferred[i].tasks)
      ensures Groups() == old(Groups())[i := Group(left, old(deferred[i].tasks))]
    {
      left := deferred[i].PassTime(nanoseconds);
    }

    // While its callbacks run, the front group is still listed, and was due at `due`.
    ghost predicate FrontOverdue(due: int)
      reads this`elapsed, this`deferred, this`Repr, deferred
    {
      Valid() && deferred != [] && elapsed + deferred[0].nanosecondsLeft == due <= elapsed
    }

    // The queue behind that group.
    ghost function Behind(due: int): seq<Entry<T>>
      requires deferred != []
      reads this`deferred, deferred
    {
      Flatten(due, Groups()[1..])
    }

    // What a running task asks for goes behind the group it belongs to.
    method AddRequests(reqs: seq<Request<T>>, ghost due: int)
      requires FrontOverdue(due)
      modifies this`deferred, this`Repr, Repr
      ensures FrontOverdue(due)
      ensures fresh(Repr - old(Repr))
      ensures deferred[0] == old(deferred[0]) && deferred[0].tasks == old(deferred[0].tasks)
      ensures Behind(due) == InsertAll(old(Behind(due)), elapsed, reqs)
      decreases |reqs|
    {
      if reqs != [] {
        ghost var behind := Insert(Behind(due), Entry(elapsed + reqs[0].delay, reqs[0].task));
        assert InsertAll(Behind(due), elapsed, reqs) == InsertAll(behind, elapsed, reqs[1..]);
        AddBehind(reqs[0].task, reqs[0].delay, due);
        assert Behind(due) == behind;
        AddRequests(reqs[1..], due);
      }
    }

    method AddBehind(task: T, delay: int, ghost due: int)
      requires FrontOverdue(due) && delay > 0
      modifies this`deferred, this`Repr, Repr
      ensures FrontOverdue(due)
      ensures fresh(Repr - old(Repr))
      ensures deferred[0] == old(deferred[0]) && deferred[0].tasks == old(deferred[0].tasks)
      ensures Behind(due) == Insert(old(Behind(due)), Entry(elapsed + delay, task))
    {
      hide Flatten, AddAt, Insert;
      ghost var gs, n := Groups(), delay - deferred[0].nanosecondsLeft;
      AddDeferredTask(task, delay);
      AddBehindFront(gs, task, delay);
      AddAtIsInsert(due, gs[1..], task, n);
    }

    // The callback loop of pass_time: the list is walked as it stands while the
    // tasks run, and the group is still in the clock's list.
    method RunTasks<W>(front: DeferredTasks<T>, w: W, run: Callback<W, T>, ghost due: int) returns (w': W)
      requires FrontOverdue(due) && front == deferred[0]
      modifies this`deferred, this`Repr, Repr
      ensures FrontOverdue(due) && front == deferred[0]
      ensures fresh(Repr - old(Repr))
      ensures Advance(Moment(elapsed, Behind(due), w'), run)
           == Advance(Moment(elapsed, At(due, old(front.tasks)) + old(Behind(due)), w), run)
    {
      w' := w;
      var k := 0;
      ghost var start := Moment(elapsed, At(due, front.tasks) + Behind(due), w);
      assert front.tasks[0..] == front.tasks;
      while k < |front.tasks|
        invariant FrontOverdue(due) && front == deferred[0]
        invariant fresh(Repr - old(Repr))
        invariant front.tasks == old(front.tasks)
        invariant 0 <= k <= |front.tasks|
        invariant Advance(Moment(elapsed, At(due, front.tasks[k..]) + Behind(due), w'), run) == Advance(start, run)
      {
        AdvanceTask(due, front.tasks[k..], Behind(due), elapsed, w', run);
        assert front.tasks[k..][1..] == front.tasks[k + 1..];
        var (next, reqs) := run(w', front.tasks[k]);
        AddRequests(reqs, due);
        w', k := next, k + 1;
      }
      assert At(due, front.tasks[k..]) + Behind(due) == Behind(due);
    }

    // Run the overdue front group and take it off the list.
    method DrainFront<W>(w: W, run: Callback<W, T>, ghost due: int) returns (w': W)
      requires FrontOverdue(due)
      modifies this`deferred, this`Repr, Repr
      ensures Settled()
      ensures fresh(Repr - old(Repr))
      ensures Advance(Moment(elapsed, Flatten(due, Groups()), w'), run)
           == Advance(Moment(elapsed, At(due, old(deferred[0].tasks)) + old(Behind(due)), w), run)
    {
      w' := RunTasks(deferred[0], w, run, due);
      ghost var gs := Groups();
      TailKeepsShape(gs);
      deferred := deferred[1..];
      assert Groups() == gs[1..];
    }

    method PassFront(nanoseconds: int) returns (left: int)
      requires Settled() && deferred != [] && nanoseconds > 0
      modifies deferred[0]
      ensures Valid() && (left > 0 ==> Settled())
      ensures left == deferred[0].nanosecondsLeft == old(deferred[0].nanosecondsLeft) - nanoseconds
      ensures deferred[0].tasks == old(deferred[0].tasks)
      ensures Groups()[1..] == old(Groups())[1..]
      ensures Groups() == [Group(left, old(deferred[0].tasks))] + old(Groups())[1..]
    {
      ghost var gs := Groups();
      left := PassGroup(0, nanoseconds);
      HeadKeepsShape(gs, left);
      assert Groups() == [Group(left, gs[0].tasks)] + gs[1..];
    }

    // One turn of the loop of Drain: time passes for the front group.
    // base is the absolute time that the list's distances are measured from.
    method DrainTurn<W>(remaining: int, w: W, run: Callback<W, T>, ghost base: int)
      returns (left: int, w': W, ghost base': int)
      requires Settled() && deferred != [] && remaining > 0 && base + remaining == elapsed
      modifies this`deferred, this`Repr, Repr
      ensures Settled() && -remaining < left
      ensures fresh(Repr - old(Repr))
      ensures base' == elapsed + if left < 0 then left else 0
      ensures Advance(Moment(elapsed, Flatten(base', Groups()), w'), run)
           == Advance(old(Moment(elapsed, Flatten(base, Groups()), w)), run)
    {
      ghost var gs := Groups();
      base' := base + gs[0].left;
      left := PassFront(remaining);
      if left <= 0 {
        assert Flatten(base, gs) == At(base', deferred[0].tasks) + Behind(base');
        w' := DrainFront(w, run, base');
      } else {
        Rebase(base, remaining, gs);
        w', base' := w, elapsed;
      }
    }

    // How far the visible time is ahead of the time passed: only SetTime changes that.
    ghost function Offset(): int
      reads this`time, this`elapsed
    {
      time.Nanoseconds() - elapsed
    }

    // Move simulated time forward and run every task that has come due.
    method IncrementTime<W>(nanoseconds: int, w: W, run: Callback<W, T>) returns (w': W)
      requires Settled()
      requires nanoseconds > 0
      modifies this`time, this`elapsed, this`deferred, this`Repr, Repr
      ensures Settled()
      ensures fresh(Repr - old(Repr))
      ensures time == TimespecAdd(old(time), Timespec(0, nanoseconds))
      ensures Now(w') == After(old(Now(w)), nanoseconds, run) && Offset() == old(Offset())
    {
      hide TimespecAdd, Flatten, Advance;
      time := TimespecAdd(time, Timespec(0, nanoseconds));
      elapsed := elapsed + nanoseconds;
      w' := Drain(nanoseconds, w, run);
    }

    // The loop of IncrementTime. The list's distances are still those from before.
    method Drain<W>(nanoseconds: int, w: W, run: Callback<W, T>) returns (w': W)
      requires Settled()
      requires nanoseconds > 0
      modifies this`deferred, this`Repr, Repr
      ensures Settled()
      ensures fresh(Repr - old(Repr))
      ensures Now(w') == Advance(old(Moment(elapsed, Flatten(elapsed - nanoseconds, Groups()), w)), run)
    {
      hide Flatten, Advance;
      ghost var base := elapsed - nanoseconds;
      ghost var start := Moment(elapsed, Flatten(base, Groups()), w);
      var remaining := nanoseconds;
      w' := w;
      while deferred != []  // the source reads front() first; here the read is guarded
        invariant Settled() && remaining > 0 && base + remaining == elapsed
        invariant fresh(Repr - old(Repr))
        invariant Advance(Moment(elapsed, Flatten(base, Groups()), w'), run) == Advance(start, run)
        decreases remaining
      {
        var left;
        left, w', base := DrainTurn(remaining, w', run, base);
        if left >= 0 {
          break;
        }
        remaining := -left;
      }
      if deferred == [] {
        FlattenNone(Groups(), base, elapsed);
      }
      FlattenAfter(elapsed, Groups());
      assert Flatten(base, Groups()) == Pending();
      AdvanceIdle(Now(w'), run);
    }

    // Add the host time since the last call, divided by the ratio. The second host
    // reading is `current`; the first one is used only by the very first call.
    method PassRealtime<W>(ratio: int, first: Timespec, current: Timespec, w: W, run: Callback<W, T>) returns (w': W)
      requires Settled()
      requires ratio > 0
      requires lastHost.Normal() && first.Normal() && current.Normal() && spill >= 0
      requires var last := if lastHost.sec == -1 then first else lastHost;
               TimespecSub(current, last).sec > 0 ==> ratio <= SECOND  // IncrementTime wants a positive step
      modifies this, Repr
      ensures Settled() && fresh(Repr - old(Repr))
      ensures lastHost == current && spill >= 0
      ensures var last := if old(lastHost.sec) == -1 then first else old(lastHost);
              var since := TimespecSub(current, last);
              && Paced(Now(w'), spill) == Call(old(Paced(Now(w), spill)), since, ratio, run)
              && time.Nanoseconds() == old(time.Nanoseconds()) + Sum(Ticks(since, old(spill), ratio))
    {
      hide Ticks, SpillAfter, AfterAll, TimespecSub;
      if lastHost.sec == -1 {
        lastHost := first;
      }
      AfterAllTime(Now(w), Ticks(TimespecSub(current, lastHost), spill, ratio), run);
      w' := PassSince(ratio, TimespecSub(current, lastHost), w, run);
      lastHost := current;
    }

    method PassSince<W>(ratio: int, now: Timespec, w: W, run: Callback<W, T>) returns (w': W)
      requires Settled()
      requires ratio > 0 && (now.sec > 0 ==> ratio <= SECOND) && now.Normal() && spill >= 0
      modifies this`time, this`spill, this`elapsed, this`deferred, this`Repr, Repr
      ensures Settled() && fresh(Repr - old(Repr))
      ensures spill >= 0 && spill == SpillAfter(now, old(spill), ratio)
      ensures Now(w') == AfterAll(old(Now(w)), Ticks(now, old(spill), ratio), run)
      ensures Offset() == old(Offset())
    {
      hide Ticks, TicksOf, SpillAfter, AfterAll, Flatten;
      var step, increase;
      step, increase, spill := Scaled(now, spill, ratio);
      w' := PassTicks(step, now.sec, increase, w, run);
    }

    static method Scaled(now: Timespec, spill: int, ratio: int) returns (step: int, increase: int, left: int)
      requires ratio > 0 && now.nsec + spill >= 0
      ensures ratio <= SECOND ==> step > 0
      ensures increase >= 0
      ensures TicksOf(step, now.sec, increase) == Ticks(now, spill, ratio)
      ensures left == SpillAfter(now, spill, ratio) && left >= 0
    {
      step, increase := SECOND / ratio, (now.nsec + spill) / ratio;
      left := if increase == 0 then now.nsec + spill else 0;
      FittingIsDivision(SECOND, ratio);
      FittingIsDivision(now.nsec + spill, ratio);
    }

    // One increment of `step` for each whole second, then the rest.
    method PassTicks<W>(step: int, seconds: int, rest: int, w: W, run: Callback<W, T>) returns (w': W)
      requires Settled()
      requires (seconds > 0 ==> step > 0) && rest >= 0
      modifies this`time, this`elapsed, this`deferred, this`Repr, Repr
      ensures Settled() && fresh(Repr - old(Repr))
      ensures Now(w') == AfterAll(old(Now(w)), TicksOf(step, seconds, rest), run)
      ensures Offset() == old(Offset())
    {
      AfterRest(Now(w), step, seconds, rest, run);
      w' := PassSeconds(step, seconds, w, run);
      if rest != 0 {
        w' := IncrementTime(rest, w', run);
      }
    }

    method PassSeconds<W>(step: int, seconds: int, w: W, run: Callback<W, T>) returns (w': W)
      requires Settled()
      requires seconds > 0 ==> step > 0
      modifies this`time, this`elapsed, this`deferred, this`Repr, Repr
      ensures Settled() && fresh(Repr - old(Repr))
      ensures Now(w') == AfterAll(old(Now(w)), Repeat(step, Max(seconds, 0)), run)
      ensures Offset() == old(Offset())
    {
      w' := w;
      var left := seconds;
      ghost var start, done: nat := Now(w), 0;
      while left > 0
        invariant Settled() && fresh(Repr - old(Repr))
        invariant done == Max(seconds, 0) - Max(left, 0)
        invariant Now(w') == AfterAll(start, Repeat(step, done), run) && Offset() == old(Offset())
      {
        AfterRepeat(start, step, done, run);
        w' := IncrementTime(step, w', run);
        left, done := left - 1, done + 1;
      }
    }
  }
}
