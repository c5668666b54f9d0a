/** The clock as its callers see it: a queue of tasks with absolute due times,
    kept in due order and first-in first-out within one due time. */
module Agenda {

  // A delay handed to the clock; the source asserts that it is positive.
  type Nanos = n: int | 0 < n witness 1

  datatype Entry<T> = Entry(due: int, task: T)

  // A call to add_deferred_task.
  datatype Request<T> = Request(task: T, delay: Nanos)

  // What running one task does: it changes the world W and asks the clock for more tasks.
  type Callback<!W, !T> = (W, T) -> (W, seq<Request<T>>)

  ghost predicate Sorted<T>(q: seq<Entry<T>>) {
    forall i, j :: 0 <= i < j < |q| ==> q[i].due <= q[j].due
  }

  ghost predicate AllBy<T>(q: seq<Entry<T>>, limit: int) {
    forall i :: 0 <= i < |q| ==> q[i].due <= limit
  }

  ghost predicate AllAfter<T>(q: seq<Entry<T>>, limit: int) {
    forall i :: 0 <= i < |q| ==> limit < q[i].due
  }

  // Put e behind everything due no later than e.
  ghost function Insert<T>(q: seq<Entry<T>>, e: Entry<T>): seq<Entry<T>> {
    if q == [] || e.due < q[0].due then [e] + q else [q[0]] + Insert(q[1..], e)
  }

  ghost function InsertAll<T>(q: seq<Entry<T>>, now: int, reqs: seq<Request<T>>): seq<Entry<T>>
    decreases |reqs|
  {
    if reqs == [] then q
    else InsertAll(Insert(q, Entry(now + reqs[0].delay, reqs[0].task)), now, reqs[1..])
  }

  // The entries at the head of the queue that are due by `now`, and the rest.
  ghost function DueCount<T>(q: seq<Entry<T>>, now: int): (k: nat)
    ensures k <= |q|
    ensures AllBy(q[..k], now)
    ensures k < |q| ==> now < q[k].due
  {
    if q == [] || now < q[0].due then 0 else 1 + DueCount(q[1..], now)
  }

  ghost function Due<T>(q: seq<Entry<T>>, now: int): seq<Entry<T>> {
    q[..DueCount(q, now)]
  }

  ghost function Later<T>(q: seq<Entry<T>>, now: int): seq<Entry<T>> {
    q[DueCount(q, now)..]
  }

  // The clock at one time: the queue, and the world its tasks act on.
  datatype Moment<W, T> = Moment(now: int, queue: seq<Entry<T>>, world: W)

  // As long as the head of the queue is due, take it off and run it; what it asks
  // for joins the queue before the next one runs.
  ghost function Advance<W, T>(m: Moment<W, T>, run: Callback<W, T>): Moment<W, T>
    decreases DueCount(m.queue, m.now)
  {
    if DueCount(m.queue, m.now) == 0 then m
    else
      var (world, reqs) := run(m.world, m.queue[0].task);
      DueUntouched(m.queue[1..], m.now, reqs);
      Advance(Moment(m.now, InsertAll(m.queue[1..], m.now, reqs), world), run)
  }

  // An increment of n nanoseconds.
  ghost function After<W, T>(m: Moment<W, T>, n: int, run: Callback<W, T>): Moment<W, T> {
    Advance(Moment(m.now + n, m.queue, m.world), run)
  }

  lemma {:induction false} InsertPast<T>(p: seq<Entry<T>>, q: seq<Entry<T>>, e: Entry<T>)
    requires AllBy(p, e.due)
    ensures Insert(p + q, e) == p + Insert(q, e)
  {
    if p == [] {
      assert p + q == q;
    } else {
      assert (p + q)[1..] == p[1..] + q;
      InsertPast(p[1..], q, e);
    }
  }

  lemma {:induction false} InsertAllPast<T>(p: seq<Entry<T>>, q: seq<Entry<T>>, now: int, reqs: seq<Request<T>>)
    requires AllBy(p, now)
    ensures InsertAll(p + q, now, reqs) == p + InsertAll(q, now, reqs)
    decreases |reqs|
  {
    if reqs != [] {
      var e := Entry(now + reqs[0].delay, reqs[0].task);
      InsertPast(p, q, e);
      InsertAllPast(p, Insert(q, e), now, reqs[1..]);
    }
  }

  lemma {:induction false} NothingDueAdded<T>(q: seq<Entry<T>>, now: int, reqs: seq<Request<T>>)
    requires DueCount(q, now) == 0
    ensures DueCount(InsertAll(q, now, reqs), now) == 0
    decreases |reqs|
  {
    if reqs != [] {
      NothingDueAdded(Insert(q, Entry(now + reqs[0].delay, reqs[0].task)), now, reqs[1..]);
    }
  }

  lemma {:induction false} DueOfParts<T>(p: seq<Entry<T>>, s: seq<Entry<T>>, now: int)
    requires AllBy(p, now) && DueCount(s, now) == 0
    ensures DueCount(p + s, now) == |p|
  {
    if p == [] {
      assert p + s == s;
    } else {
      assert (p + s)[1..] == p[1..] + s;
      DueOfParts(p[1..], s, now);
    }
  }

  // Nothing asked for at time `now` is due at `now`: the due part of the queue is
  // untouched, and the additions go into the rest.
  lemma {:induction false} DueUntouched<T>(q: seq<Entry<T>>, now: int, reqs: seq<Request<T>>)
    ensures var r := InsertAll(q, now, reqs);
            Due(r, now) == Due(q, now) && Later(r, now) == InsertAll(Later(q, now), now, reqs)
            && DueCount(r, now) == DueCount(q, now)
  {
    var p, s := Due(q, now), Later(q, now);
    assert q == p + s;
    InsertAllPast(p, s, now, reqs);
    NothingDueAdded(s, now, reqs);
    DueOfParts(p, InsertAll(s, now, reqs), now);
  }

  lemma AdvanceIdle<W, T>(m: Moment<W, T>, run: Callback<W, T>)
    requires AllAfter(m.queue, m.now)
    ensures Advance(m, run) == m
  {
    assert DueCount(m.queue, m.now) == 0;
  }

  lemma {:induction false} AdvanceKeepsTime<W, T>(m: Moment<W, T>, run: Callback<W, T>)
    ensures Advance(m, run).now == m.now
    decreases DueCount(m.queue, m.now)
  {
    if DueCount(m.queue, m.now) > 0 {
      var (world, reqs) := run(m.world, m.queue[0].task);
      DueUntouched(m.queue[1..], m.now, reqs);
      AdvanceKeepsTime(Moment(m.now, InsertAll(m.queue[1..], m.now, reqs), world), run);
    }
  }

  // Taking a due head off the queue.
  lemma AdvanceHead<W, T>(e: Entry<T>, rest: seq<Entry<T>>, now: int, w: W, run: Callback<W, T>)
    requires e.due <= now
    ensures var (w', reqs) := run(w, e.task);
            Advance(Moment(now, [e] + rest, w), run) == Advance(Moment(now, InsertAll(rest, now, reqs), w'), run)
  {
    assert ([e] + rest)[1..] == rest;
  }
}
