/** What callers may rely on over a whole run of the clock: any sequence of
    additions and increments, with any callbacks. */
module ClockRuns {
  import opened Agenda

  // Run the given entries in order; collect everything they ask for.
  ghost function RunAll<W, T>(w: W, entries: seq<Entry<T>>, run: Callback<W, T>): (W, seq<Request<T>>)
    decreases |entries|
  {
    if entries == [] then (w, [])
    else
      var (w1, reqs1) := run(w, entries[0].task);
      var (w2, reqs2) := RunAll(w1, entries[1..], run);
      (w2, reqs1 + reqs2)
  }

  lemma {:induction false} InsertAllSplit<T>(q: seq<Entry<T>>, now: int, a: seq<Request<T>>, b: seq<Request<T>>)
    ensures InsertAll(q, now, a + b) == InsertAll(InsertAll(q, now, a), now, b)
    decreases |a|
  {
    if a == [] {
      assert a + b == b;
    } else {
      assert (a + b)[1..] == a[1..] + b && (a + b)[0] == a[0];
      InsertAllSplit(Insert(q, Entry(now + a[0].delay, a[0].task)), now, a[1..], b);
    }
  }

  // Re-entrancy is invisible: whatever the callbacks ask for, the tasks that run are
  // exactly those that were due at the start, in queue order, each once; and the new
  // queue is the one obtained by queueing all requests after the last of them.
  lemma {:induction false} AdvanceRunsExactlyTheDue<W, T>(q: seq<Entry<T>>, now: int, w: W, run: Callback<W, T>)
    ensures var (w', reqs) := RunAll(w, Due(q, now), run);
            Advance(Moment(now, q, w), run) == Moment(now, InsertAll(Later(q, now), now, reqs), w')
    decreases DueCount(q, now)
  {
    if DueCount(q, now) == 0 {
      assert Later(q, now) == q;
    } else {
      var (w1, reqs1) := run(w, q[0].task);
      var rest := q[1..];
      DueUntouched(rest, now, reqs1);
      AdvanceRunsExactlyTheDue(InsertAll(rest, now, reqs1), now, w1, run);
      assert Due(q, now)[1..] == Due(rest, now) && Later(q, now) == Later(rest, now);
      InsertAllSplit(Later(q, now), now, reqs1, RunAll(w1, Due(rest, now), run).1);
    }
  }

  // Every task carries the number of the request that queued it.
  datatype Job<P> = Job(id: nat, payload: P)

  datatype World<S, P> = World(state: S, next: nat, log: seq<Job<P>>)

  ghost function Numbered<P>(reqs: seq<Request<P>>, next: nat): (r: seq<Request<Job<P>>>)
    ensures |r| == |reqs|
    ensures forall i :: 0 <= i < |r| ==> r[i] == Request(Job(next + i, reqs[i].task), reqs[i].delay)
  {
    seq(|reqs|, i requires 0 <= i < |reqs| => Request(Job(next + i, reqs[i].task), reqs[i].delay))
  }

  // A callback on payloads, as run by a world that numbers requests and logs what runs.
  ghost function Logging<S, P>(run: Callback<S, P>): Callback<World<S, P>, Job<P>> {
    (w: World<S, P>, job: Job<P>) =>
      var (s, reqs) := run(w.state, job.payload);
      (World(s, w.next + |reqs|, w.log + [job]), Numbered(reqs, w.next))
  }

  datatype Op<P> = Add(payload: P, delay: Nanos) | Tick(nanoseconds: Nanos)

  datatype State<S, P> = State(now: int, queue: seq<Entry<Job<P>>>, fired: seq<Entry<Job<P>>>, world: World<S, P>)

  ghost function Start<S, P>(s: S): State<S, P> {
    State(0, [], [], World(s, 0, []))
  }

  ghost function Step<S, P>(s: State<S, P>, op: Op<P>, run: Callback<S, P>): State<S, P> {
    match op
    case Add(payload, delay) =>
      s.(queue := Insert(s.queue, Entry(s.now + delay, Job(s.world.next, payload))),
         world := s.world.(next := s.world.next + 1))
    case Tick(n) =>
      var m := After(Moment(s.now, s.queue, s.world), n, Logging(run));
      State(m.now, m.queue, s.fired + Due(s.queue, m.now), m.world)
  }

  ghost function Run<S, P>(s: State<S, P>, ops: seq<Op<P>>, run: Callback<S, P>): State<S, P>
    decreases |ops|
  {
    if ops == [] then s else Run(Step(s, ops[0], run), ops[1..], run)
  }

  ghost predicate Before<P>(a: Entry<Job<P>>, b: Entry<Job<P>>) {
    a.due < b.due || (a.due == b.due && a.task.id < b.task.id)
  }

  ghost predicate InOrder<P>(q: seq<Entry<Job<P>>>) {
    forall i, j :: 0 <= i < j < |q| ==> Before(q[i], q[j])
  }

  ghost predicate IdsBelow<P>(q: seq<Entry<Job<P>>>, next: nat) {
    forall i :: 0 <= i < |q| ==> q[i].task.id < next
  }

  // How often request number id occurs.
  ghost function Count<P>(q: seq<Entry<Job<P>>>, id: nat): nat {
    if q == [] then 0 else (if q[0].task.id == id then 1 else 0) + Count(q[1..], id)
  }

  ghost function Jobs<P>(q: seq<Entry<Job<P>>>): (r: seq<Job<P>>)
    ensures |r| == |q|
    ensures forall i :: 0 <= i < |r| ==> r[i] == q[i].task
  {
    seq(|q|, i requires 0 <= i < |q| => q[i].task)
  }

  ghost predicate Ordered<P>(q: seq<Entry<Job<P>>>, now: int, next: nat) {
    InOrder(q) && AllAfter(q, now) && IdsBelow(q, next)
  }

  // Fired and queued tasks together are all requests ever made, each once, in due
  // order and within a due time in request order; fired are exactly those due by now,
  // and they are what the callbacks were really run on.
  ghost predicate Good<S, P>(s: State<S, P>) {
    && InOrder(s.fired + s.queue)
    && AllBy(s.fired, s.now)
    && AllAfter(s.queue, s.now)
    && IdsBelow(s.queue, s.world.next)
    && (forall id: nat :: Count(s.fired, id) + Count(s.queue, id) == if id < s.world.next then 1 else 0)
    && s.world.log == Jobs(s.fired)
  }

  lemma {:induction false} InsertMember<T>(q: seq<Entry<T>>, e: Entry<T>, x: Entry<T>)
    ensures x in Insert(q, e) <==> x in q || x == e
  {
    if q != [] && q[0].due <= e.due {
      InsertMember(q[1..], e, x);
      assert q == [q[0]] + q[1..];
    }
  }

  lemma {:induction false} InsertKeepsOrder<P>(q: seq<Entry<Job<P>>>, now: int, e: Entry<Job<P>>)
    requires Ordered(q, now, e.task.id) && now < e.due
    ensures Ordered(Insert(q, e), now, e.task.id + 1)
    ensures forall x :: x in q ==> x in Insert(q, e)
  {
    if q != [] && q[0].due <= e.due {
      InsertKeepsOrder(q[1..], now, e);
      var tail := Insert(q[1..], e);
      forall j | 0 <= j < |tail|
        ensures Before(q[0], tail[j])
      {
        InsertMember(q[1..], e, tail[j]);
      }
    }
    forall x | x in q ensures x in Insert(q, e) { InsertMember(q, e, x); }
  }

  lemma {:induction false} InsertCount<P>(q: seq<Entry<Job<P>>>, e: Entry<Job<P>>, id: nat)
    ensures Count(Insert(q, e), id) == Count(q, id) + if e.task.id == id then 1 else 0
  {
    if q == [] || e.due < q[0].due {
      assert Insert(q, e)[1..] == q;
    } else {
      InsertCount(q[1..], e, id);
      assert Insert(q, e)[1..] == Insert(q[1..], e);
    }
  }

  lemma {:induction false} InsertAllKeepsOrder<P>(q: seq<Entry<Job<P>>>, now: int, reqs: seq<Request<P>>, next: nat)
    requires Ordered(q, now, next)
    ensures Ordered(InsertAll(q, now, Numbered(reqs, next)), now, next + |reqs|)
    ensures forall x :: x in q ==> x in InsertAll(q, now, Numbered(reqs, next))
    decreases |reqs|
  {
    if reqs != [] {
      var e := Entry(now + reqs[0].delay, Job(next, reqs[0].task));
      InsertKeepsOrder(q, now, e);
      InsertAllKeepsOrder(Insert(q, e), now, reqs[1..], next + 1);
      assert Numbered(reqs, next)[1..] == Numbered(reqs[1..], next + 1);
    }
  }

  lemma {:induction false} InsertAllCount<P>(q: seq<Entry<Job<P>>>, now: int, reqs: seq<Request<P>>, next: nat, id: nat)
    ensures Count(InsertAll(q, now, Numbered(reqs, next)), id)
         == Count(q, id) + if next <= id < next + |reqs| then 1 else 0
    decreases |reqs|
  {
    if reqs != [] {
      var e := Entry(now + reqs[0].delay, Job(next, reqs[0].task));
      InsertCount(q, e, id);
      InsertAllCount(Insert(q, e), now, reqs[1..], next + 1, id);
      assert Numbered(reqs, next)[1..] == Numbered(reqs[1..], next + 1);
    }
  }

  lemma NumberedJoin<P>(a: seq<Request<P>>, b: seq<Request<P>>, next: nat)
    ensures Numbered(a, next) + Numbered(b, next + |a|) == Numbered(a + b, next)
  {
  }

  lemma JobsCons<P>(entries: seq<Entry<Job<P>>>)
    requires entries != []
    ensures Jobs(entries) == [entries[0].task] + Jobs(entries[1..])
  {
  }

  lemma LoggingOnce<S, P>(w: World<S, P>, job: Job<P>, run: Callback<S, P>)
    ensures var (s, reqs) := run(w.state, job.payload);
            Logging(run)(w, job) == (World(s, w.next + |reqs|, w.log + [job]), Numbered(reqs, w.next))
  {
  }

  lemma RunAllCons<W, T>(w: W, entries: seq<Entry<T>>, run: Callback<W, T>)
    requires entries != []
    ensures var (w1, reqs1) := run(w, entries[0].task);
            var (w2, reqs2) := RunAll(w1, entries[1..], run);
            RunAll(w, entries, run) == (w2, reqs1 + reqs2)
  {
  }

  lemma JoinAssociates<T>(a: seq<T>, b: seq<T>, c: seq<T>)
    ensures a + b + c == a + (b + c)
  {
  }

  // The world after a batch: its numbers and its log.
  lemma {:induction false} BatchNumbers<S, P>(w: World<S, P>, entries: seq<Entry<Job<P>>>, run: Callback<S, P>)
    returns (reqs: seq<Request<P>>)
    ensures var (w', numbered) := RunAll(w, entries, Logging(run));
            numbered == Numbered(reqs, w.next)
            && w'.next == w.next + |reqs|
            && w'.log == w.log + Jobs(entries)
    decreases |entries|
  {
    hide Logging;
    if entries == [] {
      reqs := [];
    } else {
      hide RunAll, Numbered, Jobs;
      var first := run(w.state, entries[0].task.payload).1;
      LoggingOnce(w, entries[0].task, run);
      RunAllCons(w, entries, Logging(run));
      var w1 := Logging(run)(w, entries[0].task).0;
      var rest := BatchNumbers(w1, entries[1..], run);
      reqs := first + rest;
      NumberedJoin(first, rest, w.next);
      JobsCons(entries);
      JoinAssociates(w.log, [entries[0].task], Jobs(entries[1..]));
    }
  }

  lemma {:induction false} CountSplit<P>(a: seq<Entry<Job<P>>>, b: seq<Entry<Job<P>>>, id: nat)
    ensures Count(a + b, id) == Count(a, id) + Count(b, id)
  {
    if a == [] {
      assert a + b == b;
    } else {
      assert (a + b)[1..] == a[1..] + b;
      CountSplit(a[1..], b, id);
    }
  }

  lemma AddKeepsGood<S, P>(s: State<S, P>, payload: P, delay: Nanos, run: Callback<S, P>)
    requires Good(s)
    ensures var t := Step(s, Add(payload, delay), run);
            Good(t) && t.fired == s.fired && (forall x :: x in s.queue ==> x in t.queue)
  {
    var e := Entry(s.now + delay, Job(s.world.next, payload));
    var queue := Insert(s.queue, e);
    QueueInOrder(s.fired, s.queue);
    InsertKeepsOrder(s.queue, s.now, e);
    JoinInOrder(s.fired, queue, s.now);
    forall id: nat
      ensures Count(queue, id) == Count(s.queue, id) + if id == s.world.next then 1 else 0
    {
      InsertCount(s.queue, e, id);
    }
  }

  lemma QueueInOrder<P>(a: seq<Entry<Job<P>>>, b: seq<Entry<Job<P>>>)
    requires InOrder(a + b)
    ensures InOrder(a) && InOrder(b)
  {
    forall i, j | 0 <= i < j < |a| ensures Before(a[i], a[j]) {
      assert (a + b)[i] == a[i] && (a + b)[j] == a[j];
    }
    forall i, j | 0 <= i < j < |b| ensures Before(b[i], b[j]) {
      assert (a + b)[|a| + i] == b[i] && (a + b)[|a| + j] == b[j];
    }
  }

  lemma JoinInOrder<P>(a: seq<Entry<Job<P>>>, b: seq<Entry<Job<P>>>, now: int)
    requires InOrder(a) && InOrder(b) && AllBy(a, now) && AllAfter(b, now)
    ensures InOrder(a + b)
  {
  }

  // What an increment does to fired and queue, without the world.
  lemma TickParts<P>(fired: seq<Entry<Job<P>>>, queue: seq<Entry<Job<P>>>, now: int, reqs: seq<Request<P>>, next: nat)
    requires InOrder(fired + queue) && AllBy(fired, now) && IdsBelow(queue, next)
    ensures var fired', queue' := fired + Due(queue, now), InsertAll(Later(queue, now), now, Numbered(reqs, next));
            && InOrder(fired' + queue') && AllBy(fired', now) && Ordered(queue', now, next + |reqs|)
            && (forall x :: x in queue ==> x in fired' + queue')
  {
    var due, later := Due(queue, now), Later(queue, now);
    assert (fired + due) + later == fired + queue;
    QueueInOrder(fired + due, later);
    LaterIsLater(queue, now, next);
    InsertAllKeepsOrder(later, now, reqs, next);
    JoinInOrder(fired + due, InsertAll(later, now, Numbered(reqs, next)), now);
    assert queue == due + later;
  }

  lemma TickCount<P>(fired: seq<Entry<Job<P>>>, queue: seq<Entry<Job<P>>>, now: int, reqs: seq<Request<P>>,
                     next: nat, id: nat)
    ensures Count(fired + Due(queue, now), id) + Count(InsertAll(Later(queue, now), now, Numbered(reqs, next)), id)
         == Count(fired, id) + Count(queue, id) + if next <= id < next + |reqs| then 1 else 0
  {
    var due, later := Due(queue, now), Later(queue, now);
    assert queue == due + later;
    CountSplit(fired, due, id);
    CountSplit(due, later, id);
    InsertAllCount(later, now, reqs, next, id);
  }

  lemma TickKeepsGood<S, P>(s: State<S, P>, n: Nanos, run: Callback<S, P>)
    requires Good(s)
    ensures var t := Step(s, Tick(n), run);
            Good(t) && t.fired == s.fired + Due(s.queue, s.now + n)
            && (forall x :: x in s.queue ==> x in t.fired + t.queue)
  {
    var now := s.now + n;
    AdvanceRunsExactlyTheDue(s.queue, now, s.world, Logging(run));
    var reqs := BatchNumbers(s.world, Due(s.queue, now), run);
    TickParts(s.fired, s.queue, now, reqs, s.world.next);
    forall id: nat {
      TickCount(s.fired, s.queue, now, reqs, s.world.next, id);
    }
    assert Jobs(s.fired) + Jobs(Due(s.queue, now)) == Jobs(s.fired + Due(s.queue, now));
  }

  lemma LaterIsLater<P>(q: seq<Entry<Job<P>>>, now: int, next: nat)
    requires IdsBelow(q, next)
    requires InOrder(Later(q, now))
    ensures AllAfter(Later(q, now), now) && IdsBelow(Later(q, now), next)
  {
    var later := Later(q, now);
    forall i | 0 <= i < |later| ensures now < later[i].due {
      assert i > 0 ==> Before(later[0], later[i]);
    }
  }

  // Every run of the clock keeps the order, loses nothing and repeats nothing.
  lemma {:induction false} RunIsGood<S, P>(s: State<S, P>, ops: seq<Op<P>>, run: Callback<S, P>)
    requires Good(s)
    ensures var t := Run(s, ops, run);
            Good(t) && s.fired <= t.fired && (forall x :: x in s.queue ==> x in t.fired + t.queue)
    decreases |ops|
  {
    if ops != [] {
      match ops[0] {
        case Add(payload, delay) => AddKeepsGood(s, payload, delay, run);
        case Tick(n) => TickKeepsGood(s, n, run);
      }
      RunIsGood(Step(s, ops[0], run), ops[1..], run);
    }
  }

  // From the start: a task has fired exactly when its due time has come, whatever
  // increments the time was made of, and the order of firing is due order, then
  // request order.
  lemma FiredExactlyWhenDue<S, P>(s0: S, ops: seq<Op<P>>, run: Callback<S, P>)
    ensures var t := Run(Start(s0), ops, run);
            && (forall x :: x in t.fired + t.queue ==> (x in t.fired <==> x.due <= t.now))
            && (forall i, j :: 0 <= i < j < |t.fired| ==> Before(t.fired[i], t.fired[j]))
            && (forall id: nat :: Count(t.fired, id) + Count(t.queue, id) == if id < t.world.next then 1 else 0)
            && t.world.log == Jobs(t.fired)
  {
    RunIsGood(Start<S, P>(s0), ops, run);
    var t := Run(Start(s0), ops, run);
    QueueInOrder(t.fired, t.queue);
  }
}
