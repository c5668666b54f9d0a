/** One clock shared by many devices: what one of them sees of it is a clock of its own. */
module SharedClock {
  import opened Agenda

  // A device's own tasks, and everyone else's.
  datatype Shared<A, B> = Mine(mine: A) | Other(other: B)

  // What the others' tasks do: they may look at the device, but change only the rest of the world.
  type Others<!W, !X, !B> = (W, X, B) -> (X, seq<Request<B>>)

  function Mines<A, B>(reqs: seq<Request<A>>): (r: seq<Request<Shared<A, B>>>)
    ensures |r| == |reqs|
    ensures forall i :: 0 <= i < |r| ==> r[i] == Request(Mine(reqs[i].task), reqs[i].delay)
  {
    seq(|reqs|, i requires 0 <= i < |reqs| => Request(Mine(reqs[i].task), reqs[i].delay))
  }

  function Theirs<A, B>(reqs: seq<Request<B>>): (r: seq<Request<Shared<A, B>>>)
    ensures |r| == |reqs|
    ensures forall i :: 0 <= i < |r| ==> r[i] == Request(Other(reqs[i].task), reqs[i].delay)
  {
    seq(|reqs|, i requires 0 <= i < |reqs| => Request(Other(reqs[i].task), reqs[i].delay))
  }

  // The callback of the shared clock.
  function Both<W, X, A, B>(run: Callback<W, A>, others: Others<W, X, B>): Callback<(W, X), Shared<A, B>> {
    (w: (W, X), t: Shared<A, B>) =>
      match t
      case Mine(a) => var (own, reqs) := run(w.0, a); ((own, w.1), Mines(reqs))
      case Other(b) => var (x, reqs) := others(w.0, w.1, b); ((w.0, x), Theirs(reqs))
  }

  // A device's own part of the queue, and of the clock.
  ghost function OwnEntries<A, B>(q: seq<Entry<Shared<A, B>>>): seq<Entry<A>> {
    if q == [] then []
    else if q[0].task.Other? then OwnEntries(q[1..])
    else [Entry(q[0].due, q[0].task.mine)] + OwnEntries(q[1..])
  }

  ghost function Own<W, X, A, B>(m: Moment<(W, X), Shared<A, B>>): Moment<W, A> {
    Moment(m.now, OwnEntries(m.queue), m.world.0)
  }

  lemma SortedTail<T>(q: seq<Entry<T>>)
    requires q != [] && Sorted(q)
    ensures Sorted(q[1..])
    ensures forall d :: d < q[0].due ==> AllAfter(q, d)
  {
    forall d | d < q[0].due ensures AllAfter(q, d) {
      forall i | 0 <= i < |q| ensures d < q[i].due {
        assert q[0].due <= q[i].due;
      }
    }
  }

  lemma {:induction false} InsertMember<T>(q: seq<Entry<T>>, e: Entry<T>, x: Entry<T>)
    ensures x in Insert(q, e) <==> x == e || x in q
  {
    var r := Insert(q, e);
    if q == [] || e.due < q[0].due {
      assert r == [e] + q;
    } else {
      InsertMember(q[1..], e, x);
      assert q == [q[0]] + q[1..];
    }
  }

  lemma {:induction false} InsertKeepsSorted<T>(q: seq<Entry<T>>, e: Entry<T>)
    requires Sorted(q)
    ensures Sorted(Insert(q, e))
  {
    if q != [] && q[0].due <= e.due {
      var tail := Insert(q[1..], e);
      InsertKeepsSorted(q[1..], e);
      forall j | 0 <= j < |tail| ensures q[0].due <= tail[j].due {
        InsertMember(q[1..], e, tail[j]);
      }
    }
  }

  lemma {:induction false} InsertAllKeepsSorted<T>(q: seq<Entry<T>>, now: int, reqs: seq<Request<T>>)
    requires Sorted(q)
    ensures Sorted(InsertAll(q, now, reqs))
    decreases |reqs|
  {
    if reqs != [] {
      var e := Entry(now + reqs[0].delay, reqs[0].task);
      InsertKeepsSorted(q, e);
      InsertAllKeepsSorted(Insert(q, e), now, reqs[1..]);
    }
  }

  lemma {:induction false} OwnAfter<A, B>(q: seq<Entry<Shared<A, B>>>, d: int)
    requires AllAfter(q, d)
    ensures AllAfter(OwnEntries(q), d)
  {
    if q != [] {
      OwnAfter(q[1..], d);
    }
  }

  lemma InsertInFront<T>(q: seq<Entry<T>>, e: Entry<T>)
    requires AllAfter(q, e.due)
    ensures Insert(q, e) == [e] + q
  {
  }

  lemma InsertBehind<T>(first: Entry<T>, q: seq<Entry<T>>, e: Entry<T>)
    requires first.due <= e.due
    ensures Insert([first] + q, e) == [first] + Insert(q, e)
  {
    assert ([first] + q)[1..] == q;
  }

  lemma {:induction false} OwnInsert<A, B>(q: seq<Entry<Shared<A, B>>>, due: int, a: A)
    requires Sorted(q)
    ensures OwnEntries(Insert(q, Entry(due, Mine(a)))) == Insert(OwnEntries(q), Entry(due, a))
  {
    var e := Entry(due, Mine(a));
    var r := Insert(q, e);
    if q == [] || due < q[0].due {
      assert r == [e] + q && r[1..] == q;
      if q != [] {
        SortedTail(q);
      }
      OwnAfter(q, due);
      InsertInFront(OwnEntries(q), Entry(due, a));
    } else {
      SortedTail(q);
      OwnInsert(q[1..], due, a);
      assert r[0] == q[0] && r[1..] == Insert(q[1..], e);
      if q[0].task.Mine? {
        InsertBehind(Entry(q[0].due, q[0].task.mine), OwnEntries(q[1..]), Entry(due, a));
      }
    }
  }

  lemma {:induction false} OwnInsertOther<A, B>(q: seq<Entry<Shared<A, B>>>, due: int, b: B)
    ensures OwnEntries(Insert(q, Entry(due, Other(b)))) == OwnEntries(q)
  {
    var e: Entry<Shared<A, B>> := Entry(due, Other(b));
    var r := Insert(q, e);
    if q == [] || due < q[0].due {
      assert r == [e] + q && r[1..] == q;
    } else {
      OwnInsertOther(q[1..], due, b);
      assert r[1..] == Insert(q[1..], e);
    }
  }

  lemma {:induction false} OwnInsertAll<A, B>(q: seq<Entry<Shared<A, B>>>, now: int, reqs: seq<Request<A>>)
    requires Sorted(q)
    ensures OwnEntries(InsertAll(q, now, Mines(reqs))) == InsertAll(OwnEntries(q), now, reqs)
    decreases |reqs|
  {
    if reqs != [] {
      var due := now + reqs[0].delay;
      OwnInsert(q, due, reqs[0].task);
      InsertKeepsSorted(q, Entry(due, Mine(reqs[0].task)));
      OwnInsertAll(Insert(q, Entry(due, Mine(reqs[0].task))), now, reqs[1..]);
      assert Mines<A, B>(reqs)[1..] == Mines(reqs[1..]);
    }
  }

  lemma {:induction false} OwnInsertTheirs<A, B>(q: seq<Entry<Shared<A, B>>>, now: int, reqs: seq<Request<B>>)
    ensures OwnEntries(InsertAll(q, now, Theirs(reqs))) == OwnEntries(q)
    decreases |reqs|
  {
    if reqs != [] {
      var due := now + reqs[0].delay;
      OwnInsertOther(q, due, reqs[0].task);
      OwnInsertTheirs(Insert(q, Entry(due, Other(reqs[0].task))), now, reqs[1..]);
      assert Theirs<A, B>(reqs)[1..] == Theirs(reqs[1..]);
    }
  }

  // The first task of the clock, if it is due, run by either side.
  lemma FirstMine<W, X, A, B>(m: Moment<(W, X), Shared<A, B>>, run: Callback<W, A>, others: Others<W, X, B>)
    requires m.queue != [] && Sorted(m.queue) && m.queue[0].due <= m.now && m.queue[0].task.Mine?
    ensures var (world, reqs) := Both(run, others)(m.world, m.queue[0].task);
            Advance(Own(Moment(m.now, InsertAll(m.queue[1..], m.now, reqs), world)), run) == Advance(Own(m), run)
  {
    hide Advance, InsertAll;
    var q, a := m.queue, m.queue[0].task.mine;
    SortedTail(q);
    OwnInsertAll<A, B>(q[1..], m.now, run(m.world.0, a).1);
    AdvanceHead(Entry(q[0].due, a), OwnEntries(q[1..]), m.now, m.world.0, run);
  }

  lemma FirstOther<W, X, A, B>(m: Moment<(W, X), Shared<A, B>>, run: Callback<W, A>, others: Others<W, X, B>)
    requires m.queue != [] && m.queue[0].task.Other?
    ensures var (world, reqs) := Both(run, others)(m.world, m.queue[0].task);
            Own(Moment(m.now, InsertAll(m.queue[1..], m.now, reqs), world)) == Own(m)
  {
    hide InsertAll;
    var b := m.queue[0].task.other;
    OwnInsertTheirs<A, B>(m.queue[1..], m.now, others(m.world.0, m.world.1, b).1);
  }

  lemma NothingDue<W, X, A, B>(m: Moment<(W, X), Shared<A, B>>, run: Callback<W, A>)
    requires Sorted(m.queue) && DueCount(m.queue, m.now) == 0
    ensures Advance(Own(m), run) == Own(m)
  {
    if m.queue != [] {
      SortedTail(m.queue);
    }
    OwnAfter(m.queue, m.now);
    AdvanceIdle(Own(m), run);
  }

  // Whatever else is on the clock, and whatever it does, a device's own part of it advances
  // as a clock that the device has to itself.
  lemma {:induction false} AdvanceOwn<W, X, A, B>(m: Moment<(W, X), Shared<A, B>>, run: Callback<W, A>,
                                                  others: Others<W, X, B>)
    requires Sorted(m.queue)
    ensures var m' := Advance(m, Both(run, others));
            Sorted(m'.queue) && Own(m') == Advance(Own(m), run)
    decreases DueCount(m.queue, m.now)
  {
    var q := m.queue;
    if DueCount(q, m.now) == 0 {
      NothingDue(m, run);
    } else {
      hide Both, Own, OwnEntries, InsertAll;
      var (world, reqs) := Both(run, others)(m.world, q[0].task);
      DueUntouched(q[1..], m.now, reqs);
      InsertAllKeepsSorted(q[1..], m.now, reqs);
      var next := Moment(m.now, InsertAll(q[1..], m.now, reqs), world);
      AdvanceOwn(next, run, others);
      if q[0].task.Mine? {
        FirstMine(m, run, others);
      } else {
        FirstOther(m, run, others);
      }
    }
  }

  lemma AfterOwn<W, X, A, B>(m: Moment<(W, X), Shared<A, B>>, n: int, run: Callback<W, A>, others: Others<W, X, B>)
    requires Sorted(m.queue)
    ensures var m' := After(m, n, Both(run, others));
            Sorted(m'.queue) && Own(m') == After(Own(m), n, run)
  {
    hide Advance, Both;
    AdvanceOwn(Moment(m.now + n, m.queue, m.world), run, others);
  }

  // A clock that a device has yet to join.
  function OnlyTheirs<A, B>(q: seq<Entry<B>>): (r: seq<Entry<Shared<A, B>>>)
    ensures |r| == |q|
    ensures forall i :: 0 <= i < |r| ==> r[i] == Entry(q[i].due, Other(q[i].task))
  {
    seq(|q|, i requires 0 <= i < |q| => Entry(q[i].due, Other(q[i].task)))
  }

  lemma {:induction false} NoneOwn<A, B>(q: seq<Entry<B>>)
    ensures OwnEntries(OnlyTheirs<A, B>(q)) == []
    ensures Sorted(q) ==> Sorted(OnlyTheirs<A, B>(q))
    decreases |q|
  {
    if q != [] {
      NoneOwn<A, B>(q[1..]);
      assert OnlyTheirs<A, B>(q)[1..] == OnlyTheirs(q[1..]);
    }
  }
}
