/** The clock's own representation: groups of tasks, each storing only its
    distance from the group before it. Flatten gives the absolute queue meant. */
module DeltaList {
  import opened Agenda

  datatype Group<T> = Group(left: int, tasks: seq<T>)

  // Everything behind the front group lies strictly later than its predecessor.
  // Only the front group may be overdue, and only while its callbacks run.
  ghost predicate TailPositive<T>(gs: seq<Group<T>>) {
    forall i :: 0 < i < |gs| ==> gs[i].left > 0
  }

  ghost predicate Positive<T>(gs: seq<Group<T>>) {
    forall i :: 0 <= i < |gs| ==> gs[i].left > 0
  }

  ghost predicate Distinct<A>(s: seq<A>) {
    forall i, j :: 0 <= i < j < |s| ==> s[i] != s[j]
  }

  lemma InsertDistinct<A>(s: seq<A>, i: nat, x: A)
    requires Distinct(s) && x !in s && i <= |s|
    ensures Distinct(s[..i] + [x] + s[i..])
  {
    var r := s[..i] + [x] + s[i..];
    forall j, k | 0 <= j < k < |r|
      ensures r[j] != r[k]
    {
      assert j != i ==> r[j] == s[if j < i then j else j - 1];
      assert k != i ==> r[k] == s[if k < i then k else k - 1];
    }
  }

  ghost predicate Inhabited<T>(gs: seq<Group<T>>) {
    forall i :: 0 <= i < |gs| ==> gs[i].tasks != []
  }

  lemma TailKeepsShape<T>(gs: seq<Group<T>>)
    requires gs != [] && TailPositive(gs) && Inhabited(gs)
    ensures Positive(gs[1..]) && Inhabited(gs[1..])
  {
  }

  lemma HeadKeepsShape<T>(gs: seq<Group<T>>, left: int)
    requires gs != [] && TailPositive(gs) && Inhabited(gs)
    ensures var hs := [Group(left, gs[0].tasks)] + gs[1..];
            TailPositive(hs) && Inhabited(hs) && (left > 0 ==> Positive(hs)) && hs[1..] == gs[1..]
  {
  }

  ghost function At<T>(due: int, tasks: seq<T>): (r: seq<Entry<T>>)
    ensures |r| == |tasks|
    ensures forall i :: 0 <= i < |r| ==> r[i] == Entry(due, tasks[i])
  {
    seq(|tasks|, i requires 0 <= i < |tasks| => Entry(due, tasks[i]))
  }

  ghost function Flatten<T>(base: int, gs: seq<Group<T>>): seq<Entry<T>>
    decreases |gs|
  {
    if gs == [] then [] else At(base + gs[0].left, gs[0].tasks) + Flatten(base + gs[0].left, gs[1..])
  }

  // Splicing one task into the delta list at distance n.
  ghost function AddAt<T>(gs: seq<Group<T>>, t: T, n: int): seq<Group<T>> {
    if gs == [] then [Group(n, [t])]
    else if n < gs[0].left then [Group(n, [t]), Group(gs[0].left - n, gs[0].tasks)] + gs[1..]
    else if n == gs[0].left then [Group(gs[0].left, gs[0].tasks + [t])] + gs[1..]
    else [gs[0]] + AddAt(gs[1..], t, n - gs[0].left)
  }

  ghost function WithGroup<T>(gs: seq<Group<T>>, i: nat, n: int, t: T): (hs: seq<Group<T>>)
    requires i <= |gs|
    ensures |hs| == |gs| + 1
  {
    gs[..i] + [Group(n, [t])] + gs[i..]
  }

  // A new group in front of group i, which now waits that much less.
  ghost function Wedged<T>(gs: seq<Group<T>>, i: nat, n: int, t: T): seq<Group<T>>
    requires i < |gs|
  {
    WithGroup(gs, i, n, t)[i + 1 := Group(gs[i].left - n, gs[i].tasks)]
  }

  // The same by position, as the clock searches for the place: from group i on,
  // with distance n still to go.
  ghost function AddFrom<T>(gs: seq<Group<T>>, i: nat, t: T, n: int): seq<Group<T>>
    requires i <= |gs|
    decreases |gs| - i
  {
    if i == |gs| then WithGroup(gs, i, n, t)
    else if n < gs[i].left then Wedged(gs, i, n, t)
    else if n == gs[i].left then gs[i := Group(gs[i].left, gs[i].tasks + [t])]
    else AddFrom(gs, i + 1, t, n - gs[i].left)
  }

  lemma {:induction false} AddFromIsAddAt<T>(gs: seq<Group<T>>, i: nat, t: T, n: int)
    requires i <= |gs|
    ensures AddFrom(gs, i, t, n) == gs[..i] + AddAt(gs[i..], t, n)
    decreases |gs| - i
  {
    if i < |gs| {
      assert gs[i..][1..] == gs[i + 1..];
      if n > gs[i].left {
        AddFromIsAddAt(gs, i + 1, t, n - gs[i].left);
        assert gs[..i + 1] == gs[..i] + [gs[i]];
      }
    }
  }

  lemma AddFromStart<T>(gs: seq<Group<T>>, t: T, n: int)
    ensures AddFrom(gs, 0, t, n) == AddAt(gs, t, n)
  {
    AddFromIsAddAt(gs, 0, t, n);
    assert gs[0..] == gs;
  }

  // Beyond an overdue front group.
  lemma AddBehindFront<T>(gs: seq<Group<T>>, t: T, n: int)
    requires gs != [] && gs[0].left <= 0 < n
    ensures AddAt(gs, t, n)[0] == gs[0]
    ensures AddAt(gs, t, n)[1..] == AddAt(gs[1..], t, n - gs[0].left)
  {
  }

  lemma {:induction false} AddAtKeepsShape<T>(gs: seq<Group<T>>, t: T, n: int)
    requires TailPositive(gs) && Inhabited(gs) && n > 0
    ensures TailPositive(AddAt(gs, t, n)) && Inhabited(AddAt(gs, t, n))
    ensures Positive(gs) ==> Positive(AddAt(gs, t, n))
  {
    if gs != [] && n > gs[0].left {
      AddAtKeepsShape(gs[1..], t, n - gs[0].left);
      assert Positive(gs[1..]);
    }
  }

  lemma FlattenNone<T>(gs: seq<Group<T>>, base: int, other: int)
    requires gs == []
    ensures Flatten(base, gs) == Flatten(other, gs)
  {
  }

  lemma {:induction false} FlattenAfter<T>(base: int, gs: seq<Group<T>>)
    requires Positive(gs)
    ensures AllAfter(Flatten(base, gs), base) && Sorted(Flatten(base, gs))
    decreases |gs|
  {
    if gs != [] {
      FlattenAfter(base + gs[0].left, gs[1..]);
    }
  }

  lemma FlattenCons<T>(base: int, g: Group<T>, rest: seq<Group<T>>)
    ensures Flatten(base, [g] + rest) == At(base + g.left, g.tasks) + Flatten(base + g.left, rest)
  {
    assert ([g] + rest)[1..] == rest;
  }

  lemma AtAppend<T>(due: int, tasks: seq<T>, t: T)
    ensures At(due, tasks + [t]) == At(due, tasks) + [Entry(due, t)]
  {
  }

  lemma InsertFirst<T>(q: seq<Entry<T>>, e: Entry<T>)
    requires q != [] && e.due < q[0].due
    ensures Insert(q, e) == [e] + q
  {
  }

  lemma SpliceBefore<T>(base: int, gs: seq<Group<T>>, t: T, n: int)
    requires gs != [] && gs[0].tasks != [] && n < gs[0].left
    ensures Flatten(base, AddAt(gs, t, n)) == Insert(Flatten(base, gs), Entry(base + n, t))
  {
    var rest, a, b, e := gs[1..], Group(n, [t]), Group(gs[0].left - n, gs[0].tasks), Entry(base + n, t);
    assert AddAt(gs, t, n) == [a] + ([b] + rest);
    assert gs == [gs[0]] + rest;
    hide AddAt, Flatten, Insert;
    FlattenCons(base, gs[0], rest);
    FlattenCons(base, a, [b] + rest);
    FlattenCons(base + n, b, rest);
    assert At(base + n, [t]) == [e];
    InsertFirst(Flatten(base, gs), e);
  }

  lemma SpliceInto<T>(base: int, gs: seq<Group<T>>, t: T)
    requires gs != [] && Positive(gs[1..])
    ensures Flatten(base, AddAt(gs, t, gs[0].left)) == Insert(Flatten(base, gs), Entry(base + gs[0].left, t))
  {
    var d, rest, fuller := base + gs[0].left, gs[1..], Group(gs[0].left, gs[0].tasks + [t]);
    var front, e := At(d, gs[0].tasks), Entry(d, t);
    assert AddAt(gs, t, gs[0].left) == [fuller] + rest;
    assert gs == [gs[0]] + rest;
    FlattenAfter(d, rest);
    assert Insert(Flatten(d, rest), e) == [e] + Flatten(d, rest);
    hide AddAt, Flatten, Insert;
    InsertPast(front, Flatten(d, rest), e);
    FlattenCons(base, gs[0], rest);
    FlattenCons(base, fuller, rest);
    AtAppend(d, gs[0].tasks, t);
    assert (front + [e]) + Flatten(d, rest) == front + ([e] + Flatten(d, rest));
  }

  lemma SpliceBeyond<T>(base: int, gs: seq<Group<T>>, t: T, n: int)
    requires gs != [] && gs[0].left < n
    requires var d, rest := base + gs[0].left, gs[1..];
             Flatten(d, AddAt(rest, t, n - gs[0].left)) == Insert(Flatten(d, rest), Entry(base + n, t))
    ensures Flatten(base, AddAt(gs, t, n)) == Insert(Flatten(base, gs), Entry(base + n, t))
  {
    var d := base + gs[0].left;
    InsertPast(At(d, gs[0].tasks), Flatten(d, gs[1..]), Entry(base + n, t));
    FlattenCons(base, gs[0], AddAt(gs[1..], t, n - gs[0].left));
  }

  // Splicing by deltas is stable insertion by absolute due time, even when the
  // front group is already overdue.
  lemma {:induction false} AddAtIsInsert<T>(base: int, gs: seq<Group<T>>, t: T, n: int)
    requires TailPositive(gs) && Inhabited(gs) && n > 0
    ensures Flatten(base, AddAt(gs, t, n)) == Insert(Flatten(base, gs), Entry(base + n, t))
    decreases |gs|
  {
    if gs == [] {
      assert At(base + n, [t]) == [Entry(base + n, t)];
    } else if n < gs[0].left {
      SpliceBefore(base, gs, t, n);
    } else if n == gs[0].left {
      SpliceInto(base, gs, t);
    } else {
      AddAtIsInsert(base + gs[0].left, gs[1..], t, n - gs[0].left);
      SpliceBeyond(base, gs, t, n);
    }
  }

  // Moving the base moves the first distance the other way.
  lemma {:induction false} Rebase<T>(base: int, n: int, gs: seq<Group<T>>)
    requires gs != []
    ensures Flatten(base, gs) == Flatten(base + n, [Group(gs[0].left - n, gs[0].tasks)] + gs[1..])
  {
    var hs := [Group(gs[0].left - n, gs[0].tasks)] + gs[1..];
    assert hs[1..] == gs[1..];
  }

  // One task of a due group: it runs, and its requests go behind the whole group.
  lemma AdvanceTask<W, T>(due: int, tasks: seq<T>, behind: seq<Entry<T>>, now: int, w: W, run: Callback<W, T>)
    requires tasks != [] && due <= now
    ensures var (w', reqs) := run(w, tasks[0]);
            Advance(Moment(now, At(due, tasks) + behind, w), run) ==
            Advance(Moment(now, At(due, tasks[1..]) + InsertAll(behind, now, reqs), w'), run)
  {
    var (w', reqs) := run(w, tasks[0]);
    var rest := At(due, tasks[1..]);
    assert At(due, tasks) + behind == [Entry(due, tasks[0])] + (rest + behind);
    AdvanceHead(Entry(due, tasks[0]), rest + behind, now, w, run);
    InsertAllPast(rest, behind, now, reqs);
  }
}
