/** Simulated time driven by host time: how much of it pass_realtime lets through. */
module Pacing {
  import opened Agenda
  import opened Division
  import opened Timespecs

  ghost function Repeat(n: int, times: nat): (r: seq<int>)
    ensures |r| == times && forall i :: 0 <= i < times ==> r[i] == n
  {
    seq(times, i => n)
  }

  ghost function Sum(s: seq<int>): int {
    if s == [] then 0 else s[0] + Sum(s[1..])
  }

  // How often r fits into x, by counting; FittingIsDivision says that it is `/`.
  ghost function Fitting(x: int, r: int): (q: int)
    requires r > 0
    ensures q >= 0 && (q == 0 <==> x < r)
  {
    if x < r then 0 else 1 + Fitting(x - r, r)
  }

  lemma {:induction false} FittingIsDivision(x: int, r: int)
    requires r > 0 && x >= 0
    ensures Fitting(x, r) == x / r
  {
    if x >= r {
      FittingIsDivision(x - r, r);
      DivMod(x - r, r);
      DivMod(x, r);
      DivideUnique(x, r, (x - r) / r + 1, (x - r) % r);
    }
  }

  function Max(a: int, b: int): int {
    if a > b then a else b
  }

  // The increments made for the host time since the last call: one for each whole
  // second, and one for the rest if it amounts to anything.
  ghost function Ticks(since: Timespec, spill: int, ratio: int): seq<int>
    requires ratio > 0
  {
    TicksOf(Fitting(SECOND, ratio), since.sec, Fitting(since.nsec + spill, ratio))
  }

  ghost function TicksOf(step: int, seconds: int, rest: int): seq<int> {
    Repeat(step, Max(seconds, 0)) + if rest == 0 then [] else [rest]
  }

  ghost function SpillAfter(since: Timespec, spill: int, ratio: int): int
    requires ratio > 0
  {
    if Fitting(since.nsec + spill, ratio) == 0 then since.nsec + spill else 0
  }

  // The clock after a series of increments.
  ghost function AfterAll<W, T>(m: Moment<W, T>, ticks: seq<int>, run: Callback<W, T>): Moment<W, T>
    decreases |ticks|
  {
    if ticks == [] then m else After(AfterAll(m, ticks[..|ticks| - 1], run), ticks[|ticks| - 1], run)
  }

  lemma AfterOneMore<W, T>(m: Moment<W, T>, ticks: seq<int>, n: int, run: Callback<W, T>)
    ensures AfterAll(m, ticks + [n], run) == After(AfterAll(m, ticks, run), n, run)
  {
    assert (ticks + [n])[..|ticks|] == ticks;
  }

  lemma AfterRepeat<W, T>(m: Moment<W, T>, n: int, times: nat, run: Callback<W, T>)
    ensures AfterAll(m, Repeat(n, times + 1), run) == After(AfterAll(m, Repeat(n, times), run), n, run)
  {
    assert Repeat(n, times + 1) == Repeat(n, times) + [n];
    AfterOneMore(m, Repeat(n, times), n, run);
  }

  lemma {:induction false} AfterAllTime<W, T>(m: Moment<W, T>, ticks: seq<int>, run: Callback<W, T>)
    ensures AfterAll(m, ticks, run).now == m.now + Sum(ticks)
    decreases |ticks|
  {
    if ticks != [] {
      var n := |ticks| - 1;
      AfterAllTime(m, ticks[..n], run);
      var before := AfterAll(m, ticks[..n], run);
      AdvanceKeepsTime(Moment(before.now + ticks[n], before.queue, before.world), run);
      SumAppend(ticks[..n], ticks[n]);
      assert ticks == ticks[..n] + [ticks[n]];
    }
  }

  // The rest of a call, after its whole seconds.
  lemma AfterRest<W, T>(m: Moment<W, T>, step: int, seconds: int, rest: int, run: Callback<W, T>)
    ensures var whole := AfterAll(m, Repeat(step, Max(seconds, 0)), run);
            AfterAll(m, TicksOf(step, seconds, rest), run) == if rest == 0 then whole else After(whole, rest, run)
  {
    var whole := Repeat(step, Max(seconds, 0));
    assert whole + [] == whole;
    AfterOneMore(m, whole, rest, run);
  }

  lemma {:induction false} SumRepeat(n: int, times: nat)
    ensures Sum(Repeat(n, times)) == n * times
    decreases times
  {
    if times > 0 {
      assert Repeat(n, times)[1..] == Repeat(n, times - 1);
      SumRepeat(n, times - 1);
    }
  }

  lemma {:induction false} SumAppend(s: seq<int>, n: int)
    ensures Sum(s + [n]) == Sum(s) + n
  {
    if s == [] {
      assert s + [n] == [n];
    } else {
      assert (s + [n])[1..] == s[1..] + [n];
      SumAppend(s[1..], n);
    }
  }

  lemma TicksSum(since: Timespec, spill: int, ratio: int)
    requires ratio > 0 && since.sec >= 0
    ensures Sum(Ticks(since, spill, ratio))
         == since.sec * Fitting(SECOND, ratio) + Fitting(since.nsec + spill, ratio)
  {
    hide Fitting, Sum;
    TicksOfSum(Fitting(SECOND, ratio), since.sec, Fitting(since.nsec + spill, ratio));
  }

  lemma TicksOfSum(step: int, seconds: nat, rest: int)
    ensures Sum(TicksOf(step, seconds, rest)) == seconds * step + rest
  {
    var whole := Repeat(step, seconds);
    SumRepeat(step, seconds);
    SumAppend(whole, rest);
    assert whole + [] == whole;
    hide Repeat, Sum;
  }

  // Host nanoseconds a call drops for good.
  ghost function Lost(since: Timespec, spill: int, ratio: int): int
    requires ratio > 0
  {
    since.Nanoseconds() + spill - ratio * Sum(Ticks(since, spill, ratio)) - SpillAfter(since, spill, ratio)
  }

  lemma LostParts(since: Timespec, spill: int, ratio: int)
    requires ratio > 0 && since.sec >= 0 && since.Normal() && spill >= 0
    ensures Lost(since, spill, ratio)
         == since.sec * (SECOND % ratio) + if since.nsec + spill < ratio then 0 else (since.nsec + spill) % ratio
  {
    var x := since.nsec + spill;
    TicksSum(since, spill, ratio);
    FittingIsDivision(SECOND, ratio);
    FittingIsDivision(x, ratio);
    Distribute(ratio, since.sec, SECOND / ratio, x / ratio);
    DivMod(SECOND, ratio);
    DivMod(x, ratio);
    Expand(since.sec, ratio * (SECOND / ratio), SECOND % ratio);
  }

  lemma Distribute(r: int, s: int, k: int, y: int)
    ensures r * (s * k + y) == s * (r * k) + r * y
  {
    assert r * (s * k) == s * (r * k);
  }

  lemma Expand(s: int, a: int, b: int)
    ensures s * (a + b) == s * a + s * b
  {
  }

  lemma Scale(s: int, m: int, r: int)
    requires 0 <= s && 0 <= m < r
    ensures 0 <= s * m && s * m + r <= r * (s + 1)
  {
    assert s * m <= s * r;
  }

  // One call never lets more through than the host time that passed, keeps a spill
  // below the ratio, and loses less than one ratio for each whole second and one more.
  lemma PaceOfOneCall(since: Timespec, spill: int, ratio: int)
    requires ratio > 0 && since.sec >= 0 && since.Normal() && spill >= 0
    ensures 0 <= SpillAfter(since, spill, ratio) < ratio
    ensures 0 <= Lost(since, spill, ratio) < ratio * (since.sec + 1)
  {
    LostParts(since, spill, ratio);
    DivMod(SECOND, ratio);
    DivMod(since.nsec + spill, ratio);
    Scale(since.sec, SECOND % ratio, ratio);
  }

  // The documented increment is the host time divided by the ratio. The code drops
  // remainders; it is exact if and only if there are none to drop.
  lemma ExactWhenNothingToDrop(since: Timespec, spill: int, ratio: int)
    requires ratio > 0 && since.sec >= 0 && since.Normal() && spill >= 0
    ensures Lost(since, spill, ratio) == 0 <==>
            (since.sec == 0 || SECOND % ratio == 0)
            && (since.nsec + spill < ratio || (since.nsec + spill) % ratio == 0)
  {
    LostParts(since, spill, ratio);
    if since.sec > 0 && SECOND % ratio > 0 {
      assert since.sec * (SECOND % ratio) > 0;
    }
  }

  // For instance: of three nanoseconds at a ratio of two, one is dropped.
  lemma NanosecondIsDropped()
    ensures Lost(Timespec(0, 3), 0, 2) == 1
  {
    LostParts(Timespec(0, 3), 0, 2);
  }

  // A run of calls at one ratio, at the given host times: simulated time so far,
  // the spill, and a bound on what was lost.
  datatype Pace = Pace(simulated: int, spill: int, slack: int)

  ghost function NextPace(p: Pace, since: Timespec, ratio: int): Pace
    requires ratio > 0
  {
    Pace(p.simulated + Sum(Ticks(since, p.spill, ratio)),
         SpillAfter(since, p.spill, ratio),
         p.slack + ratio * (since.sec + 1))
  }

  ghost predicate OnPace(p: Pace, ratio: int, passed: int) {
    && 0 <= p.spill < ratio
    && ratio * p.simulated + p.spill <= passed <= ratio * p.simulated + p.spill + p.slack
  }

  lemma NextOnPace(p: Pace, since: Timespec, ratio: int, passed: int)
    requires ratio > 0 && since.sec >= 0 && since.Normal()
    requires OnPace(p, ratio, passed)
    ensures OnPace(NextPace(p, since, ratio), ratio, passed + since.Nanoseconds())
  {
    PaceOfOneCall(since, p.spill, ratio);
    Expand(ratio, p.simulated, Sum(Ticks(since, p.spill, ratio)));
  }

  ghost function Since(host: Timespec, last: Timespec): Timespec {
    TimespecSub(host, last)
  }

  ghost function Prev(start: Timespec, hosts: seq<Timespec>, i: nat): Timespec
    requires i <= |hosts|
  {
    if i == 0 then start else hosts[i - 1]
  }

  ghost function PaceRun(start: Timespec, hosts: seq<Timespec>, ratio: int): Pace
    requires ratio > 0
    decreases |hosts|
  {
    if hosts == [] then Pace(0, 0, 0)
    else
      var n := |hosts| - 1;
      NextPace(PaceRun(start, hosts[..n], ratio), Since(hosts[n], Prev(start, hosts, n)), ratio)
  }

  ghost predicate HostClock(start: Timespec, hosts: seq<Timespec>) {
    && start.Normal()
    && (forall i :: 0 <= i < |hosts| ==> hosts[i].Normal())
    && (forall i :: 0 <= i < |hosts| ==>
          Prev(start, hosts, i).Nanoseconds() <= hosts[i].Nanoseconds())
  }

  lemma SinceForward(host: Timespec, last: Timespec)
    requires host.Normal() && last.Normal() && last.Nanoseconds() <= host.Nanoseconds()
    ensures Since(host, last).Normal() && Since(host, last).sec >= 0
    ensures Since(host, last).Nanoseconds() == host.Nanoseconds() - last.Nanoseconds()
  {
  }

  lemma HostClockPrefix(start: Timespec, hosts: seq<Timespec>)
    requires hosts != [] && HostClock(start, hosts)
    ensures HostClock(start, hosts[..|hosts| - 1])
    ensures Prev(start, hosts[..|hosts| - 1], |hosts| - 1) == Prev(start, hosts, |hosts| - 1)
  {
    var n := |hosts| - 1;
    forall i | 0 <= i <= n ensures Prev(start, hosts[..n], i) == Prev(start, hosts, i) {}
  }

  // Over any run the simulation never gets ahead of the host, and falls behind by no
  // more than the sum of the losses of the calls.
  lemma {:induction false} PaceOfRun(start: Timespec, hosts: seq<Timespec>, ratio: int)
    requires ratio > 0 && HostClock(start, hosts)
    ensures OnPace(PaceRun(start, hosts, ratio), ratio,
                   Prev(start, hosts, |hosts|).Nanoseconds() - start.Nanoseconds())
    decreases |hosts|
  {
    if hosts != [] {
      hide NextPace, OnPace, Since;
      var n := |hosts| - 1;
      HostClockPrefix(start, hosts);
      PaceOfRun(start, hosts[..n], ratio);
      var last := Prev(start, hosts, n);
      SinceForward(hosts[n], last);
      NextOnPace(PaceRun(start, hosts[..n], ratio), Since(hosts[n], last), ratio,
                 last.Nanoseconds() - start.Nanoseconds());
    }
  }

  // The clock and the host time it still owes.
  datatype Paced<W, T> = Paced(moment: Moment<W, T>, spill: int)

  // One call of pass_realtime.
  ghost function Call<W, T>(p: Paced<W, T>, since: Timespec, ratio: int, run: Callback<W, T>): Paced<W, T>
    requires ratio > 0
  {
    Paced(AfterAll(p.moment, Ticks(since, p.spill, ratio), run), SpillAfter(since, p.spill, ratio))
  }

  ghost function Calls<W, T>(p: Paced<W, T>, start: Timespec, hosts: seq<Timespec>, ratio: int,
                              run: Callback<W, T>): Paced<W, T>
    requires ratio > 0
    decreases |hosts|
  {
    if hosts == [] then p
    else
      var n := |hosts| - 1;
      Call(Calls(p, start, hosts[..n], ratio, run), Since(hosts[n], Prev(start, hosts, n)), ratio, run)
  }

  lemma {:induction false} CallsFollowPace<W, T>(p: Paced<W, T>, start: Timespec, hosts: seq<Timespec>, ratio: int,
                                                 run: Callback<W, T>)
    requires ratio > 0 && p.spill == 0
    ensures var e, pace := Calls(p, start, hosts, ratio, run), PaceRun(start, hosts, ratio);
            e.moment.now == p.moment.now + pace.simulated && e.spill == pace.spill
    decreases |hosts|
  {
    if hosts != [] {
      hide Ticks, SpillAfter, AfterAll, Since, Prev;
      var n := |hosts| - 1;
      CallsFollowPace(p, start, hosts[..n], ratio, run);
      var before, since := Calls(p, start, hosts[..n], ratio, run), Since(hosts[n], Prev(start, hosts, n));
      AfterAllTime(before.moment, Ticks(since, before.spill, ratio), run);
    }
  }

  // Over any run of calls, whatever tasks they run, the clock's time and spill never exceed the
  // host time that passed, and lag by no more than the losses of the calls.
  lemma ClockKeepsPace<W, T>(p: Paced<W, T>, start: Timespec, hosts: seq<Timespec>, ratio: int, run: Callback<W, T>)
    requires ratio > 0 && p.spill == 0 && HostClock(start, hosts)
    ensures var e := Calls(p, start, hosts, ratio, run);
            var passed := Prev(start, hosts, |hosts|).Nanoseconds() - start.Nanoseconds();
            var paced := ratio * (e.moment.now - p.moment.now) + e.spill;
            0 <= e.spill < ratio && paced <= passed <= paced + PaceRun(start, hosts, ratio).slack
  {
    hide Calls, PaceRun, HostClock, Prev;
    CallsFollowPace(p, start, hosts, ratio, run);
    PaceOfRun(start, hosts, ratio);
  }
}
