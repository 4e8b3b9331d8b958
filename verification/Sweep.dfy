/**
 Sorting as the C library's qsort promises it: a permutation in key order.  Callers see
 only this contract, so nothing below depends on how equal keys end up.
 */
module Sorting {

  ghost predicate SortedBy<T(!new)>(s: seq<T>, key: T -> real) {
    forall i, j :: 0 <= i < j < |s| ==> key(s[i]) <= key(s[j])
  }

  method QSort<T(!new)>(s: seq<T>, key: T -> real) returns (r: seq<T>)
    ensures SortedBy(r, key) && multiset(r) == multiset(s) && |r| == |s|
  {
    hide SortedBy;
    r := [];
    ShortIsSorted(r, key);
    for i := 0 to |s|
      invariant SortedBy(r, key) && multiset(r) == multiset(s[..i]) && |r| == i
    {
      var k := |r|;
      while k > 0 && key(r[k - 1]) > key(s[i])
        invariant 0 <= k <= |r|
        invariant forall j :: k <= j < |r| ==> key(r[j]) > key(s[i])
      {
        k := k - 1;
      }
      InsertKeeps(r, k, s[i], key);
      assert s[..i + 1] == s[..i] + [s[i]];
      r := r[..k] + [s[i]] + r[k..];
    }
    assert s[..|s|] == s;
  }

  /** What is left of two arrangements of the same elements when one element is taken out of each. */
  lemma RemoveOne<T>(a: seq<T>, l: seq<T>, r: seq<T>, x: T)
    requires multiset(a + [x]) == multiset(l + [x] + r)
    ensures multiset(a) == multiset(l + r)
  {
    assert multiset(a) == multiset(a + [x]) - multiset{x};
    assert multiset(l + r) == multiset(l + [x] + r) - multiset{x};
  }

  lemma ShortIsSorted<T(!new)>(s: seq<T>, key: T -> real)
    requires |s| <= 1
    ensures SortedBy(s, key)
  {
  }

  lemma InsertKeeps<T(!new)>(r: seq<T>, k: nat, x: T, key: T -> real)
    requires SortedBy(r, key) && k <= |r|
    requires k > 0 ==> key(r[k - 1]) <= key(x)
    requires forall j :: k <= j < |r| ==> key(r[j]) > key(x)
    ensures SortedBy(r[..k] + [x] + r[k..], key)
    ensures multiset(r[..k] + [x] + r[k..]) == multiset(r) + multiset{x}
  {
    assert multiset(r[..k] + [x] + r[k..]) == multiset(r) + multiset{x} by {
      hide SortedBy;
      assert r[..k] + r[k..] == r;
    }
    InsertSorted(r, k, x, key);
  }

  lemma InsertSorted<T(!new)>(r: seq<T>, k: nat, x: T, key: T -> real)
    requires SortedBy(r, key) && k <= |r|
    requires k > 0 ==> key(r[k - 1]) <= key(x)
    requires forall j :: k <= j < |r| ==> key(r[j]) > key(x)
    ensures SortedBy(r[..k] + [x] + r[k..], key)
  {
    var q := r[..k] + [x] + r[k..];
    forall i, j | 0 <= i < j < |q| ensures key(q[i]) <= key(q[j]) {
      if i < k && j == k && i < k - 1 { assert key(r[i]) <= key(r[k - 1]); }
    }
  }
}

/**
 The work-conserving invariant of the pool, instant by instant: what invariant_scan is
 meant to measure.
 */
module InvariantDefinition {

  /** The timestamps of one task; `start` is 0 for a task that never started. */
  datatype Record = Record(shard: nat, ready: nat, start: nat, end: nat)

  /** The two things counted. */
  datatype Kind = Waiting | Busy

  function Started(r: Record): bool {
    r.start != 0
  }

  predicate WellFormed(recs: seq<Record>) {
    forall i :: 0 <= i < |recs| && Started(recs[i]) ==> recs[i].ready <= recs[i].start <= recs[i].end
  }

  /** Does the task wait, or keep a worker busy, at instant `t`? */
  predicate CountsAt(r: Record, k: Kind, t: nat) {
    match k
    case Waiting => r.ready <= t < r.start
    case Busy => r.start <= t < r.end
  }

  /** waiting(t) and busy(t). */
  function CountAt(recs: seq<Record>, k: Kind, t: nat): nat {
    if recs == [] then 0
    else
      var r := recs[|recs| - 1];
      CountAt(recs[..|recs| - 1], k, t) + if Started(r) && CountsAt(r, k, t) then 1 else 0
  }

  predicate Violated(recs: seq<Record>, workers: nat, t: nat) {
    CountAt(recs, Waiting, t) > 0 && CountAt(recs, Busy, t) < workers
  }

  datatype Interval = Interval(from: nat, to: nat)

  /** A maximal interval of violated instants. */
  ghost predicate IsEpisode(recs: seq<Record>, workers: nat, e: Interval) {
    && e.from < e.to
    && (forall t :: e.from <= t < e.to ==> Violated(recs, workers, t))
    && !Violated(recs, workers, e.to)
    && (e.from == 0 || !Violated(recs, workers, e.from - 1))
  }

  function LengthUs(e: Interval): real {
    (e.to - e.from) as real / 1000.0
  }

  /** The episodes strictly longer than the window. */
  function Long(es: seq<Interval>, window: real): seq<Interval> {
    if es == [] then []
    else
      var e := es[|es| - 1];
      Long(es[..|es| - 1], window) + if LengthUs(e) > window then [e] else []
  }

  function TotalUs(es: seq<Interval>): real {
    if es == [] then 0.0 else TotalUs(es[..|es| - 1]) + LengthUs(es[|es| - 1])
  }

  /** Positions in ascending order. */
  ghost predicate Rising(idx: seq<nat>) {
    forall j, k :: 0 <= j < k < |idx| ==> idx[j] < idx[k]
  }

  /** `idx` picks the intervals strictly longer than the window: a nanosecond more than 1000 times it counts. */
  ghost predicate PicksLonger(es: seq<Interval>, window: real, idx: seq<nat>) {
    Rising(idx) && forall i: nat :: i in idx <==> i < |es| && es[i].to as real - es[i].from as real > 1000.0 * window
  }

  function SumNs(es: seq<Interval>, idx: seq<nat>): int
    requires forall k :: 0 <= k < |idx| ==> idx[k] < |es|
  {
    if idx == [] then 0
    else SumNs(es, idx[..|idx| - 1]) + es[idx[|idx| - 1]].to - es[idx[|idx| - 1]].from
  }

  /** There are n intervals strictly longer than the window, and they last so many microseconds together. */
  ghost predicate LongerOnes(es: seq<Interval>, window: real, n: nat, totalUs: real) {
    exists idx: seq<nat> ::
      PicksLonger(es, window, idx) && (forall k :: 0 <= k < |idx| ==> idx[k] < |es|)
      && n == |idx| && 1000.0 * totalUs == SumNs(es, idx) as real
  }

  /** The intervals come in order and do not touch. */
  ghost predicate Ordered(es: seq<Interval>) {
    && (forall i :: 0 <= i < |es| ==> es[i].from < es[i].to)
    && (forall i, j :: 0 <= i < j < |es| ==> es[i].to < es[j].from)
  }

  /** `es` lists exactly the episodes, each once, in time order. */
  ghost predicate ListsEpisodes(recs: seq<Record>, workers: nat, es: seq<Interval>) {
    Ordered(es) && forall e :: e in es <==> IsEpisode(recs, workers, e)
  }

  ghost predicate IsEarliestReady(recs: seq<Record>, t: nat) {
    && (exists i :: 0 <= i < |recs| && Started(recs[i]) && recs[i].ready == t)
    && (forall i :: 0 <= i < |recs| && Started(recs[i]) ==> t <= recs[i].ready)
  }

  ghost predicate IsLatestEnd(recs: seq<Record>, t: nat) {
    && (exists i :: 0 <= i < |recs| && Started(recs[i]) && recs[i].end == t)
    && (forall i :: 0 <= i < |recs| && Started(recs[i]) ==> recs[i].end <= t)
  }

  /** The time from the earliest ready to the latest end, in microseconds. */
  ghost predicate IsSpan(recs: seq<Record>, spanUs: real) {
    exists e, l :: IsEarliestReady(recs, e) && IsLatestEnd(recs, l) && spanUs == (l as real - e as real) / 1000.0
  }
}

/**
 invariant_scan: events, sorted, taken tie by tie, with a two-state automaton.
 */
module Sweep {
  import opened Wrappers
  import opened InvariantDefinition
  import opened Sorting

  datatype Event = Event(time: nat, waiting: int, busy: int)

  function EventsOf(r: Record): seq<Event> {
    if Started(r) then [Event(r.ready, 1, 0), Event(r.start, -1, 1), Event(r.end, 0, -1)] else []
  }

  function AllEvents(recs: seq<Record>): seq<Event> {
    if recs == [] then [] else AllEvents(recs[..|recs| - 1]) + EventsOf(recs[|recs| - 1])
  }

  function Delta(e: Event, k: Kind): int {
    if k == Waiting then e.waiting else e.busy
  }

  function DeltaBy(e: Event, k: Kind, t: nat): int {
    if e.time <= t then Delta(e, k) else 0
  }

  /** The events up to and including instant `t`, added up. */
  function SumUpTo(ev: seq<Event>, k: Kind, t: nat): int {
    if ev == [] then 0 else SumUpTo(ev[..|ev| - 1], k, t) + DeltaBy(ev[|ev| - 1], k, t)
  }

  function Sum(ev: seq<Event>, k: Kind): int {
    if ev == [] then 0 else Sum(ev[..|ev| - 1], k) + Delta(ev[|ev| - 1], k)
  }

  lemma SumUpToSnoc(ev: seq<Event>, e: Event, k: Kind, t: nat)
    ensures SumUpTo(ev + [e], k, t) == SumUpTo(ev, k, t) + DeltaBy(e, k, t)
  {
    assert (ev + [e])[..|ev|] == ev;
  }

  lemma SumSnoc(ev: seq<Event>, e: Event, k: Kind)
    ensures Sum(ev + [e], k) == Sum(ev, k) + Delta(e, k)
  {
    assert (ev + [e])[..|ev|] == ev;
  }

  lemma {:induction false} SumUpToConcat(a: seq<Event>, b: seq<Event>, k: Kind, t: nat)
    ensures SumUpTo(a + b, k, t) == SumUpTo(a, k, t) + SumUpTo(b, k, t)
    decreases |b|
  {
    if b == [] {
      assert a + b == a;
    } else {
      var b0, x := b[..|b| - 1], b[|b| - 1];
      assert b == b0 + [x] && a + b == (a + b0) + [x];
      SumUpToConcat(a, b0, k, t);
      SumUpToSnoc(a + b0, x, k, t);
      SumUpToSnoc(b0, x, k, t);
      hide SumUpTo;
    }
  }

  /** Addition does not care about order. */
  lemma {:induction false} SumUpToPermuted(a: seq<Event>, b: seq<Event>, k: Kind, t: nat)
    requires multiset(a) == multiset(b)
    ensures SumUpTo(a, k, t) == SumUpTo(b, k, t)
    decreases |a|
  {
    hide SumUpTo;
    if a == [] {
      assert |b| == |multiset(b)|;
    } else {
      var a0, x := a[..|a| - 1], a[|a| - 1];
      assert a == a0 + [x];
      assert x in multiset(b);
      var i :| 0 <= i < |b| && b[i] == x;
      var l, r := b[..i], b[i + 1..];
      assert b == l + [x] + r;
      RemoveOne(a0, l, r, x);
      SumUpToPermuted(a0, l + r, k, t);
      SumUpToSnoc(a0, x, k, t);
      SumUpToSnoc(l, x, k, t);
      SumUpToConcat(l + [x], r, k, t);
      SumUpToConcat(l, r, k, t);
    }
  }

  lemma NoEvents(ev: seq<Event>, k: Kind, t: nat)
    requires |ev| == 0
    ensures SumUpTo(ev, k, t) == 0 && Sum(ev, k) == 0
  {
  }

  lemma ThreeEvents(ev: seq<Event>, k: Kind, t: nat)
    requires |ev| == 3
    ensures SumUpTo(ev, k, t) == DeltaBy(ev[0], k, t) + DeltaBy(ev[1], k, t) + DeltaBy(ev[2], k, t)
  {
    hide SumUpTo;
    NoEvents(ev[..0], k, t);
    assert ev[..1] == ev[..0] + [ev[0]];
    assert ev[..2] == ev[..1] + [ev[1]];
    assert ev == ev[..2] + [ev[2]];
    SumUpToSnoc(ev[..0], ev[0], k, t);
    SumUpToSnoc(ev[..1], ev[1], k, t);
    SumUpToSnoc(ev[..2], ev[2], k, t);
  }

  /** A task's events up to t add up to whether it counts at t: ready and start bracket the
      wait, start and end the run. */
  lemma OneRecord(r: Record, k: Kind, t: nat)
    requires Started(r) ==> r.ready <= r.start <= r.end
    ensures SumUpTo(EventsOf(r), k, t) == if Started(r) && CountsAt(r, k, t) then 1 else 0
  {
    if Started(r) { ThreeEvents(EventsOf(r), k, t); }
  }

  /** For well-formed records the events up to t add up to what is waiting and busy at t. */
  lemma {:induction false} EventsGiveCounts(recs: seq<Record>, k: Kind, t: nat)
    requires WellFormed(recs)
    ensures SumUpTo(AllEvents(recs), k, t) == CountAt(recs, k, t)
  {
    if recs != [] {
      hide SumUpTo, EventsOf;
      var n := |recs| - 1;
      EventsGiveCounts(recs[..n], k, t);
      SumUpToConcat(AllEvents(recs[..n]), EventsOf(recs[n]), k, t);
      OneRecord(recs[n], k, t);
    }
  }

  ghost predicate InTimeOrder(ev: seq<Event>) {
    forall i, j :: 0 <= i < j < |ev| ==> ev[i].time <= ev[j].time
  }

  /** Between two timestamps of sorted events nothing changes: the load is what has been taken so far. */
  lemma {:induction false} TakenSoFar(ev: seq<Event>, i: nat, k: Kind, t: nat)
    requires InTimeOrder(ev) && i <= |ev|
    requires i > 0 ==> ev[i - 1].time <= t
    requires i < |ev| ==> t < ev[i].time
    ensures SumUpTo(ev, k, t) == Sum(ev[..i], k)
    decreases |ev|
  {
    hide InTimeOrder, SumUpTo, Sum;
    if |ev| == 0 {
      NoEvents(ev, k, t);
      NoEvents(ev[..i], k, t);
    } else {
      var e0, x := ev[..|ev| - 1], ev[|ev| - 1];
      assert ev == e0 + [x];
      OrderOfPrefix(ev, i);
      SumUpToSnoc(e0, x, k, t);
      SumSnoc(e0, x, k);
      if i == |ev| {
        TakenSoFar(e0, |e0|, k, t);
        assert e0[..|e0|] == e0 && ev[..i] == ev;
      } else {
        TakenSoFar(e0, i, k, t);
        assert e0[..i] == ev[..i];
      }
    }
  }

  lemma OrderOfPrefix(ev: seq<Event>, i: nat)
    requires InTimeOrder(ev) && ev != []
    ensures var n := |ev| - 1;
            && InTimeOrder(ev[..n])
            && (n > 0 ==> ev[n - 1].time <= ev[n].time)
            && (i < n ==> ev[i].time <= ev[n].time)
  {
  }

  /** The automaton run over every instant: what the scan would do without skipping. */
  datatype Automaton = Automaton(closed: seq<Interval>, open: Option<nat>)

  function Tick(a: Automaton, t: nat, violated: bool): Automaton {
    match a.open
    case None => if violated then a.(open := Some(t)) else a
    case Some(from) => if violated then a else Automaton(a.closed + [Interval(from, t)], None)
  }

  /** The scan's own test, on the events added up so far. */
  predicate NowViolated(ev: seq<Event>, workers: nat, t: nat) {
    SumUpTo(ev, Waiting, t) > 0 && SumUpTo(ev, Busy, t) < workers
  }

  function Instants(ev: seq<Event>, workers: nat, n: nat): Automaton {
    if n == 0 then Automaton([], None)
    else Tick(Instants(ev, workers, n - 1), n - 1, NowViolated(ev, workers, n - 1))
  }

  lemma {:induction false} OpenWhileViolated(ev: seq<Event>, workers: nat, n: nat)
    requires n > 0
    ensures Instants(ev, workers, n).open.Some? <==> NowViolated(ev, workers, n - 1)
  {
    if n > 1 { OpenWhileViolated(ev, workers, n - 1); }
  }

  /** Instants at which nothing happens do not move the automaton. */
  lemma {:induction false} Skip(ev: seq<Event>, workers: nat, n: nat, m: nat)
    requires n <= m
    requires forall t :: n <= t < m ==> NowViolated(ev, workers, t) == (n > 0 && NowViolated(ev, workers, n - 1))
    ensures Instants(ev, workers, m) == Instants(ev, workers, n)
    decreases m
  {
    if n < m {
      Skip(ev, workers, n, m - 1);
      if n > 0 { OpenWhileViolated(ev, workers, n); }
    }
  }

  datatype Result = Result(violationUs: real, episodes: nat, spanUs: real)

  const Empty := Result(0.0, 0, 0.0)

  /** Just after every event there is. */
  function Horizon(ev: seq<Event>): nat {
    if ev == [] then 0
    else
      var h, e := Horizon(ev[..|ev| - 1]), ev[|ev| - 1];
      if e.time >= h then e.time + 1 else h
  }

  lemma {:induction false} HorizonBound(ev: seq<Event>)
    ensures forall i :: 0 <= i < |ev| ==> ev[i].time < Horizon(ev)
    ensures ev != [] ==> exists i :: 0 <= i < |ev| && ev[i].time + 1 == Horizon(ev)
  {
    if ev != [] {
      var n := |ev| - 1;
      HorizonBound(ev[..n]);
      if ev[n].time >= Horizon(ev[..n]) {
        assert ev[n].time + 1 == Horizon(ev);
      } else {
        assert ev[..n] != [];
        var i :| 0 <= i < n && ev[..n][i].time + 1 == Horizon(ev[..n]);
        assert ev[i].time + 1 == Horizon(ev);
      }
    }
  }

  /** The episodes as the automaton finds them. */
  function Episodes(recs: seq<Record>, workers: nat): seq<Interval> {
    var ev := AllEvents(recs);
    Instants(ev, workers, Horizon(ev)).closed
  }

  /** A maximal interval of instants the scan's test calls violated. */
  ghost predicate IsRun(ev: seq<Event>, workers: nat, e: Interval) {
    && e.from < e.to
    && (forall t :: e.from <= t < e.to ==> NowViolated(ev, workers, t))
    && !NowViolated(ev, workers, e.to)
    && (e.from == 0 || !NowViolated(ev, workers, e.from - 1))
  }

  ghost predicate OpenRight(ev: seq<Event>, workers: nat, n: nat, a: Automaton) {
    match a.open
    case None => n == 0 || !NowViolated(ev, workers, n - 1)
    case Some(from) =>
      && from < n
      && (forall t :: from <= t < n ==> NowViolated(ev, workers, t))
      && (from == 0 || !NowViolated(ev, workers, from - 1))
      && (forall e :: e in a.closed ==> e.to < from)
  }

  /** After n instants the automaton has closed exactly the runs that ended before n, in order. */
  lemma {:induction false} InstantsExact(ev: seq<Event>, workers: nat, n: nat)
    ensures var a := Instants(ev, workers, n);
            && Ordered(a.closed)
            && OpenRight(ev, workers, n, a)
            && (forall e :: e in a.closed <==> IsRun(ev, workers, e) && e.to < n)
  {
    if n > 0 {
      hide NowViolated, Instants, IsRun, OpenRight, Ordered;
      InstantsExact(ev, workers, n - 1);
      InstantsIs(ev, workers, n);
      var a, t := Instants(ev, workers, n - 1), n - 1;
      if a.open.Some? && !NowViolated(ev, workers, t) {
        ClosesOne(ev, workers, n, a);
      } else {
        ClosesNone(ev, workers, n, a);
      }
    } else {
      NothingYet(ev, workers);
    }
  }

  lemma InstantsIs(ev: seq<Event>, workers: nat, n: nat)
    requires n > 0
    ensures Instants(ev, workers, n) == Tick(Instants(ev, workers, n - 1), n - 1, NowViolated(ev, workers, n - 1))
  {
  }

  lemma NothingYet(ev: seq<Event>, workers: nat)
    ensures Instants(ev, workers, 0) == Automaton([], None)
    ensures Ordered([]) && OpenRight(ev, workers, 0, Automaton([], None))
  {
  }

  lemma ClosesOne(ev: seq<Event>, workers: nat, n: nat, a: Automaton)
    requires n > 0 && a.open.Some? && !NowViolated(ev, workers, n - 1)
    requires Ordered(a.closed) && OpenRight(ev, workers, n - 1, a)
    requires forall e :: e in a.closed <==> IsRun(ev, workers, e) && e.to < n - 1
    ensures var closed := a.closed + [Interval(a.open.value, n - 1)];
            && Ordered(closed) && OpenRight(ev, workers, n, Automaton(closed, None))
            && (forall e :: e in closed <==> IsRun(ev, workers, e) && e.to < n)
  {
    hide NowViolated;
    var e := Interval(a.open.value, n - 1);
    assert IsRun(ev, workers, e);
    forall d | IsRun(ev, workers, d) && d.to == n - 1 ensures d == e { SameEnd(ev, workers, d, e); }
  }

  lemma ClosesNone(ev: seq<Event>, workers: nat, n: nat, a: Automaton)
    requires n > 0 && (a.open.None? || NowViolated(ev, workers, n - 1))
    requires Ordered(a.closed) && OpenRight(ev, workers, n - 1, a)
    requires forall e :: e in a.closed <==> IsRun(ev, workers, e) && e.to < n - 1
    ensures OpenRight(ev, workers, n, Tick(a, n - 1, NowViolated(ev, workers, n - 1)))
    ensures forall e :: e in a.closed <==> IsRun(ev, workers, e) && e.to < n
  {
    hide NowViolated, IsRun;
    forall d | IsRun(ev, workers, d) ensures d.to != n - 1 {
      EdgesOfRun(ev, workers, d);
    }
  }

  lemma EdgesOfRun(ev: seq<Event>, workers: nat, d: Interval)
    requires IsRun(ev, workers, d)
    ensures d.from < d.to && NowViolated(ev, workers, d.to - 1) && !NowViolated(ev, workers, d.to)
    ensures d.from == 0 || !NowViolated(ev, workers, d.from - 1)
    ensures forall t: nat :: d.from <= t < d.to ==> NowViolated(ev, workers, t)
  {
  }

  lemma SameEnd(ev: seq<Event>, workers: nat, d: Interval, e: Interval)
    requires IsRun(ev, workers, d) && IsRun(ev, workers, e) && d.to == e.to
    ensures d == e
  {
    hide IsRun, NowViolated;
    EdgesOfRun(ev, workers, d);
    EdgesOfRun(ev, workers, e);
  }

  /** Every task leaves the sums as it found them. */
  lemma {:induction false} AllCancels(recs: seq<Record>, k: Kind, t: nat)
    requires forall i :: 0 <= i < |AllEvents(recs)| ==> AllEvents(recs)[i].time <= t
    ensures SumUpTo(AllEvents(recs), k, t) == 0
  {
    if recs != [] {
      hide SumUpTo, EventsOf;
      var n := |recs| - 1;
      var a, b := AllEvents(recs[..n]), EventsOf(recs[n]);
      assert AllEvents(recs) == a + b;
      forall i | 0 <= i < |a| ensures a[i].time <= t { assert a[i] == (a + b)[i]; }
      AllCancels(recs[..n], k, t);
      SumUpToConcat(a, b, k, t);
      forall i | 0 <= i < |b| ensures b[i].time <= t { assert b[i] == (a + b)[|a| + i]; }
      RecordCancels(recs[n], k, t);
    } else {
      NoEvents(AllEvents(recs), k, t);
    }
  }

  lemma RecordCancels(r: Record, k: Kind, t: nat)
    requires forall i :: 0 <= i < |EventsOf(r)| ==> EventsOf(r)[i].time <= t
    ensures SumUpTo(EventsOf(r), k, t) == 0
  {
    if Started(r) {
      ThreeEvents(EventsOf(r), k, t);
      assert EventsOf(r)[0].time <= t && EventsOf(r)[1].time <= t && EventsOf(r)[2].time <= t;
    } else {
      NoEvents(EventsOf(r), k, t);
    }
  }

  /** Every open episode has closed by the last event, whatever the records. */
  lemma NothingLeftOpen(recs: seq<Record>, workers: nat)
    ensures var ev := AllEvents(recs);
            && Instants(ev, workers, Horizon(ev)).open == None
            && forall e :: IsRun(ev, workers, e) ==> e.to < Horizon(ev)
  {
    var ev := AllEvents(recs);
    HorizonBound(ev);
    forall t: nat | t + 1 >= Horizon(ev) ensures !NowViolated(ev, workers, t) { AllCancels(recs, Waiting, t); }
    InstantsExact(ev, workers, Horizon(ev));
    forall e | IsRun(ev, workers, e) ensures e.to < Horizon(ev) {
      assert NowViolated(ev, workers, e.to - 1);
    }
  }

  /** The automaton's episodes are the definition's: for every well-formed record array and
      worker count, exactly the maximal intervals of violated instants, each once, in order. */
  lemma EpisodesMatchDefinition(recs: seq<Record>, workers: nat)
    requires WellFormed(recs)
    ensures ListsEpisodes(recs, workers, Episodes(recs, workers))
  {
    var ev := AllEvents(recs);
    InstantsExact(ev, workers, Horizon(ev));
    NothingLeftOpen(recs, workers);
    forall t: nat ensures NowViolated(ev, workers, t) == Violated(recs, workers, t) {
      EventsGiveCounts(recs, Waiting, t);
      EventsGiveCounts(recs, Busy, t);
    }
    hide NowViolated, Violated, Instants;
    forall e ensures IsRun(ev, workers, e) <==> IsEpisode(recs, workers, e) {}
  }

  /** The definition leaves no choice. */
  lemma {:induction false} EpisodesUnique(a: seq<Interval>, b: seq<Interval>)
    requires Ordered(a) && Ordered(b) && forall e :: e in a <==> e in b
    ensures a == b
    decreases |a|
  {
    hide Ordered;
    if |a| == 0 {
      FirstIsMember(b);
    } else {
      assert a[|a| - 1] in b;
      var a0, b0, x, y := a[..|a| - 1], b[..|b| - 1], a[|a| - 1], b[|b| - 1];
      assert x in b && y in a;
      LastIsLast(a, y);
      LastIsLast(b, x);
      forall e ensures e in a0 <==> e in b0 {
        NotLast(a, e);
        NotLast(b, e);
      }
      EpisodesUnique(a0, b0);
      assert a == a0 + [x] && b == b0 + [y];
    }
  }

  lemma FirstIsMember(b: seq<Interval>)
    ensures b == [] || b[0] in b
  {
  }

  lemma LastIsLast(a: seq<Interval>, e: Interval)
    requires Ordered(a) && e in a
    ensures e == a[|a| - 1] || e.to < a[|a| - 1].from
    ensures e.from < e.to && a[|a| - 1].from < a[|a| - 1].to && Ordered(a[..|a| - 1])
  {
    var i :| 0 <= i < |a| && a[i] == e;
  }

  lemma NotLast(a: seq<Interval>, e: Interval)
    requires Ordered(a) && a != []
    ensures e in a[..|a| - 1] <==> e in a && e != a[|a| - 1]
  {
    if e in a && e != a[|a| - 1] {
      var i :| 0 <= i < |a| && a[i] == e;
      assert a[..|a| - 1][i] == e;
    }
  }

  lemma {:induction false} InstantsPermuted(a: seq<Event>, b: seq<Event>, workers: nat, n: nat)
    requires multiset(a) == multiset(b)
    ensures Instants(a, workers, n) == Instants(b, workers, n)
  {
    if n > 0 {
      InstantsPermuted(a, b, workers, n - 1);
      SumUpToPermuted(a, b, Waiting, n - 1);
      SumUpToPermuted(a, b, Busy, n - 1);
    }
  }

  lemma HorizonPermuted(a: seq<Event>, b: seq<Event>)
    requires multiset(a) == multiset(b)
    ensures Horizon(a) == Horizon(b)
  {
    HorizonBound(a);
    HorizonBound(b);
    assert forall e :: e in a <==> e in multiset(a);
    assert forall e :: e in b <==> e in multiset(b);
    assert |a| == |multiset(a)| == |multiset(b)| == |b|;
    if a != [] {
      var i :| 0 <= i < |a| && a[i].time + 1 == Horizon(a);
      assert a[i] in b;
      var j :| 0 <= j < |b| && b[j].time + 1 == Horizon(b);
      assert b[j] in a;
    }
  }

  /** What one tie group does: the automaton moves from just after the previous timestamp
      to just after this one, by one tick on the sums taken so far. */
  lemma GroupStep(ev: seq<Event>, workers: nat, n: nat, i: nat, i': nat)
    requires InTimeOrder(ev) && i < i' <= |ev|
    requires n == if i == 0 then 0 else ev[i - 1].time + 1
    requires n <= ev[i].time && ev[i' - 1].time == ev[i].time
    requires i' < |ev| ==> ev[i].time < ev[i'].time
    ensures var t := ev[i].time;
            && NowViolated(ev, workers, t) == (Sum(ev[..i'], Waiting) > 0 && Sum(ev[..i'], Busy) < workers)
            && Instants(ev, workers, t + 1) == Tick(Instants(ev, workers, n), t, NowViolated(ev, workers, t))
  {
    hide SumUpTo, Sum, InTimeOrder;
    var t := ev[i].time;
    TakenSoFar(ev, i', Waiting, t);
    TakenSoFar(ev, i', Busy, t);
    forall u | n <= u < t ensures NowViolated(ev, workers, u) == (n > 0 && NowViolated(ev, workers, n - 1)) {
      TakenSoFar(ev, i, Waiting, u);
      TakenSoFar(ev, i, Busy, u);
      if i > 0 {
        TakenSoFar(ev, i, Waiting, n - 1);
        TakenSoFar(ev, i, Busy, n - 1);
      } else {
        NoEvents(ev[..i], Waiting, u);
      }
    }
    Skip(ev, workers, n, t);
  }

  lemma LongSnoc(es: seq<Interval>, e: Interval, window: real)
    ensures Long(es + [e], window) == if LengthUs(e) > window then Long(es, window) + [e] else Long(es, window)
    ensures TotalUs(es + [e]) == TotalUs(es) + LengthUs(e)
  {
    assert (es + [e])[..|es|] == es;
  }

  /** The sorted events taken tie by tie. */
  method SweepEvents(ev: seq<Event>, workers: nat, window: real) returns (episodes: nat, violationUs: real)
    requires InTimeOrder(ev) && ev != []
    ensures var es := Long(Instants(ev, workers, ev[|ev| - 1].time + 1).closed, window);
            episodes == |es| && violationUs == TotalUs(es)
  {
    hide NowViolated, SumUpTo, Sum, Long, TotalUs;
    episodes, violationUs := 0, 0.0;
    var waiting, busy := 0, 0;
    var inEpisode, episodeStart := false, 0;
    ghost var n := 0;
    var i := 0;
    NoEvents(ev[..i], Waiting, 0);
    NoEvents(ev[..i], Busy, 0);
    NoIntervals(Instants(ev, workers, n).closed, window);
    while i < |ev|
      invariant 0 <= i <= |ev|
      invariant n == if i == 0 then 0 else ev[i - 1].time + 1
      invariant i < |ev| ==> n <= ev[i].time
      invariant waiting == Sum(ev[..i], Waiting) && busy == Sum(ev[..i], Busy)
      invariant Instants(ev, workers, n).open == if inEpisode then Some(episodeStart) else None
      invariant episodes == |Long(Instants(ev, workers, n).closed, window)|
      invariant violationUs == TotalUs(Long(Instants(ev, workers, n).closed, window))
    {
      var time := ev[i].time;
      ghost var i0 := i;
      waiting, busy, i := TakeGroup(ev, i, waiting, busy);
      GroupStep(ev, workers, n, i0, i);
      var nowViolated := waiting > 0 && busy < workers;
      ghost var before := Instants(ev, workers, n);
      if inEpisode && !nowViolated {
        StartedBefore(ev, workers, n);
        var durationUs := (time as real - episodeStart as real) / 1000.0;
        ghost var e := Interval(episodeStart, time);
        assert durationUs == LengthUs(e);
        LongSnoc(before.closed, e, window);
        LongSnoc(Long(before.closed, window), e, window);
        if durationUs > window {
          episodes := episodes + 1;
          violationUs := violationUs + durationUs;
        }
        assert violationUs == TotalUs(Long(before.closed + [e], window));
      } else if !inEpisode && nowViolated {
        episodeStart := time;
      }
      inEpisode := nowViolated;
      n := time + 1;
    }
  }

  /** The inner loop: every event at the timestamp of event `from`. */
  method TakeGroup(ev: seq<Event>, from: nat, waiting0: int, busy0: int) returns (waiting: int, busy: int, i: nat)
    requires InTimeOrder(ev) && from < |ev|
    requires waiting0 == Sum(ev[..from], Waiting) && busy0 == Sum(ev[..from], Busy)
    ensures from < i <= |ev| && ev[i - 1].time == ev[from].time
    ensures i < |ev| ==> ev[from].time < ev[i].time
    ensures waiting == Sum(ev[..i], Waiting) && busy == Sum(ev[..i], Busy)
  {
    hide Sum;
    waiting, busy, i := waiting0 + ev[from].waiting, busy0 + ev[from].busy, from + 1;
    assert ev[..i] == ev[..from] + [ev[from]];
    SumSnoc(ev[..from], ev[from], Waiting);
    SumSnoc(ev[..from], ev[from], Busy);
    while i < |ev| && ev[i].time == ev[from].time
      invariant from < i <= |ev| && ev[i - 1].time == ev[from].time
      invariant waiting == Sum(ev[..i], Waiting) && busy == Sum(ev[..i], Busy)
    {
      assert ev[..i + 1] == ev[..i] + [ev[i]];
      SumSnoc(ev[..i], ev[i], Waiting);
      SumSnoc(ev[..i], ev[i], Busy);
      waiting, busy, i := waiting + ev[i].waiting, busy + ev[i].busy, i + 1;
    }
  }

  lemma StartedBefore(ev: seq<Event>, workers: nat, n: nat)
    requires Instants(ev, workers, n).open.Some?
    ensures Instants(ev, workers, n).open.value < n
  {
    InstantsExact(ev, workers, n);
  }

  lemma NoIntervals(es: seq<Interval>, window: real)
    requires |es| == 0
    ensures |Long(es, window)| == 0 && TotalUs(Long(es, window)) == 0.0
  {
  }

  /** The positions picked account for what Long keeps. */
  ghost predicate Accounts(es: seq<Interval>, window: real, idx: seq<nat>) {
    && PicksLonger(es, window, idx) && (forall k :: 0 <= k < |idx| ==> idx[k] < |es|)
    && |Long(es, window)| == |idx| && 1000.0 * TotalUs(Long(es, window)) == SumNs(es, idx) as real
  }

  lemma AccountsSnoc(es: seq<Interval>, e: Interval, window: real, idx: seq<nat>)
    requires Accounts(es, window, idx)
    ensures Accounts(es + [e], window, if LengthUs(e) > window then idx + [|es|] else idx)
  {
    hide PicksLonger, Long, TotalUs, SumNs;
    PicksLongerSnoc(es, e, window, idx);
    LongSnoc(es, e, window);
    LongSnoc(Long(es, window), e, window);
    SumNsKept(es, e, idx);
    SumNsSnoc(es + [e], idx, |es|);
  }

  lemma AccountsNone(es: seq<Interval>, window: real, none: seq<nat>)
    requires |es| == |none| == 0
    ensures Accounts(es, window, none)
  {
    NoIntervals(es, window);
  }

  lemma SumNsSnoc(es: seq<Interval>, idx: seq<nat>, i: nat)
    requires i < |es| && forall k :: 0 <= k < |idx| ==> idx[k] < |es|
    ensures SumNs(es, idx + [i]) == SumNs(es, idx) + es[i].to - es[i].from
  {
    assert (idx + [i])[..|idx|] == idx;
  }

  lemma {:induction false} LongAreLonger(es: seq<Interval>, window: real) returns (idx: seq<nat>)
    ensures Accounts(es, window, idx)
  {
    hide Accounts, LengthUs;
    idx := [];
    if |es| == 0 {
      AccountsNone(es, window, idx);
    } else {
      var es0, e := es[..|es| - 1], es[|es| - 1];
      assert es == es0 + [e];
      idx := LongAreLonger(es0, window);
      AccountsSnoc(es0, e, window, idx);
      if LengthUs(e) > window { idx := idx + [|es0|]; }
    }
  }

  lemma LongerListed(es: seq<Interval>, window: real)
    ensures LongerOnes(es, window, |Long(es, window)|, TotalUs(Long(es, window)))
  {
    hide Long, TotalUs, PicksLonger, SumNs;
    var idx := LongAreLonger(es, window);
  }

  lemma PicksLongerSnoc(es: seq<Interval>, e: Interval, window: real, idx: seq<nat>)
    requires PicksLonger(es, window, idx)
    ensures PicksLonger(es + [e], window, if LengthUs(e) > window then idx + [|es|] else idx)
  {
    var more := if LengthUs(e) > window then idx + [|es|] else idx;
    assert forall k :: 0 <= k < |idx| ==> idx[k] in idx;
    forall i: nat
      ensures i in more <==> i < |es + [e]| && (es + [e])[i].to as real - (es + [e])[i].from as real > 1000.0 * window
    {
      assert i in more <==> i in idx || (LengthUs(e) > window && i == |es|);
    }
  }

  lemma {:induction false} SumNsKept(es: seq<Interval>, e: Interval, idx: seq<nat>)
    requires forall k :: 0 <= k < |idx| ==> idx[k] < |es|
    ensures SumNs(es + [e], idx) == SumNs(es, idx)
  {
    if idx != [] { SumNsKept(es, e, idx[..|idx| - 1]); }
  }

  /** invariant_scan.  Nothing is required of the records; with no started record every field is 0. */
  method InvariantScan(recs: seq<Record>, workers: nat, minEpisodeUs: real) returns (out: Result)
    ensures NoneStarted(recs) ==> out == Result(0.0, 0, 0.0)
    ensures LongerOnes(Episodes(recs, workers), minEpisodeUs, out.episodes, out.violationUs)
    ensures !NoneStarted(recs) ==> IsSpan(recs, out.spanUs)
    ensures out.episodes == |Long(Episodes(recs, workers), minEpisodeUs)|
    ensures out.violationUs == TotalUs(Long(Episodes(recs, workers), minEpisodeUs))
    ensures WellFormed(recs) ==> ListsEpisodes(recs, workers, Episodes(recs, workers))
  {
    hide Long, TotalUs, Instants, ListsEpisodes, SumUpTo, NowViolated, LongerOnes;
    out := Empty;
    LongerListed(Episodes(recs, workers), minEpisodeUs);
    if WellFormed(recs) { EpisodesMatchDefinition(recs, workers); }
    var started, earliest, latest, events := Gather(recs);
    if started == 0 {
      NoEpisodes(recs, workers, minEpisodeUs);
      return;
    }
    var key := (e: Event) => e.time as real;
    var sorted := QSort(events, key);
    SortedIsOrdered(sorted, key);
    var episodes, violationUs := SweepEvents(sorted, workers, minEpisodeUs);
    out := Result(violationUs, episodes, (latest as real - earliest as real) / 1000.0);
    LastIsHorizon(sorted);
    HorizonPermuted(sorted, events);
    InstantsPermuted(sorted, events, workers, Horizon(events));
  }

  /** The two passes over the records: the bounds of the span, and the events. */
  method Gather(recs: seq<Record>) returns (started: nat, earliest: nat, latest: nat, events: seq<Event>)
    ensures started == 0 <==> NoneStarted(recs)
    ensures started > 0 ==> IsEarliestReady(recs, earliest) && IsLatestEnd(recs, latest)
    ensures events == AllEvents(recs) && |events| == 3 * started
  {
    hide IsEarliestReady, IsLatestEnd, Started;
    started, earliest, latest, events := 0, 0, 0, [];
    for i := 0 to |recs|
      invariant started == 0 <==> NoneStarted(recs[..i])
      invariant started > 0 ==> IsEarliestReady(recs[..i], earliest) && IsLatestEnd(recs[..i], latest)
      invariant events == AllEvents(recs[..i]) && |events| == 3 * started
    {
      var r := recs[i];
      assert recs[..i + 1] == recs[..i] + [r];
      Extremes(recs[..i], r, earliest, latest);
      RecordsConcat(recs[..i], r);
      NoneStartedSnoc(recs[..i], r);
      if Started(r) {
        events := events + [Event(r.ready, 1, 0), Event(r.start, -1, 1), Event(r.end, 0, -1)];
        if started == 0 || r.ready < earliest { earliest := r.ready; }
        if started == 0 || r.end > latest { latest := r.end; }
        started := started + 1;
      }
    }
    assert recs[..|recs|] == recs;
  }

  predicate NoneStarted(recs: seq<Record>) {
    forall i :: 0 <= i < |recs| ==> !Started(recs[i])
  }

  lemma NoneStartedSnoc(recs: seq<Record>, r: Record)
    ensures NoneStarted(recs + [r]) <==> NoneStarted(recs) && !Started(r)
  {
    assert (recs + [r])[|recs|] == r;
    assert forall i :: 0 <= i < |recs| ==> (recs + [r])[i] == recs[i];
  }

  lemma Extremes(recs: seq<Record>, r: Record, e: nat, l: nat)
    ensures IsEarliestReady(recs, e) ==>
              IsEarliestReady(recs + [r], if Started(r) && r.ready < e then r.ready else e)
    ensures IsLatestEnd(recs, l) ==> IsLatestEnd(recs + [r], if Started(r) && r.end > l then r.end else l)
    ensures Started(r) && NoneStarted(recs) ==>
              IsEarliestReady(recs + [r], r.ready) && IsLatestEnd(recs + [r], r.end)
  {
    var q := recs + [r];
    assert q[|recs|] == r;
    if IsEarliestReady(recs, e) {
      var i :| 0 <= i < |recs| && Started(recs[i]) && recs[i].ready == e;
      assert q[i] == recs[i];
    }
    if IsLatestEnd(recs, l) {
      var i :| 0 <= i < |recs| && Started(recs[i]) && recs[i].end == l;
      assert q[i] == recs[i];
    }
  }

  lemma NoEpisodes(recs: seq<Record>, workers: nat, window: real)
    requires AllEvents(recs) == []
    ensures |Long(Episodes(recs, workers), window)| == 0 && TotalUs(Long(Episodes(recs, workers), window)) == 0.0
  {
    NoIntervals(Episodes(recs, workers), window);
  }

  lemma SortedIsOrdered(ev: seq<Event>, key: Event -> real)
    requires SortedBy(ev, key) && forall e :: key(e) == e.time as real
    ensures InTimeOrder(ev)
  {
    forall i, j | 0 <= i < j < |ev| ensures ev[i].time <= ev[j].time {
      assert key(ev[i]) <= key(ev[j]);
    }
  }

  lemma LastIsHorizon(ev: seq<Event>)
    requires InTimeOrder(ev) && ev != []
    ensures Horizon(ev) == ev[|ev| - 1].time + 1
  {
    HorizonBound(ev);
  }

  lemma RecordsConcat(a: seq<Record>, r: Record)
    ensures AllEvents(a + [r]) == AllEvents(a) + EventsOf(r)
  {
    assert (a + [r])[..|a|] == a;
  }

  lemma {:induction false} EventsConcat(a: seq<Record>, b: seq<Record>)
    ensures AllEvents(a + b) == AllEvents(a) + AllEvents(b)
    decreases |b|
  {
    hide EventsOf;
    if b == [] {
      assert a + b == a;
    } else {
      var b0, r := b[..|b| - 1], b[|b| - 1];
      assert a + b == (a + b0) + [r];
      EventsConcat(a, b0);
      RecordsConcat(a + b0, r);
    }
  }

  lemma {:induction false} EventsPermuted(a: seq<Record>, b: seq<Record>)
    requires multiset(a) == multiset(b)
    ensures multiset(AllEvents(a)) == multiset(AllEvents(b))
    decreases |a|
  {
    hide EventsOf, AllEvents;
    if |a| == 0 {
      assert |b| == |multiset(b)|;
      assert a == b;
    } else {
      var a0, x := a[..|a| - 1], a[|a| - 1];
      assert a == a0 + [x];
      assert x in multiset(b);
      var i :| 0 <= i < |b| && b[i] == x;
      var l, r := b[..i], b[i + 1..];
      assert b == l + [x] + r;
      assert multiset(a0) == multiset(l + r) by {
        assert multiset(a0) == multiset(a) - multiset{x};
        assert multiset(l + r) == multiset(l + [x] + r) - multiset{x};
      }
      EventsPermuted(a0, l + r);
      RecordsConcat(a0, x);
      RecordsConcat(l, x);
      EventsConcat(l + [x], r);
      EventsConcat(l, r);
    }
  }

  lemma SameRecords(a: seq<Record>, b: seq<Record>)
    requires multiset(a) == multiset(b)
    ensures forall r :: r in a <==> r in b
  {
    forall r ensures r in a <==> r in b {
      assert r in a <==> r in multiset(a);
      assert r in b <==> r in multiset(b);
    }
  }

  /** Every record of one array is in the other: what one bounds, the other does. */
  lemma ExtremesCarryOver(a: seq<Record>, b: seq<Record>, t: nat)
    requires forall r :: r in a <==> r in b
    ensures IsEarliestReady(a, t) ==> IsEarliestReady(b, t)
    ensures IsLatestEnd(a, t) ==> IsLatestEnd(b, t)
    ensures NoneStarted(a) ==> NoneStarted(b)
  {
    if IsEarliestReady(a, t) {
      var i :| 0 <= i < |a| && Started(a[i]) && a[i].ready == t;
      assert a[i] in b;
    }
    if IsLatestEnd(a, t) {
      var i :| 0 <= i < |a| && Started(a[i]) && a[i].end == t;
      assert a[i] in b;
    }
    assert forall j :: 0 <= j < |b| ==> b[j] in a;
  }

  /** The answer does not depend on the order of the records, nor - sorting being known by its
      contract alone - on how ties are broken: episodes, span and "nothing started" are the same. */
  lemma OrderIrrelevant(a: seq<Record>, b: seq<Record>, workers: nat)
    requires multiset(a) == multiset(b)
    ensures Episodes(a, workers) == Episodes(b, workers)
    ensures forall spanUs :: IsSpan(a, spanUs) <==> IsSpan(b, spanUs)
    ensures NoneStarted(a) <==> NoneStarted(b)
  {
    SameRecords(a, b);
    forall t: nat
      ensures (IsEarliestReady(a, t) <==> IsEarliestReady(b, t)) && (IsLatestEnd(a, t) <==> IsLatestEnd(b, t))
    {
      ExtremesCarryOver(a, b, t);
      ExtremesCarryOver(b, a, t);
    }
    ExtremesCarryOver(a, b, 0);
    ExtremesCarryOver(b, a, 0);
    hide IsEarliestReady, IsLatestEnd, NoneStarted, Episodes;
    EpisodesPermuted(a, b, workers);
  }

  lemma EpisodesPermuted(a: seq<Record>, b: seq<Record>, workers: nat)
    requires multiset(a) == multiset(b)
    ensures Episodes(a, workers) == Episodes(b, workers)
  {
    EventsPermuted(a, b);
    HorizonPermuted(AllEvents(a), AllEvents(b));
    InstantsPermuted(AllEvents(a), AllEvents(b), workers, Horizon(AllEvents(a)));
  }

  /** Raising the window never raises the number of episodes counted or their total length. */
  lemma {:induction false} WiderWindow(es: seq<Interval>, window: real, wider: real)
    requires Ordered(es) && window <= wider
    ensures |Long(es, wider)| <= |Long(es, window)|
    ensures TotalUs(Long(es, wider)) <= TotalUs(Long(es, window))
  {
    if |es| == 0 {
      NoIntervals(es, window);
      NoIntervals(es, wider);
    } else {
      hide Long, TotalUs;
      var es0, e := es[..|es| - 1], es[|es| - 1];
      assert es == es0 + [e];
      WiderWindow(es0, window, wider);
      LongSnoc(es0, e, window);
      LongSnoc(es0, e, wider);
      LongSnoc(Long(es0, window), e, window);
      LongSnoc(Long(es0, wider), e, window);
    }
  }

  /** More workers: every episode of the smaller pool lies inside one of the larger pool. */
  lemma {:induction false} MoreWorkers(recs: seq<Record>, workers: nat, more: nat, e: Interval) returns (d: Interval)
    requires WellFormed(recs) && workers <= more && IsEpisode(recs, workers, e)
    ensures IsEpisode(recs, more, d) && d.from <= e.from && e.to <= d.to
  {
    hide CountAt;
    var from: nat, to: nat := e.from, e.to;
    assert forall t: nat :: from <= t < to ==> Violated(recs, workers, t);
    forall t: nat | from <= t < to ensures Violated(recs, more, t) {
      assert Violated(recs, workers, t);
    }
    while from > 0 && Violated(recs, more, from - 1)
      invariant from <= e.from
      invariant forall t: nat :: from <= t < e.to ==> Violated(recs, more, t)
    {
      from := from - 1;
    }
    var h := Horizon(AllEvents(recs));
    while to < h && Violated(recs, more, to)
      invariant e.to <= to && from < to
      invariant forall t: nat :: from <= t < to ==> Violated(recs, more, t)
    {
      to := to + 1;
    }
    if Violated(recs, more, to) { QuietAfterHorizon(recs, more, to); }
    d := Interval(from, to);
  }

  lemma QuietAfterHorizon(recs: seq<Record>, workers: nat, t: nat)
    requires WellFormed(recs) && t >= Horizon(AllEvents(recs))
    ensures !Violated(recs, workers, t)
  {
    HorizonBound(AllEvents(recs));
    AllCancels(recs, Waiting, t);
    EventsGiveCounts(recs, Waiting, t);
  }

  /** Something is waiting at a violated instant, so it lies inside the span. */
  lemma {:induction false} ViolatedInsideSpan(recs: seq<Record>, t: nat)
    requires WellFormed(recs) && CountAt(recs, Waiting, t) > 0
    ensures exists i :: 0 <= i < |recs| && Started(recs[i]) && recs[i].ready <= t < recs[i].end
  {
    var n := |recs| - 1;
    if Started(recs[n]) && CountsAt(recs[n], Waiting, t) {
      assert recs[n].ready <= t < recs[n].end;
    } else {
      ViolatedInsideSpan(recs[..n], t);
      var i :| 0 <= i < n && Started(recs[..n][i]) && recs[..n][i].ready <= t < recs[..n][i].end;
      assert recs[i].ready <= t < recs[i].end;
    }
  }

  lemma {:induction false} DisjointIntervalsFit(es: seq<Interval>, lo: nat, hi: nat)
    requires Ordered(es) && lo <= hi
    requires forall i :: 0 <= i < |es| ==> lo <= es[i].from && es[i].to <= hi
    ensures TotalUs(es) <= (hi as real - lo as real) / 1000.0
    decreases |es|
  {
    if |es| == 0 {
      NoIntervals(es, 0.0);
      assert TotalUs(es) == 0.0;
    } else {
      hide TotalUs;
      var es0, e := es[..|es| - 1], es[|es| - 1];
      assert es == es0 + [e];
      LongSnoc(es0, e, 0.0);
      DisjointIntervalsFit(es0, lo, e.from);
    }
  }

  lemma {:induction false} LongIsPart(es: seq<Interval>, window: real)
    requires Ordered(es)
    ensures TotalUs(Long(es, window)) <= TotalUs(es)
    ensures 0.0 <= TotalUs(Long(es, window))
  {
    if |es| == 0 {
      NoIntervals(es, window);
    } else {
      hide Long, TotalUs;
      var es0, e := es[..|es| - 1], es[|es| - 1];
      assert es == es0 + [e];
      LongIsPart(es0, window);
      LongSnoc(es0, e, window);
      LongSnoc(Long(es0, window), e, window);
    }
  }

  /** The measured violation fits in the span, so the fraction of the summary is in [0, 1]. */
  lemma ViolationWithinSpan(recs: seq<Record>, workers: nat, window: real, e: nat, l: nat)
    requires WellFormed(recs) && IsEarliestReady(recs, e) && IsLatestEnd(recs, l)
    ensures 0.0 <= TotalUs(Long(Episodes(recs, workers), window)) <= (l as real - e as real) / 1000.0
  {
    var es := Episodes(recs, workers);
    EpisodesMatchDefinition(recs, workers);
    forall i | 0 <= i < |es| ensures e <= es[i].from && es[i].to <= l {
      assert es[i] in es;
      assert IsEpisode(recs, workers, es[i]);
      assert Violated(recs, workers, es[i].from) && Violated(recs, workers, es[i].to - 1);
      ViolatedInsideSpan(recs, es[i].from);
      ViolatedInsideSpan(recs, es[i].to - 1);
    }
    hide Episodes;
    var i :| 0 <= i < |recs| && Started(recs[i]) && recs[i].ready == e;
    assert recs[i].end <= l;
    DisjointIntervalsFit(es, e, l);
    LongIsPart(es, window);
  }
}
