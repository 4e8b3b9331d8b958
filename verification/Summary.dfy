/**
 The order statistics of the audit: median, spread, the bug-length rule and the summary.
 */
module Medians {
  import opened Sorting

  function Below(x: real, c: real): nat {
    if x < c then 1 else 0
  }

  function CountBelow(v: seq<real>, c: real): nat {
    if v == [] then 0 else CountBelow(v[..|v| - 1], c) + Below(v[|v| - 1], c)
  }

  function CountAbove(v: seq<real>, c: real): nat {
    if v == [] then 0 else CountAbove(v[..|v| - 1], c) + Below(c, v[|v| - 1])
  }

  ghost predicate Ascending(s: seq<real>) {
    forall i, j :: 0 <= i < j < |s| ==> s[i] <= s[j]
  }

  function Low(s: seq<real>): real
    requires s != []
  {
    s[(|s| - 1) / 2]
  }

  function High(s: seq<real>): real
    requires s != []
  {
    s[|s| / 2]
  }

  ghost predicate Arranged(v: seq<real>, s: seq<real>) {
    Ascending(s) && multiset(s) == multiset(v) && |s| == |v|
  }

  /** The middle value once sorted, or the average of the two middle values. */
  ghost predicate IsMedian(v: seq<real>, m: real) {
    v != [] && exists s :: Arranged(v, s) && m == (Low(s) + High(s)) / 2.0
  }

  lemma CountSnoc(v: seq<real>, x: real, c: real)
    ensures CountBelow(v + [x], c) == CountBelow(v, c) + Below(x, c)
    ensures CountAbove(v + [x], c) == CountAbove(v, c) + Below(c, x)
  {
    assert (v + [x])[..|v|] == v;
  }

  lemma {:induction false} CountConcat(a: seq<real>, b: seq<real>, c: real)
    ensures CountBelow(a + b, c) == CountBelow(a, c) + CountBelow(b, c)
    ensures CountAbove(a + b, c) == CountAbove(a, c) + CountAbove(b, c)
    decreases |b|
  {
    if |b| == 0 {
      assert a + b == a;
    } else {
      hide CountBelow, CountAbove;
      var b0, x := b[..|b| - 1], b[|b| - 1];
      assert b == b0 + [x] && a + b == (a + b0) + [x];
      CountConcat(a, b0, c);
      CountSnoc(a + b0, x, c);
      CountSnoc(b0, x, c);
    }
  }

  lemma {:induction false} CountPermuted(a: seq<real>, b: seq<real>, c: real)
    requires multiset(a) == multiset(b)
    ensures CountBelow(a, c) == CountBelow(b, c) && CountAbove(a, c) == CountAbove(b, c)
    decreases |a|
  {
    hide CountBelow, CountAbove;
    if |a| == 0 {
      assert |b| == |multiset(b)|;
      assert a == b;
    } else {
      var a0, x := a[..|a| - 1], a[|a| - 1];
      assert a == a0 + [x];
      assert x in multiset(b);
      var i :| 0 <= i < |b| && b[i] == x;
      var l, r := b[..i], b[i + 1..];
      assert b == l + [x] + r;
      RemoveOne(a0, l, r, x);
      CountPermuted(a0, l + r, c);
      CountSnoc(a0, x, c);
      CountSnoc(l, x, c);
      CountConcat(l + [x], r, c);
      CountConcat(l, r, c);
    }
  }

  /** Position and count are two views of one thing: in a sorted sequence the element at k
      is at least c exactly when at most k elements are below c, and likewise above. */
  lemma {:induction false} PositionIsCount(s: seq<real>, k: nat, c: real)
    requires Ascending(s) && k < |s|
    ensures s[k] >= c <==> CountBelow(s, c) <= k
    ensures s[k] <= c <==> CountAbove(s, c) <= |s| - 1 - k
    decreases |s|
  {
    var s0, x := s[..|s| - 1], s[|s| - 1];
    assert s == s0 + [x];
    AscendingSnoc(s0, x);
    hide CountBelow, CountAbove, Ascending;
    CountSnoc(s0, x, c);
    CountLimits(s0, c);
    if k < |s0| {
      assert s0[k] == s[k] && s[k] <= x;
      PositionIsCount(s0, k, c);
    }
  }

  lemma AscendingSnoc(s: seq<real>, x: real)
    requires Ascending(s + [x])
    ensures Ascending(s) && forall i :: 0 <= i < |s| ==> s[i] <= x
  {
    var u := s + [x];
    assert forall i :: 0 <= i < |s| ==> s[i] == u[i];
    assert u[|s|] == x;
  }

  lemma {:induction false} CountLimits(s: seq<real>, c: real)
    requires Ascending(s)
    ensures CountBelow(s, c) <= |s| && CountAbove(s, c) <= |s|
    ensures s != [] && s[|s| - 1] < c ==> CountBelow(s, c) == |s|
    ensures s != [] && s[|s| - 1] <= c ==> CountAbove(s, c) == 0
  {
    if |s| > 0 {
      var s0, x := s[..|s| - 1], s[|s| - 1];
      assert s == s0 + [x] && Ascending(s0);
      CountLimits(s0, c);
      CountSnoc(s0, x, c);
      hide CountBelow, CountAbove;
      if |s0| > 0 { assert s0[|s0| - 1] <= x; }
    }
  }

  /** Sorting leaves no choice, so the median is determined. */
  lemma {:induction false} SortedUnique(a: seq<real>, b: seq<real>)
    requires Ascending(a) && Ascending(b) && multiset(a) == multiset(b) && |a| == |b|
    ensures a == b
  {
    forall k | 0 <= k < |a| ensures a[k] == b[k] {
      CountPermuted(a, b, a[k]);
      PositionIsCount(a, k, a[k]);
      PositionIsCount(b, k, a[k]);
    }
  }

  lemma MedianUnique(v: seq<real>, m: real, n: real)
    requires IsMedian(v, m) && IsMedian(v, n)
    ensures m == n
  {
    var s :| Arranged(v, s) && m == (Low(s) + High(s)) / 2.0;
    var t :| Arranged(v, t) && n == (Low(t) + High(t)) / 2.0;
    SortedUnique(s, t);
  }

  /** The k-th of the values in ascending order: one of them, with at most k below it and no more above
      it than there are places after. */
  ghost predicate IsNth(v: seq<real>, k: nat, x: real) {
    x in v && CountBelow(v, x) <= k && CountAbove(v, x) + k + 1 <= |v|
  }

  /** The middle value when their number is odd, the mean of the two middle values when it is even. */
  lemma MedianIsMiddle(v: seq<real>, m: real) returns (a: real, b: real)
    requires IsMedian(v, m)
    ensures IsNth(v, (|v| - 1) / 2, a) && IsNth(v, |v| / 2, b) && 2.0 * m == a + b
  {
    var s :| Arranged(v, s) && m == (Low(s) + High(s)) / 2.0;
    a, b := Low(s), High(s);
    assert a in multiset(s) && b in multiset(s);
    PositionIsCount(s, (|s| - 1) / 2, a);
    PositionIsCount(s, |s| / 2, b);
    CountPermuted(s, v, a);
    CountPermuted(s, v, b);
  }

  /** There is only one value of each rank. */
  lemma NthUnique(v: seq<real>, k: nat, x: real, y: real)
    requires IsNth(v, k, x) && IsNth(v, k, y)
    ensures x == y
  {
    BelowAndAbove(v, x, y);
    BelowAndAbove(v, y, x);
  }

  lemma {:induction false} BelowAndAbove(v: seq<real>, x: real, y: real)
    ensures x < y ==> CountBelow(v, y) + CountAbove(v, x) >= |v|
    decreases |v|
  {
    if v != [] { BelowAndAbove(v[..|v| - 1], x, y); }
  }

  /** A true middle: at most half the values lie on either side. */
  lemma MedianSplits(v: seq<real>, m: real)
    requires IsMedian(v, m)
    ensures CountBelow(v, m) <= |v| / 2 && CountAbove(v, m) <= |v| / 2
  {
    var s :| Arranged(v, s) && m == (Low(s) + High(s)) / 2.0;
    assert Low(s) <= m <= High(s) by { MiddleOrder(s); }
    PositionIsCount(s, |s| / 2, m);
    PositionIsCount(s, (|s| - 1) / 2, m);
    CountPermuted(s, v, m);
  }

  lemma MiddleOrder(s: seq<real>)
    requires Ascending(s) && s != []
    ensures Low(s) <= High(s)
  {
    if (|s| - 1) / 2 < |s| / 2 { assert s[(|s| - 1) / 2] <= s[|s| / 2]; }
  }

  /** How many elements of the whole can be below (above) c, from the middles of the parts. */
  lemma FewBelow(s: seq<real>, c: real)
    requires Ascending(s) && s != []
    ensures c <= Low(s) ==> CountBelow(s, c) <= (|s| - 1) / 2
    ensures c <= High(s) ==> CountBelow(s, c) <= |s| / 2
    ensures c >= High(s) ==> CountAbove(s, c) <= (|s| - 1) / 2
    ensures c >= Low(s) ==> CountAbove(s, c) <= |s| / 2
    ensures CountBelow(s, c) <= (|s| - 1) / 2 ==> c <= Low(s)
    ensures CountBelow(s, c) <= |s| / 2 ==> c <= High(s)
    ensures CountAbove(s, c) <= (|s| - 1) / 2 ==> c >= High(s)
    ensures CountAbove(s, c) <= |s| / 2 ==> c >= Low(s)
  {
    hide Ascending;
    PositionIsCount(s, (|s| - 1) / 2, c);
    PositionIsCount(s, |s| / 2, c);
    assert |s| - 1 - |s| / 2 == (|s| - 1) / 2;
    assert |s| - 1 - (|s| - 1) / 2 == |s| / 2;
  }

  /** One threshold at a time: what it says about two parts it says about the whole. */
  lemma WholeFromParts(a: seq<real>, b: seq<real>, u: seq<real>, c: real)
    requires Ascending(a) && Ascending(b) && Ascending(u) && a != [] && b != []
    requires multiset(u) == multiset(a) + multiset(b) && |u| == |a| + |b|
    ensures c <= High(a) && c <= High(b) ==> c <= High(u)
    ensures c <= High(a) && c <= Low(b) ==> c <= Low(u)
    ensures c <= Low(a) && c <= High(b) ==> c <= Low(u)
    ensures c >= Low(a) && c >= Low(b) ==> c >= Low(u)
    ensures c >= Low(a) && c >= High(b) ==> c >= High(u)
    ensures c >= High(a) && c >= Low(b) ==> c >= High(u)
  {
    hide Ascending, CountBelow, CountAbove, Low, High;
    FewBelow(a, c);
    FewBelow(b, c);
    FewBelow(u, c);
    assert multiset(u) == multiset(a + b);
    CountPermuted(u, a + b, c);
    CountConcat(a, b, c);
  }

  /** With two nonempty parts the median of the whole lies between the medians of the parts. */
  lemma MedianBetweenParts(a: seq<real>, b: seq<real>, u: seq<real>, ma: real, mb: real, mu: real)
    requires IsMedian(a, ma) && IsMedian(b, mb) && IsMedian(u, mu)
    requires multiset(u) == multiset(a) + multiset(b)
    ensures ma <= mu <= mb || mb <= mu <= ma
  {
    var s :| Arranged(a, s) && ma == (Low(s) + High(s)) / 2.0;
    var t :| Arranged(b, t) && mb == (Low(t) + High(t)) / 2.0;
    var w :| Arranged(u, w) && mu == (Low(w) + High(w)) / 2.0;
    assert |w| == |multiset(w)| == |s| + |t|;
    MiddleOrder(s);
    MiddleOrder(t);
    MiddleOrder(w);
    hide Arranged, Low, High, Ascending;
    WholeFromParts(s, t, w, Low(s));
    WholeFromParts(s, t, w, High(s));
    WholeFromParts(s, t, w, Low(t));
    WholeFromParts(s, t, w, High(t));
  }

  /** median_of: copies, sorts the copy, takes the middle. */
  method MedianOf(v: seq<real>) returns (m: real)
    requires |v| >= 1
    ensures IsMedian(v, m)
    ensures CountBelow(v, m) <= |v| / 2 && CountAbove(v, m) <= |v| / 2
  {
    var key := (x: real) => x;
    var sorted := QSort(v, key);
    var n := |v|;
    if n % 2 == 1 {
      m := sorted[n / 2];
    } else {
      m := (sorted[n / 2 - 1] + sorted[n / 2]) / 2.0;
    }
    assert Arranged(v, sorted) by {
      forall i, j | 0 <= i < j < |sorted| ensures sorted[i] <= sorted[j] {
        assert key(sorted[i]) <= key(sorted[j]);
      }
    }
    assert m == (Low(sorted) + High(sorted)) / 2.0;
    MedianSplits(v, m);
  }

  /** The largest value minus the smallest. */
  ghost predicate IsSpread(v: seq<real>, d: real) {
    exists i, j :: 0 <= i < |v| && 0 <= j < |v| && d == v[j] - v[i] && forall k :: 0 <= k < |v| ==> v[i] <= v[k] <= v[j]
  }

  /** spread_of */
  method SpreadOf(v: seq<real>) returns (d: real)
    requires |v| >= 1
    ensures IsSpread(v, d)
  {
    var lo, hi := 0, 0;
    for k := 1 to |v|
      invariant 0 <= lo < |v| && 0 <= hi < |v|
      invariant forall i :: 0 <= i < k ==> v[lo] <= v[i] <= v[hi]
    {
      if v[k] < v[lo] { lo := k; }
      if v[k] > v[hi] { hi := k; }
    }
    d := v[hi] - v[lo];
  }

  const BUG_MULTIPLIER := 10.0

  /** classify_latency: strictly more than ten times the run's own median. */
  predicate BugLength(latencyUs: real, medianUs: real) {
    latencyUs > BUG_MULTIPLIER * medianUs
  }

  function CountBugs(v: seq<real>, m: real): nat {
    if v == [] then 0 else CountBugs(v[..|v| - 1], m) + if BugLength(v[|v| - 1], m) then 1 else 0
  }

  lemma {:induction false} BugsAreAbove(v: seq<real>, m: real)
    requires m >= 0.0
    ensures CountBugs(v, m) <= CountAbove(v, m)
  {
    if v != [] { BugsAreAbove(v[..|v| - 1], m); }
  }

  /** Bug-length means strictly above ten times the median. */
  lemma {:induction false} BugsAreAboveTenfold(v: seq<real>, m: real)
    ensures CountBugs(v, m) == CountAbove(v, 10.0 * m)
  {
    if v != [] { BugsAreAboveTenfold(v[..|v| - 1], m); }
  }

  /** At most half the tasks of a run can be bug-length against that run's own median. */
  lemma AtMostHalfBugs(v: seq<real>, m: real)
    requires IsMedian(v, m) && forall i :: 0 <= i < |v| ==> v[i] >= 0.0
    ensures CountBugs(v, m) <= |v| / 2 && m >= 0.0
  {
    MedianSplits(v, m);
    var s :| Arranged(v, s) && m == (Low(s) + High(s)) / 2.0;
    assert forall x :: x in multiset(v) ==> x >= 0.0;
    assert Low(s) in multiset(s) && High(s) in multiset(s);
    BugsAreAbove(v, m);
  }

  /** episode_window_us */
  function EpisodeWindowUs(medianUs: real): (w: real)
    ensures w > 0.0
  {
    if medianUs > 0.0 then 100.0 * medianUs else 1.0
  }
}

/** summarize_run. */
module Summary {
  import opened Medians
  import opened InvariantDefinition
  import opened Sweep

  datatype RunSummary = RunSummary(
    started: nat, medianUs: real, spreadUs: real, maxUs: real, bugCount: nat, bugFraction: real,
    shard0MedianUs: real, shard1MedianUs: real, windowUs: real,
    violationUs: real, spanUs: real, episodes: nat, violationFraction: real)

  function LatencyUs(r: Record): real {
    (r.start as real - r.ready as real) / 1000.0
  }

  datatype Which = All | Shard0 | Shard1

  predicate InShard(r: Record, w: Which) {
    w == All || (w == Shard0 <==> r.shard == 0)
  }

  /** The latencies of the started tasks of one shard, or of all. */
  function Latencies(recs: seq<Record>, w: Which): seq<real> {
    if recs == [] then []
    else
      var r := recs[|recs| - 1];
      Latencies(recs[..|recs| - 1], w) + if Started(r) && InShard(r, w) then [LatencyUs(r)] else []
  }

  lemma LatenciesSnoc(recs: seq<Record>, r: Record, w: Which)
    ensures Latencies(recs + [r], w)
         == if Started(r) && InShard(r, w) then Latencies(recs, w) + [LatencyUs(r)] else Latencies(recs, w)
  {
    assert (recs + [r])[..|recs|] == recs;
  }

  /** The two shards between them hold every started task once. */
  lemma {:induction false} ShardsPartition(recs: seq<Record>)
    ensures multiset(Latencies(recs, All)) == multiset(Latencies(recs, Shard0)) + multiset(Latencies(recs, Shard1))
  {
    if |recs| > 0 {
      var recs0, r := recs[..|recs| - 1], recs[|recs| - 1];
      assert recs == recs0 + [r];
      ShardsPartition(recs0);
      LatenciesSnoc(recs0, r, All);
      LatenciesSnoc(recs0, r, Shard0);
      LatenciesSnoc(recs0, r, Shard1);
      hide Latencies;
    }
  }

  lemma {:induction false} LatenciesNonNegative(recs: seq<Record>, w: Which)
    requires WellFormed(recs)
    ensures forall i :: 0 <= i < |Latencies(recs, w)| ==> Latencies(recs, w)[i] >= 0.0
  {
    if |recs| > 0 {
      var recs0, r := recs[..|recs| - 1], recs[|recs| - 1];
      assert recs == recs0 + [r];
      LatenciesNonNegative(recs0, w);
      LatenciesSnoc(recs0, r, w);
      hide Latencies;
    }
  }

  lemma {:induction false} NoLatencies(recs: seq<Record>)
    ensures |Latencies(recs, All)| == 0 <==> NoneStarted(recs)
  {
    if |recs| > 0 {
      var recs0, r := recs[..|recs| - 1], recs[|recs| - 1];
      assert recs == recs0 + [r];
      NoLatencies(recs0);
      NoneStartedSnoc(recs0, r);
      LatenciesSnoc(recs0, r, All);
      hide Latencies;
    }
  }

  method CollectLatencies(recs: seq<Record>) returns (lat: seq<real>, lat0: seq<real>, lat1: seq<real>)
    ensures lat == Latencies(recs, All) && lat0 == Latencies(recs, Shard0) && lat1 == Latencies(recs, Shard1)
  {
    lat, lat0, lat1 := [], [], [];
    for i := 0 to |recs|
      invariant lat == Latencies(recs[..i], All)
      invariant lat0 == Latencies(recs[..i], Shard0) && lat1 == Latencies(recs[..i], Shard1)
    {
      var r := recs[i];
      assert recs[..i + 1] == recs[..i] + [r];
      LatenciesSnoc(recs[..i], r, All);
      LatenciesSnoc(recs[..i], r, Shard0);
      LatenciesSnoc(recs[..i], r, Shard1);
      if Started(r) {
        lat := lat + [LatencyUs(r)];
        if r.shard == 0 {
          lat0 := lat0 + [LatencyUs(r)];
        } else {
          lat1 := lat1 + [LatencyUs(r)];
        }
      }
    }
    assert recs[..|recs|] == recs;
  }

  method CountAndMax(lat: seq<real>, m: real) returns (bug: nat, max: real)
    requires |lat| > 0
    ensures bug == CountBugs(lat, m)
    ensures IsLargest(lat, max)
  {
    bug, max := 0, lat[0];
    for i := 0 to |lat|
      invariant bug == CountBugs(lat[..i], m)
      invariant max in lat && forall j :: 0 <= j < i ==> lat[j] <= max
    {
      assert lat[..i + 1][..i] == lat[..i];
      if lat[i] > max { max := lat[i]; }
      if BugLength(lat[i], m) { bug := bug + 1; }
    }
    assert lat[..|lat|] == lat;
  }

  /** The median of a shard, or 0 when it has no tasks. */
  ghost predicate IsShardMedian(v: seq<real>, m: real) {
    if v == [] then m == 0.0 else IsMedian(v, m)
  }

  ghost predicate IsLargest(v: seq<real>, m: real) {
    m in v && forall i :: 0 <= i < |v| ==> v[i] <= m
  }

  predicate IsRatio(q: real, part: real, whole: real) {
    q * whole == part
  }

  /** `idx` picks the started records of a shard, or of both, in their order. */
  ghost predicate PicksStarted(recs: seq<Record>, w: Which, idx: seq<nat>) {
    && Rising(idx)
    && forall i: nat :: i in idx <==>
         && i < |recs| && recs[i].start != 0
         && (w == Shard0 ==> recs[i].shard == 0) && (w == Shard1 ==> recs[i].shard != 0)
  }

  /** From ready to start, in microseconds, of each of them. */
  ghost predicate AreLatencies(recs: seq<Record>, w: Which, lat: seq<real>) {
    exists idx :: Lists(recs, w, idx, lat)
  }

  lemma PicksStartedSnoc(recs: seq<Record>, r: Record, w: Which, idx: seq<nat>)
    requires PicksStarted(recs, w, idx)
    ensures PicksStarted(recs + [r], w, if Started(r) && InShard(r, w) then idx + [|recs|] else idx)
  {
    var picked := Started(r) && InShard(r, w);
    var more, longer := if picked then idx + [|recs|] else idx, recs + [r];
    assert forall k :: 0 <= k < |idx| ==> idx[k] in idx;
    forall i: nat
      ensures i in more <==>
                && i < |longer| && longer[i].start != 0
                && (w == Shard0 ==> longer[i].shard == 0) && (w == Shard1 ==> longer[i].shard != 0)
    {
      assert i in more <==> i in idx || (picked && i == |recs|);
      if i < |recs| { assert longer[i] == recs[i]; }
    }
  }

  /** The records picked are those whose latencies are listed. */
  ghost predicate Lists(recs: seq<Record>, w: Which, idx: seq<nat>, lat: seq<real>) {
    && PicksStarted(recs, w, idx) && |lat| == |idx| && (forall k :: 0 <= k < |idx| ==> idx[k] < |recs|)
    && forall k :: 0 <= k < |idx| ==> 1000.0 * lat[k] == recs[idx[k]].start as real - recs[idx[k]].ready as real
  }

  lemma ListsSnoc(recs: seq<Record>, r: Record, w: Which, idx: seq<nat>, lat: seq<real>)
    requires Lists(recs, w, idx, lat)
    ensures var more := Started(r) && InShard(r, w);
            Lists(recs + [r], w, if more then idx + [|recs|] else idx, if more then lat + [LatencyUs(r)] else lat)
  {
    hide PicksStarted, InShard;
    PicksStartedSnoc(recs, r, w, idx);
    var longer, n := recs + [r], |idx|;
    assert forall k :: 0 <= k < n ==> longer[idx[k]] == recs[idx[k]];
    if Started(r) && InShard(r, w) {
      LatencyScaled(r);
      var idx', lat' := idx + [|recs|], lat + [LatencyUs(r)];
      hide LatencyUs;
      forall k | 0 <= k < n + 1
        ensures 1000.0 * lat'[k] == longer[idx'[k]].start as real - longer[idx'[k]].ready as real
      {
        if k < n {
          assert lat'[k] == lat[k] && idx'[k] == idx[k];
        }
      }
    }
  }

  lemma LatencyScaled(r: Record)
    ensures 1000.0 * LatencyUs(r) == r.start as real - r.ready as real
  {
  }

  lemma ListsNone(recs: seq<Record>, w: Which, none: seq<nat>)
    requires |recs| == |none| == 0
    ensures Lists(recs, w, none, Latencies(recs, w))
  {
  }

  lemma {:induction false} LatenciesAre(recs: seq<Record>, w: Which) returns (idx: seq<nat>)
    ensures Lists(recs, w, idx, Latencies(recs, w))
  {
    hide Lists, Latencies, InShard, LatencyUs;
    idx := [];
    if |recs| == 0 {
      ListsNone(recs, w, idx);
    } else {
      var recs0, r := recs[..|recs| - 1], recs[|recs| - 1];
      assert recs == recs0 + [r];
      idx := LatenciesAre(recs0, w);
      LatenciesSnoc(recs0, r, w);
      ListsSnoc(recs0, r, w, idx, Latencies(recs0, w));
      if Started(r) && InShard(r, w) { idx := idx + [|recs0|]; }
    }
  }

  /** What the figures of a summary are, whatever the records. */
  ghost predicate Summarizes(recs: seq<Record>, workers: nat, out: RunSummary) {
    var lat := Latencies(recs, All);
    && out.started == |lat| > 0
    && AreLatencies(recs, All, lat)
    && AreLatencies(recs, Shard0, Latencies(recs, Shard0)) && AreLatencies(recs, Shard1, Latencies(recs, Shard1))
    && IsMedian(lat, out.medianUs) && IsSpread(lat, out.spreadUs) && IsLargest(lat, out.maxUs)
    && out.bugCount == CountBugs(lat, out.medianUs) == CountAbove(lat, 10.0 * out.medianUs)
    && IsRatio(out.bugFraction, out.bugCount as real, out.started as real)
    && IsShardMedian(Latencies(recs, Shard0), out.shard0MedianUs)
    && IsShardMedian(Latencies(recs, Shard1), out.shard1MedianUs)
    && out.windowUs == EpisodeWindowUs(out.medianUs)
    && out.windowUs == (if out.medianUs > 0.0 then 100.0 * out.medianUs else 1.0)
    && LongerOnes(Episodes(recs, workers), out.windowUs, out.episodes, out.violationUs)
    && out.episodes == |Long(Episodes(recs, workers), out.windowUs)|
    && out.violationUs == TotalUs(Long(Episodes(recs, workers), out.windowUs))
    && IsSpan(recs, out.spanUs)
    && (if out.violationUs >= 0.0 && out.spanUs > 0.0 then IsRatio(out.violationFraction, out.violationUs, out.spanUs)
        else out.violationFraction == -1.0)
  }

  /** What they are worth when every started record has its timestamps in order. */
  ghost predicate Plausible(recs: seq<Record>, out: RunSummary) {
    && out.bugCount <= out.started / 2 && 0.0 <= out.bugFraction <= 0.5
    && 0.0 <= out.violationUs <= out.spanUs
    && (out.violationFraction == -1.0 || 0.0 <= out.violationFraction <= 1.0)
    && (Latencies(recs, Shard0) != [] && Latencies(recs, Shard1) != [] ==>
          || out.shard0MedianUs <= out.medianUs <= out.shard1MedianUs
          || out.shard1MedianUs <= out.medianUs <= out.shard0MedianUs)
  }

  /** The bounds follow from what the figures are. */
  lemma WellFormedIsPlausible(recs: seq<Record>, workers: nat, out: RunSummary)
    requires WellFormed(recs) && Summarizes(recs, workers, out)
    ensures Plausible(recs, out)
  {
    hide Latencies, IsMedian, Long, TotalUs, CountBugs, IsSpread, IsLargest, Episodes, BugLength, IsRatio;
    hide AreLatencies, LongerOnes, CountAbove;
    var lat := Latencies(recs, All);
    LatenciesNonNegative(recs, All);
    AtMostHalfBugs(lat, out.medianUs);
    HalfAtMost(out.bugFraction, out.bugCount, out.started);
    var e, l :| IsEarliestReady(recs, e) && IsLatestEnd(recs, l) && out.spanUs == (l as real - e as real) / 1000.0;
    ViolationWithinSpan(recs, workers, out.windowUs, e, l);
    if out.spanUs > 0.0 { FractionOfWhole(out.violationFraction, out.violationUs, out.spanUs); }
    var lat0, lat1 := Latencies(recs, Shard0), Latencies(recs, Shard1);
    if lat0 != [] && lat1 != [] {
      ShardsPartition(recs);
      MedianBetweenParts(lat0, lat1, lat, out.shard0MedianUs, out.shard1MedianUs, out.medianUs);
    }
  }

  lemma LatenciesListed(recs: seq<Record>)
    ensures forall w :: AreLatencies(recs, w, Latencies(recs, w))
  {
    forall w ensures AreLatencies(recs, w, Latencies(recs, w)) {
      var idx := LatenciesAre(recs, w);
    }
  }

  lemma WindowIs(m: real)
    ensures EpisodeWindowUs(m) == if m > 0.0 then 100.0 * m else 1.0
  {
  }

  function Ratio(part: real, whole: real): (q: real)
    requires whole != 0.0
    ensures IsRatio(q, part, whole)
  {
    part / whole
  }

  method SummarizeRun(recs: seq<Record>, workers: nat) returns (out: RunSummary)
    ensures NoneStarted(recs) ==> out == RunSummary(0, 0.0, 0.0, 0.0, 0, 0.0, 0.0, 0.0, 0.0, 0.0, 0.0, 0, -1.0)
    ensures !NoneStarted(recs) ==> Summarizes(recs, workers, out)
    ensures !NoneStarted(recs) && WellFormed(recs) ==> Plausible(recs, out)
  {
    hide Latencies, IsMedian, Long, TotalUs, CountBugs, ListsEpisodes, IsSpread, Plausible, Episodes, WellFormed;
    hide IsLargest, IsEarliestReady, IsLatestEnd, NoneStarted, Ratio, IsRatio, EpisodeWindowUs;
    hide AreLatencies, LongerOnes, CountAbove, CountBelow, IsSpan;
    NoLatencies(recs);
    var lat, lat0, lat1 := CollectLatencies(recs);
    if |lat| == 0 {
      return RunSummary(0, 0.0, 0.0, 0.0, 0, 0.0, 0.0, 0.0, 0.0, 0.0, 0.0, 0, -1.0);
    }
    var median := MedianOf(lat);
    var spread := SpreadOf(lat);
    var median0, median1 := 0.0, 0.0;
    if |lat0| > 0 { median0 := MedianOf(lat0); }
    if |lat1| > 0 { median1 := MedianOf(lat1); }
    var bug, max := CountAndMax(lat, median);
    var window := EpisodeWindowUs(median);
    var inv := InvariantScan(recs, workers, window);
    var fraction := -1.0;
    if inv.violationUs >= 0.0 && inv.spanUs > 0.0 {
      fraction := Ratio(inv.violationUs, inv.spanUs);
    }
    out := RunSummary(|lat|, median, spread, max, bug, Ratio(bug as real, |lat| as real), median0, median1, window,
                      inv.violationUs, inv.spanUs, inv.episodes, fraction);
    BugsAreAboveTenfold(lat, median);
    WindowIs(median);
    LatenciesListed(recs);
    assert Summarizes(recs, workers, out);
    if WellFormed(recs) { WellFormedIsPlausible(recs, workers, out); }
  }

  lemma HalfAtMost(q: real, part: nat, whole: nat)
    requires whole > 0 && part <= whole / 2 && IsRatio(q, part as real, whole as real)
    ensures 0.0 <= q <= 0.5
  {
    var half, w := 0.5, whole as real;
    assert half * w == whole as real / 2.0;
    QuotientOrder(q, half, w);
    QuotientOrder(0.0, q, w);
  }

  lemma FractionOfWhole(q: real, part: real, whole: real)
    requires 0.0 <= part <= whole && whole > 0.0 && IsRatio(q, part, whole)
    ensures 0.0 <= q <= 1.0
  {
    QuotientOrder(q, 1.0, whole);
    QuotientOrder(0.0, q, whole);
  }

  lemma QuotientOrder(a: real, b: real, c: real)
    requires a * c <= b * c && c > 0.0
    ensures a <= b
  {
    assert (b - a) * c >= 0.0;
  }
}
