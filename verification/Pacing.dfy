/**
 The dispatcher's schedule: absolute deadlines a fixed gap apart, started afresh after a
 long stall, with bursts in between under one of the pathologies.
 */
module Pacing {
  import opened Pool

  const WL_BURST_PERIOD := 150
  const WL_BURST_SIZE := 30
  const WL_MEAN_SERVICE_US := 300.0
  const WL_TARGET_RHO := 0.55
  const WL_SHARD0_OVERLOAD := 1.2
  const WL_PACE_MAX_WORKERS := 4

  /** What has been asked of a clock: readings, and sleeps of so many nanoseconds. */
  datatype Tick = Reading(at: nat) | Slept(ns: nat)

  /** A clock that never runs backwards; how far it gets between two readings is not ours to choose. */
  class Clock {
    var t: nat
    var reading: nat
    const drift: nat -> nat
    ghost var log: seq<Tick>

    constructor (start: nat, drift: nat -> nat)
      ensures t == start && log == []
    {
      t, reading, this.drift, log := start, 0, drift, [];
    }

    method Now() returns (now: nat)
      modifies this
      ensures now == t && old(t) <= t && log == old(log) + [Reading(now)]
    {
      t, reading := t + drift(reading), reading + 1;
      now := t;
      log := log + [Reading(now)];
    }

    /** Sleeps at least as long as asked. */
    method Sleep(ns: nat)
      modifies this
      ensures old(t) + ns <= t && log == old(log) + [Slept(ns)]
    {
      t, reading := t + ns + drift(reading), reading + 1;
      log := log + [Slept(ns)];
    }
  }

  /** A task that the burst pathology releases without a gap. */
  predicate InBurst(path: Pathology, x: nat) {
    path == BurstArrival && x % WL_BURST_PERIOD < WL_BURST_SIZE
  }

  /** Releases k apart in the list are k gaps apart in time, less two at the most. */
  ghost predicate Spaced(releases: seq<nat>, gap: nat) {
    forall i, j :: 0 <= i <= j < |releases| ==> releases[i] + (j - i) * gap <= releases[j] + 2 * gap
  }

  function InWindow(t: nat, from: nat, length: nat): nat {
    if from <= t <= from + length then 1 else 0
  }

  function CountIn(releases: seq<nat>, from: nat, length: nat): nat {
    if releases == [] then 0
    else CountIn(releases[..|releases| - 1], from, length) + InWindow(releases[|releases| - 1], from, length)
  }

  lemma {:induction false} FirstAndLast(releases: seq<nat>, from: nat, length: nat) returns (i: nat, j: nat)
    requires CountIn(releases, from, length) > 0
    ensures i <= j < |releases| && CountIn(releases, from, length) <= j - i + 1
    ensures from <= releases[i] && releases[j] <= from + length
  {
    var k := |releases| - 1;
    if CountIn(releases[..k], from, length) == 0 {
      i, j := k, k;
    } else {
      i, j := FirstAndLast(releases[..k], from, length);
      if InWindow(releases[k], from, length) == 1 { j := k; }
    }
  }

  /** Any stretch of time of this length holds at most length / gap + 3 paced releases. */
  lemma WindowBound(releases: seq<nat>, gap: nat, from: nat, length: nat)
    requires Spaced(releases, gap) && gap > 0
    ensures CountIn(releases, from, length) <= length / gap + 3
  {
    if CountIn(releases, from, length) > 0 {
      var i, j := FirstAndLast(releases, from, length);
      assert releases[i] + (j - i) * gap <= releases[j] + 2 * gap;
      Quotient(j - i - 2, gap, length);
    }
  }

  /** Whatever stalls occur, no stretch of time holds more. */
  ghost predicate Sparse(releases: seq<nat>, gap: nat)
    requires gap > 0
  {
    forall from, length: nat :: CountIn(releases, from, length) <= length / gap + 3
  }

  lemma AllWindows(releases: seq<nat>, gap: nat)
    requires Spaced(releases, gap) && gap > 0
    ensures Sparse(releases, gap)
  {
    forall from, length: nat ensures CountIn(releases, from, length) <= length / gap + 3 {
      WindowBound(releases, gap, from, length);
    }
  }

  lemma Quotient(n: int, gap: nat, length: nat)
    requires gap > 0 && (n + 2) * gap <= length + 2 * gap
    ensures n <= length / gap
  {
    assert (n + 2) * gap == n * gap + 2 * gap;
    var q := length / gap;
    assert length < (q + 1) * gap;
    assert n * gap < (q + 1) * gap;
    Cancel(n, q + 1, gap);
  }

  lemma Cancel(a: int, b: int, m: nat)
    requires a * m < b * m
    ensures a < b
  {
    assert (b - a) * m > 0;
  }

  /** With `deadline` past the last deadline, every release so far leaves room for the next one. */
  ghost predicate OnSchedule(releases: seq<nat>, gap: nat, deadline: nat) {
    forall i :: 0 <= i < |releases| ==> releases[i] + (|releases| - 1 - i) * gap <= deadline + 2 * gap
  }

  lemma OneMore(releases: seq<nat>, gap: nat, deadline: nat, now: nat, next: nat)
    requires Spaced(releases, gap) && OnSchedule(releases, gap, deadline)
    requires deadline + gap <= now && deadline + gap <= next && now <= next + 2 * gap
    ensures Spaced(releases + [now], gap) && OnSchedule(releases + [now], gap, next)
  {
    var more, n := releases + [now], |releases|;
    forall i | 0 <= i < n ensures more[i] + (n - i) * gap <= deadline + gap + 2 * gap {
      assert (n - i) * gap == (n - 1 - i) * gap + gap;
    }
    forall i, j | 0 <= i <= j < n + 1 ensures more[i] + (j - i) * gap <= more[j] + 2 * gap {
      if j < n { assert releases[i] + (j - i) * gap <= releases[j] + 2 * gap; }
    }
  }

  lemma Later(releases: seq<nat>, gap: nat, deadline: nat, next: nat)
    requires OnSchedule(releases, gap, deadline) && deadline <= next
    ensures OnSchedule(releases, gap, next)
  {
  }

  /** The tasks below i that are paced, in order. */
  ghost predicate PacedBelow(path: Pathology, paced: seq<nat>, i: nat) {
    && (forall x: nat :: x in paced <==> x < i && !InBurst(path, x))
    && (forall j, k :: 0 <= j < k < |paced| ==> paced[j] < paced[k])
  }

  lemma PacedMore(path: Pathology, paced: seq<nat>, i: nat)
    requires PacedBelow(path, paced, i) && !InBurst(path, i)
    ensures PacedBelow(path, paced + [i], i + 1)
  {
    hide InBurst;
    forall j | 0 <= j < |paced| ensures paced[j] < i {
      assert paced[j] in paced;
    }
  }

  /** The first i tasks have been dispatched, once each and in order. */
  ghost predicate InSequence(order: seq<nat>, i: nat) {
    |order| == i && forall x :: 0 <= x < i ==> order[x] == x
  }

  /** Releases a block of tasks with no gap: one reading of the clock after the other. */
  method Burst(from: nat, end: nat, clock: Clock, before: seq<nat>, ghost at: seq<nat>)
    returns (order: seq<nat>, ghost at': seq<nat>)
    requires from <= end && InSequence(before, from) && |at| == from
    modifies clock
    ensures InSequence(order, end) && old(clock.t) <= clock.t
    ensures at <= at' && |at'| == end && |clock.log| == |old(clock.log)| + (end - from)
    ensures old(clock.log) <= clock.log
    ensures forall x :: from <= x < end ==>
              at'[x] == |old(clock.log)| + (x - from) && clock.log[at'[x]].Reading?
  {
    order, at' := before, at;
    var i := from;
    while i < end
      invariant from <= i <= end && InSequence(order, i) && old(clock.t) <= clock.t
      invariant at <= at' && |at'| == i && |clock.log| == |old(clock.log)| + (i - from)
      invariant old(clock.log) <= clock.log
      invariant forall x :: from <= x < i ==>
                  at'[x] == |old(clock.log)| + (x - from) && clock.log[at'[x]].Reading?
    {
      at' := at' + [|clock.log|];
      var _ := clock.Now();
      order := order + [i];
      i := i + 1;
    }
  }

  /** How the release came about, from position p of the log on: at once if the clock reads no less
      than the deadline, else after a sleep of exactly what was missing and one more reading. */
  ghost predicate ReleasedBy(log: seq<Tick>, p: nat, due: nat, release: nat, end: nat) {
    && p < end <= |log| && log[p].Reading?
    && if log[p].at >= due then end == p + 1 && release == log[p].at
       else end == p + 3 && log[p + 1] == Slept(due - log[p].at) && log[p + 2] == Reading(release)
  }

  /** Waits for the deadline, if it is not past yet. */
  method AwaitDeadline(deadline: nat, clock: Clock) returns (now: nat)
    modifies clock
    ensures deadline <= now <= clock.t && old(clock.t) <= clock.t
    ensures old(clock.log) <= clock.log
    ensures ReleasedBy(clock.log, |old(clock.log)|, deadline, now, |clock.log|)
  {
    now := clock.Now();
    if now < deadline {
      clock.Sleep(deadline - now);
      now := clock.Now();
    }
  }

  /** The deadline carried over from a release: the old one, or the release itself after a long stall. */
  function Carried(release: nat, due: nat, gap: nat): nat {
    if release > due + 2 * gap then release else due
  }

  /**
   Deadlines are absolute: a late release does not move the next one unless it is more than
   two gaps late.  `due` is the deadline each paced task was released against.
   */
  ghost predicate OnDeadline(paced: seq<nat>, releases: seq<nat>, due: seq<nat>, gap: nat) {
    && |paced| == |releases| == |due|
    && (forall k :: 0 <= k < |due| ==> due[k] <= releases[k])
    && (forall k :: 0 < k < |due| && paced[k] == paced[k - 1] + 1 ==>
          due[k] == gap + if releases[k - 1] > due[k - 1] + 2 * gap then releases[k - 1] else due[k - 1])
  }

  /** The deadline that the next task, if it is paced too, adds a gap to. */
  ghost predicate Carries(paced: seq<nat>, releases: seq<nat>, due: seq<nat>, gap: nat, i: nat, deadline: nat)
    requires |paced| == |releases| == |due|
  {
    var n := |paced|;
    n > 0 && paced[n - 1] + 1 == i ==> deadline == Carried(releases[n - 1], due[n - 1], gap)
  }

  lemma DeadlineMore(paced: seq<nat>, releases: seq<nat>, due: seq<nat>, gap: nat, i: nat, before: nat, now: nat)
    requires OnDeadline(paced, releases, due, gap) && Carries(paced, releases, due, gap, i, before)
    requires before + gap <= now
    ensures OnDeadline(paced + [i], releases + [now], due + [before + gap], gap)
    ensures Carries(paced + [i], releases + [now], due + [before + gap], gap, i + 1, Carried(now, before + gap, gap))
  {
  }

  /** The lateness array holds how far behind its deadline each paced task was released. */
  ghost predicate Lateness(late: seq<nat>, releases: seq<nat>, due: seq<nat>) {
    |late| == |releases| == |due| && forall k :: 0 <= k < |late| ==> due[k] + late[k] == releases[k]
  }

  /** What the loop has noted of the paced tasks so far. */
  datatype Book = Book(paced: seq<nat>, due: seq<nat>, releases: seq<nat>)

  /** The notes and the lateness array are right for the first i tasks, and the deadline goes on from them. */
  ghost predicate Kept(path: Pathology, gap: nat, b: Book, late: seq<nat>, i: nat, deadline: nat) {
    && PacedBelow(path, b.paced, i) && |late| == |b.paced| == |b.due| == |b.releases| <= i
    && OnDeadline(b.paced, b.releases, b.due, gap) && Carries(b.paced, b.releases, b.due, gap, i, deadline)
    && Lateness(late, b.releases, b.due)
    && Spaced(b.releases, gap) && OnSchedule(b.releases, gap, deadline)
  }

  function Noted(b: Book, i: nat, due: nat, now: nat): Book {
    Book(b.paced + [i], b.due + [due], b.releases + [now])
  }

  lemma PacedKeeps(path: Pathology, gap: nat, b: Book, late: seq<nat>, i: nat, deadline: nat, now: nat, next: nat)
    requires Kept(path, gap, b, late, i, deadline) && !InBurst(path, i)
    requires deadline + gap <= now && next == Carried(now, deadline + gap, gap)
    ensures Kept(path, gap, Noted(b, i, deadline + gap, now), late + [now - (deadline + gap)], i + 1, next)
  {
    hide InBurst, PacedBelow, OnDeadline, Carries, Spaced, OnSchedule;
    PacedMore(path, b.paced, i);
    DeadlineMore(b.paced, b.releases, b.due, gap, i, deadline, now);
    OneMore(b.releases, gap, deadline, now, next);
  }

  lemma BurstKeeps(path: Pathology, gap: nat, b: Book, late: seq<nat>, i: nat, end: nat, deadline: nat, now: nat)
    requires Kept(path, gap, b, late, i, deadline) && deadline <= now
    requires path == BurstArrival && i % WL_BURST_PERIOD == 0 && i < end <= i + WL_BURST_SIZE
    ensures Kept(path, gap, b, late, end, now)
    ensures end == i + WL_BURST_SIZE ==> !InBurst(path, end)
  {
    hide InBurst, PacedBelow, OnDeadline, Carries, Spaced, OnSchedule, Lateness;
    BurstBlock(path, b.paced, i, end);
    Later(b.releases, gap, deadline, now);
    NotPacedBefore(path, b.paced, b.releases, b.due, gap, end, now);
  }

  /** The position in the log of the last tick before those of task x: the reading with which the task
      before it was dispatched, the one after that when a burst has just ended, the opening one for
      the first task. */
  function Before(path: Pathology, open: nat, at: seq<nat>, x: nat): nat
    requires x <= |at|
  {
    if x == 0 then open else if InBurst(path, x - 1) && !InBurst(path, x) then at[x - 1] + 1 else at[x - 1]
  }

  /** A task whose deadline does not go on from another's: the first one, and the first after a burst. */
  predicate StartsAfresh(path: Pathology, x: nat) {
    !InBurst(path, x) && (x == 0 || InBurst(path, x - 1))
  }

  /** How task x of the k-th note was released: a fresh schedule is a gap after the last reading before it. */
  ghost predicate PacedBy(path: Pathology, gap: nat, b: Book, log: seq<Tick>, open: nat, at: seq<nat>, k: nat)
    requires k < |b.paced| == |b.due| == |b.releases| && b.paced[k] < |at|
  {
    var x := b.paced[k];
    var p := Before(path, open, at, x);
    && p < |log| && ReleasedBy(log, p + 1, b.due[k], b.releases[k], at[x])
    && (StartsAfresh(path, x) ==> log[p].Reading? && b.due[k] == log[p].at + gap)
  }

  /** The first i tasks were dispatched with readings of the clock at the positions `at`, those of a burst
      one right after the other, the paced ones right after their release. */
  ghost predicate Chronicle(path: Pathology, gap: nat, b: Book, log: seq<Tick>, open: nat, at: seq<nat>, i: nat) {
    && |at| == i && open < |log| && log[open].Reading?
    && (forall x: nat :: x < i ==> at[x] < |log| && log[at[x]].Reading?)
    && (forall x: nat :: x < i && InBurst(path, x) ==> at[x] == Before(path, open, at, x) + 1)
    && |b.paced| == |b.due| == |b.releases|
    && (forall k :: 0 <= k < |b.paced| ==> b.paced[k] < i && PacedBy(path, gap, b, log, open, at, k))
  }

  lemma LongerLog(path: Pathology, gap: nat, b: Book, log: seq<Tick>, log': seq<Tick>, open: nat,
                  at: seq<nat>, at': seq<nat>, k: nat)
    requires k < |b.paced| == |b.due| == |b.releases| && b.paced[k] < |at| && at <= at' && log <= log'
    requires PacedBy(path, gap, b, log, open, at, k)
    ensures PacedBy(path, gap, b, log', open, at', k)
  {
    hide InBurst;
  }

  /** A burst goes on with the chronicle. */
  lemma BurstChronicled(path: Pathology, gap: nat, b: Book, log: seq<Tick>, log': seq<Tick>, open: nat,
                        at: seq<nat>, at': seq<nat>, i: nat, end: nat)
    requires Chronicle(path, gap, b, log, open, at, i) && log <= log' && at <= at' && i < end == |at'|
    requires Before(path, open, at, i) == |log| - 1
    requires forall x :: i <= x < end ==>
               InBurst(path, x) && at'[x] == |log| + (x - i) && at'[x] < |log'| && log'[at'[x]].Reading?
    ensures Chronicle(path, gap, b, log', open, at', end)
  {
    hide InBurst;
    forall k | 0 <= k < |b.paced| ensures b.paced[k] < end && PacedBy(path, gap, b, log', open, at', k) {
      LongerLog(path, gap, b, log, log', open, at, at', k);
    }
    forall x: nat | x < end && InBurst(path, x) ensures at'[x] == Before(path, open, at', x) + 1 {
      if x < i { assert at'[x] == at[x]; }
      if 0 < x <= i { assert at'[x - 1] == at[x - 1]; }
    }
  }

  /** A paced task goes on with it. */
  lemma PacedChronicled(path: Pathology, gap: nat, b: Book, log: seq<Tick>, log': seq<Tick>, open: nat,
                        at: seq<nat>, i: nat, due: nat, now: nat)
    requires Chronicle(path, gap, b, log, open, at, i) && log <= log' && !InBurst(path, i) && |log'| > 0
    requires Before(path, open, at, i) == |log| - 1 && log'[|log'| - 1].Reading?
    requires ReleasedBy(log', |log|, due, now, |log'| - 1)
    requires StartsAfresh(path, i) ==> log[|log| - 1].Reading? && due == log[|log| - 1].at + gap
    ensures Chronicle(path, gap, Noted(b, i, due, now), log', open, at + [|log'| - 1], i + 1)
  {
    hide InBurst;
    var b', at' := Noted(b, i, due, now), at + [|log'| - 1];
    forall k | 0 <= k < |b'.paced| ensures b'.paced[k] < i + 1 && PacedBy(path, gap, b', log', open, at', k) {
      if k < |b.paced| {
        LongerLog(path, gap, b, log, log', open, at, at', k);
        assert b'.paced[k] == b.paced[k] && b'.due[k] == b.due[k] && b'.releases[k] == b.releases[k];
      } else {
        assert Before(path, open, at', i) == Before(path, open, at, i);
      }
    }
    forall x: nat | x < i + 1 && InBurst(path, x) ensures at'[x] == Before(path, open, at', x) + 1 {
      assert x < i && at'[x] == at[x] && (x > 0 ==> at'[x - 1] == at[x - 1]);
    }
  }

  /** The paced branch of the loop, up to the release. */
  method ReleasePaced(ghost path: Pathology, gap: nat, ghost i: nat, from: nat, clock: Clock,
                      late: array<nat>, nLate: nat, ghost b: Book)
    returns (now: nat, deadline: nat)
    requires nLate < late.Length && from <= clock.t
    requires Kept(path, gap, b, late[..nLate], i, from) && !InBurst(path, i)
    modifies clock, late
    ensures from + gap <= now <= clock.t && deadline <= clock.t
    ensures Kept(path, gap, Noted(b, i, from + gap, now), late[..nLate + 1], i + 1, deadline)
    ensures old(clock.log) <= clock.log
    ensures ReleasedBy(clock.log, |old(clock.log)|, from + gap, now, |clock.log|)
  {
    hide Kept, InBurst, ReleasedBy;
    deadline := from + gap;
    now := AwaitDeadline(deadline, clock);
    ghost var before := late[..nLate];
    late[nLate] := now - deadline;
    assert late[..nLate + 1] == before + [now - (from + gap)];
    if now > deadline + 2 * gap {
      deadline := now;
    }
    PacedKeeps(path, gap, b, before, i, from, now, deadline);
  }

  /** Where the loop stands: the last tick is the one before those of task i, and a fresh deadline is it. */
  ghost predicate Poised(path: Pathology, log: seq<Tick>, open: nat, at: seq<nat>, i: nat, deadline: nat) {
    && |at| == i && log != [] && Before(path, open, at, i) == |log| - 1
    && (StartsAfresh(path, i) ==> log[|log| - 1] == Reading(deadline))
  }

  /**
   The dispatch loop of wl_run.  `order` is the tasks in the order they were dispatched; `b`
   tells which of them were paced, and when they should have been and were released; `late`
   is the lateness array.  `at` gives the position, among all that was asked of the clock, of the
   reading with which each task was dispatched, counted from the opening one.
   */
  method DispatchLoop(path: Pathology, total: nat, gap: nat, clock: Clock)
    returns (order: seq<nat>, b: Book, late: array<nat>, nLate: nat, ghost at: seq<nat>)
    modifies clock
    ensures InSequence(order, total) && PacedBelow(path, b.paced, total)
    ensures nLate <= late.Length == total && Lateness(late[..nLate], b.releases, b.due)
    ensures OnDeadline(b.paced, b.releases, b.due, gap) && Spaced(b.releases, gap)
    ensures Chronicle(path, gap, b, clock.log, |old(clock.log)|, at, total)
    ensures gap > 0 ==> Sparse(b.releases, gap)
  {
    hide InSequence, Kept, InBurst, OnDeadline, Spaced, PacedBelow, Lateness, Sparse, Chronicle, ReleasedBy, Poised;
    late := new nat[total](_ => 0);
    nLate, order, b, at := 0, [], Book([], [], []), [];
    ghost var open := |clock.log|;
    var deadline: nat := clock.Now();
    var i := 0;
    NothingDispatched(path, order, late[..nLate], gap, deadline);
    NothingChronicled(path, gap, clock.log, open, deadline);
    while i < total
      invariant |at| == i <= total && nLate <= i && InSequence(order, i) && fresh(late)
      invariant Kept(path, gap, b, late[..nLate], i, deadline) && deadline <= clock.t
      invariant i < total && InBurst(path, i) ==> path == BurstArrival && i % WL_BURST_PERIOD == 0
      invariant Chronicle(path, gap, b, clock.log, open, at, i)
      invariant i < total ==> Poised(path, clock.log, open, at, i, deadline)
    {
      ghost var log, at0 := clock.log, at;
      if path == BurstArrival && i % WL_BURST_PERIOD == 0 {
        var end := if i + WL_BURST_SIZE > total then total else i + WL_BURST_SIZE;
        order, at := Burst(i, end, clock, order, at);
        var now := clock.Now();
        BurstKeeps(path, gap, b, late[..nLate], i, end, deadline, now);
        BurstPoised(path, gap, b, log, clock.log, open, at0, at, i, end, deadline, now);
        deadline, i := now, end;
        continue;
      }
      var due := deadline + gap;
      ghost var from := deadline;
      var now;
      now, deadline := ReleasePaced(path, gap, i, deadline, clock, late, nLate, b);
      ghost var released := clock.log;
      order, at := Burst(i, i + 1, clock, order, at);
      assert at[i] == |released|;
      PacedPoised(path, gap, b, log, released, clock.log, open, at0, i, from, now, deadline);
      assert at == at0 + [|clock.log| - 1];
      b, nLate := Noted(b, i, due, now), nLate + 1;
      BurstsBegin(path, i);
      i := i + 1;
    }
    KeptMeans(path, gap, b, late[..nLate], total, deadline);
    if gap > 0 { AllWindows(b.releases, gap); }
  }

  lemma NothingChronicled(path: Pathology, gap: nat, log: seq<Tick>, open: nat, deadline: nat)
    requires open + 1 == |log| && log[open] == Reading(deadline)
    ensures Chronicle(path, gap, Book([], [], []), log, open, [], 0) && Poised(path, log, open, [], 0, deadline)
  {
  }

  /** A burst and the reading after it: the schedule starts afresh from that reading. */
  lemma BurstPoised(path: Pathology, gap: nat, b: Book, log: seq<Tick>, log': seq<Tick>, open: nat,
                    at: seq<nat>, at': seq<nat>, i: nat, end: nat, deadline: nat, now: nat)
    requires Chronicle(path, gap, b, log, open, at, i) && Poised(path, log, open, at, i, deadline)
    requires path == BurstArrival && i % WL_BURST_PERIOD == 0 && i < end <= i + WL_BURST_SIZE
    requires at <= at' && |at'| == end && log <= log' && |log'| == |log| + (end - i) + 1
    requires forall x :: i <= x < end ==> at'[x] == |log| + (x - i) && log'[at'[x]].Reading?
    requires log'[|log'| - 1] == Reading(now)
    ensures Chronicle(path, gap, b, log', open, at', end)
    ensures end == i + WL_BURST_SIZE ==> Poised(path, log', open, at', end, now)
  {
    AllInBurst(path, i, end);
    hide InBurst;
    BurstChronicled(path, gap, b, log, log', open, at, at', i, end);
    assert at'[end - 1] == |log'| - 2;
  }

  lemma AllInBurst(path: Pathology, i: nat, end: nat)
    requires path == BurstArrival && i % WL_BURST_PERIOD == 0 && i < end <= i + WL_BURST_SIZE
    ensures forall x: nat :: i <= x < end ==> InBurst(path, x)
    ensures end == i + WL_BURST_SIZE ==> !InBurst(path, end)
  {
    forall x: nat | i <= x <= end ensures x % WL_BURST_PERIOD == x - i {
      Block(i, x);
    }
  }

  lemma PacedPoised(path: Pathology, gap: nat, b: Book, log: seq<Tick>, released: seq<Tick>, log': seq<Tick>, open: nat,
                    at: seq<nat>, i: nat, from: nat, now: nat, deadline: nat)
    requires Chronicle(path, gap, b, log, open, at, i) && Poised(path, log, open, at, i, from) && !InBurst(path, i)
    requires log <= released <= log' && |log'| == |released| + 1 && log'[|released|].Reading?
    requires ReleasedBy(released, |log|, from + gap, now, |released|)
    ensures Chronicle(path, gap, Noted(b, i, from + gap, now), log', open, at + [|log'| - 1], i + 1)
    ensures Poised(path, log', open, at + [|log'| - 1], i + 1, deadline)
  {
    hide InBurst;
    PacedChronicled(path, gap, b, log, log', open, at, i, from + gap, now);
  }

  lemma KeptMeans(path: Pathology, gap: nat, b: Book, late: seq<nat>, i: nat, deadline: nat)
    requires Kept(path, gap, b, late, i, deadline)
    ensures PacedBelow(path, b.paced, i) && Lateness(late, b.releases, b.due) && |late| <= i
    ensures OnDeadline(b.paced, b.releases, b.due, gap) && Spaced(b.releases, gap)
  {
  }

  lemma NotPacedBefore(path: Pathology, paced: seq<nat>, releases: seq<nat>, due: seq<nat>, gap: nat, i: nat,
                       deadline: nat)
    requires PacedBelow(path, paced, i) && |paced| == |releases| == |due| && i > 0 && InBurst(path, i - 1)
    ensures Carries(paced, releases, due, gap, i, deadline)
  {
    hide InBurst;
    var n := |paced|;
    if n > 0 { assert paced[n - 1] in paced; }
  }

  lemma NothingDispatched(path: Pathology, none: seq<nat>, late: seq<nat>, gap: nat, deadline: nat)
    requires none == [] && late == []
    ensures InSequence(none, 0) && Kept(path, gap, Book(none, none, none), late, 0, deadline)
    ensures InBurst(path, 0) ==> path == BurstArrival
  {
  }

  /** A burst is a whole block, and none begins elsewhere. */
  lemma BurstBlock(path: Pathology, paced: seq<nat>, first: nat, end: nat)
    requires path == BurstArrival && first % WL_BURST_PERIOD == 0 && first <= end <= first + WL_BURST_SIZE
    requires PacedBelow(path, paced, first)
    ensures PacedBelow(path, paced, end)
    ensures end > first ==> InBurst(path, end - 1)
    ensures end == first + WL_BURST_SIZE ==> !InBurst(path, end)
  {
    forall x: nat | first <= x <= end ensures x % WL_BURST_PERIOD == x - first {
      Block(first, x);
    }
  }

  lemma Block(first: nat, x: nat)
    requires first % WL_BURST_PERIOD == 0 && first <= x < first + WL_BURST_PERIOD
    ensures x % WL_BURST_PERIOD == x - first
  {
  }

  lemma BurstsBegin(path: Pathology, x: nat)
    requires !InBurst(path, x)
    ensures InBurst(path, x + 1) ==> path == BurstArrival && (x + 1) % WL_BURST_PERIOD == 0
  {
  }

  /** service_us: proportional to the size of the class, with the mean over the classes fixed. */
  function ServiceUs(sizes: seq<nat>, k: nat): real
    requires |sizes| == WL_NUM_SIZES && k < WL_NUM_SIZES && sizes[0] + sizes[1] + sizes[2] + sizes[3] > 0
  {
    WL_MEAN_SERVICE_US * 4.0 * sizes[k] as real / (sizes[0] + sizes[1] + sizes[2] + sizes[3]) as real
  }

  /** pace_workers */
  function PaceWorkers(pool: nat): nat {
    if pool < WL_PACE_MAX_WORKERS then pool else WL_PACE_MAX_WORKERS
  }

  /** dispatch_gap_us */
  function GapUs(path: Pathology, pool: nat, sizes: seq<nat>): real
    requires |sizes| == WL_NUM_SIZES && sizes[0] + sizes[1] + sizes[2] + sizes[3] > 0 && pool > 0
  {
    if path == UnevenPartition then ServiceUs(sizes, 3) / (4.0 * WL_SHARD0_OVERLOAD)
    else WL_MEAN_SERVICE_US / (PaceWorkers(pool) as real * WL_TARGET_RHO)
  }

  /** With sizes in ascending order the gap stays between 62.5 and 250 us, so it is positive in nanoseconds too. */
  lemma GapBounds(path: Pathology, pool: nat, sizes: seq<nat>)
    requires |sizes| == WL_NUM_SIZES && sizes[0] <= sizes[1] <= sizes[2] <= sizes[3] && sizes[3] > 0
    requires pool >= WL_MIN_WORKERS
    ensures path == UnevenPartition ==> 62.5 <= GapUs(path, pool, sizes) <= 250.0
    ensures path != UnevenPartition ==> 136.0 < GapUs(path, pool, sizes) < 182.0
    ensures (GapUs(path, pool, sizes) * 1000.0).Floor > 0
  {
    if path == UnevenPartition {
      var sum := (sizes[0] + sizes[1] + sizes[2] + sizes[3]) as real;
      var most := sizes[3] as real;
      MostIsAQuarter(sum, most);
      QuotientBounds(ServiceUs(sizes, 3), 1200.0 * most, sum, 300.0, 1200.0);
    }
  }

  lemma MostIsAQuarter(sum: real, most: real)
    requires most <= sum <= 4.0 * most
    ensures 300.0 * sum <= 1200.0 * most <= 1200.0 * sum
  {
  }

  lemma QuotientBounds(q: real, x: real, m: real, least: real, largest: real)
    requires m > 0.0 && q * m == x && least * m <= x <= largest * m
    ensures least <= q <= largest
  {
    assert (q - least) * m >= 0.0;
    assert (largest - q) * m >= 0.0;
  }

  /** The gap exactly: for a shared queue the mean service time over 0.55 times the workers paced for,
      four at the most; for the uneven partition the time of the largest class over 4.8. */
  lemma GapExactly(path: Pathology, pool: nat, sizes: seq<nat>)
    requires |sizes| == WL_NUM_SIZES && sizes[0] + sizes[1] + sizes[2] + sizes[3] > 0 && pool >= WL_MIN_WORKERS
    ensures path != UnevenPartition && pool == 3 ==> 1.65 * GapUs(path, pool, sizes) == 300.0
    ensures path != UnevenPartition && pool >= 4 ==> 2.2 * GapUs(path, pool, sizes) == 300.0
    ensures path == UnevenPartition ==>
              var all := sizes[0] + sizes[1] + sizes[2] + sizes[3];
              4.8 * (GapUs(path, pool, sizes) * all as real) == 1200.0 * sizes[3] as real
  {
    if path == UnevenPartition {
      var sum, q := (sizes[0] + sizes[1] + sizes[2] + sizes[3]) as real, ServiceUs(sizes, 3);
      assert q * sum == 1200.0 * sizes[3] as real;
      ScaledQuotient(q, sum);
    }
  }

  lemma ScaledQuotient(q: real, m: real)
    ensures 4.8 * ((q / 4.8) * m) == q * m
  {
    var g := q / 4.8;
    assert q == 4.8 * g;
    assert (4.8 * g) * m == 4.8 * (g * m);
  }

  /** Each class is served in proportion to its size... */
  lemma ServiceProportional(sizes: seq<nat>, k: nat)
    requires |sizes| == WL_NUM_SIZES && sizes[0] + sizes[1] + sizes[2] + sizes[3] > 0 && k < WL_NUM_SIZES
    ensures var all := sizes[0] + sizes[1] + sizes[2] + sizes[3];
            ServiceUs(sizes, k) * all as real == 1200.0 * sizes[k] as real
  {
  }

  /** ... and the four classes take 300 us on average. */
  lemma ServiceMean(sizes: seq<nat>)
    requires |sizes| == WL_NUM_SIZES && sizes[0] + sizes[1] + sizes[2] + sizes[3] > 0
    ensures ServiceUs(sizes, 0) + ServiceUs(sizes, 1) + ServiceUs(sizes, 2) + ServiceUs(sizes, 3) == 4.0 * 300.0
  {
    hide ServiceUs;
    ServiceProportional(sizes, 0);
    ServiceProportional(sizes, 1);
    ServiceProportional(sizes, 2);
    ServiceProportional(sizes, 3);
    SharesOfAll(ServiceUs(sizes, 0), ServiceUs(sizes, 1), ServiceUs(sizes, 2), ServiceUs(sizes, 3),
                sizes[0] as real, sizes[1] as real, sizes[2] as real, sizes[3] as real);
  }

  lemma SharesOfAll(a: real, b: real, c: real, d: real, p: real, q: real, r: real, s: real)
    requires p + q + r + s > 0.0
    requires a * (p + q + r + s) == 1200.0 * p && b * (p + q + r + s) == 1200.0 * q
    requires c * (p + q + r + s) == 1200.0 * r && d * (p + q + r + s) == 1200.0 * s
    ensures a + b + c + d == 1200.0
  {
    var m := p + q + r + s;
    Distribute(a, b, c, d, m);
    QuotientBounds(a + b + c + d, 1200.0 * m, m, 1200.0, 1200.0);
  }

  lemma Distribute(a: real, b: real, c: real, d: real, m: real)
    ensures (a + b + c + d) * m == a * m + b * m + c * m + d * m
  {
  }

  /** The comment that gives the gaps as 136 to 270 us is right exactly when the largest class is large
      enough; only the uneven partition can fall short of it. */
  lemma CommentedRange(path: Pathology, pool: nat, sizes: seq<nat>)
    requires |sizes| == WL_NUM_SIZES && sizes[0] + sizes[1] + sizes[2] + sizes[3] > 0 && pool >= WL_MIN_WORKERS
    ensures 136.0 <= GapUs(path, pool, sizes) <= 270.0
       <==> path != UnevenPartition || 250 * sizes[3] >= 136 * (sizes[0] + sizes[1] + sizes[2] + sizes[3])
  {
    if path == UnevenPartition {
      var all := sizes[0] + sizes[1] + sizes[2] + sizes[3];
      var sum, most, q := all as real, sizes[3] as real, ServiceUs(sizes, 3);
      QuotientIff(q, 1200.0 * most, sum, 652.8);
      QuotientIff(q, 1200.0 * most, sum, 1200.0);
      ScaledToSizes(sizes[3], all);
    }
  }

  lemma QuotientIff(q: real, x: real, m: real, c: real)
    requires m > 0.0 && q * m == x
    ensures q >= c <==> x >= c * m
    ensures q <= c <==> x <= c * m
  {
    assert (q - c) * m == x - c * m;
  }

  lemma ScaledToSizes(most: nat, all: nat)
    requires most <= all
    ensures 1200.0 * most as real >= 652.8 * all as real <==> 250 * most >= 136 * all
    ensures 1200.0 * most as real <= 1200.0 * all as real
  {
  }

  /** The sizes of config/params.h. */
  const CONFIGURED_SIZES := [1000, 2000, 20000, 100000]

  /** Equal sizes put the gap below the commented range; the configured sizes put it inside. */
  lemma CommentFailsForEqualSizes(pool: nat)
    requires pool >= WL_MIN_WORKERS
    ensures GapUs(UnevenPartition, pool, [1, 1, 1, 1]) == 62.5 < 136.0
    ensures forall path :: 136.0 <= GapUs(path, pool, CONFIGURED_SIZES) <= 270.0
  {
    forall path ensures 136.0 <= GapUs(path, pool, CONFIGURED_SIZES) <= 270.0 {
      CommentedRange(path, pool, CONFIGURED_SIZES);
    }
  }
}
