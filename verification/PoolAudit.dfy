/**
 The pool's output is the audit's input: what a finished run hands to invariant_scan and
 summarize_run.
 */
module PoolAudit {
  import opened InvariantDefinition
  import opened Sweep
  import opened Summary
  import Medians
  import opened Pool
  import opened PoolInvariant
  import opened PoolTheorems

  /** Tasks of one worker do not overlap. */
  ghost predicate OneAtATime(recs: seq<Record>, who: seq<nat>)
    requires |recs| == |who|
  {
    forall x, y :: 0 <= x < y < |recs| && who[x] == who[y] ==>
      recs[x].end <= recs[y].start || recs[y].end <= recs[x].start
  }

  predicate RunsAt(r: Record, t: nat) {
    Started(r) && CountsAt(r, Busy, t)
  }

  /** The workers that run a task at instant t. */
  function Working(recs: seq<Record>, who: seq<nat>, t: nat): set<nat>
    requires |recs| == |who|
  {
    if recs == [] then {}
    else
      var k := |recs| - 1;
      Working(recs[..k], who[..k], t) + if RunsAt(recs[k], t) then {who[k]} else {}
  }

  lemma {:induction false} WorkingMembers(recs: seq<Record>, who: seq<nat>, t: nat, w: nat)
    requires |recs| == |who|
    ensures w in Working(recs, who, t) <==> exists x :: 0 <= x < |recs| && who[x] == w && RunsAt(recs[x], t)
  {
    if recs != [] {
      var k := |recs| - 1;
      WorkingMembers(recs[..k], who[..k], t, w);
      hide RunsAt;
      assert forall x :: 0 <= x < k ==> recs[..k][x] == recs[x] && who[..k][x] == who[x];
    }
  }

  /** busy(t) is the number of workers that run a task. */
  lemma {:induction false} BusyIsWorking(recs: seq<Record>, who: seq<nat>, t: nat)
    requires |recs| == |who| && OneAtATime(recs, who)
    ensures CountAt(recs, Busy, t) == |Working(recs, who, t)|
  {
    if recs != [] {
      var k := |recs| - 1;
      assert OneAtATime(recs[..k], who[..k]) by {
        assert forall x :: 0 <= x < k ==> recs[..k][x] == recs[x] && who[..k][x] == who[x];
      }
      BusyIsWorking(recs[..k], who[..k], t);
      if RunsAt(recs[k], t) {
        WorkingMembers(recs[..k], who[..k], t, who[k]);
        assert forall x :: 0 <= x < k ==> recs[..k][x] == recs[x] && who[..k][x] == who[x];
        assert who[k] !in Working(recs[..k], who[..k], t);
      }
    }
  }

  function UpTo(n: nat): set<nat> {
    if n == 0 then {} else UpTo(n - 1) + {n - 1}
  }

  lemma {:induction false} UpToSize(n: nat)
    ensures |UpTo(n)| == n && forall w: nat :: w in UpTo(n) <==> w < n
  {
    if n > 0 { UpToSize(n - 1); }
  }

  lemma {:induction false} SubsetSize(a: set<nat>, b: set<nat>)
    requires a <= b
    ensures |a| <= |b|
    ensures |a| < |b| <==> b - a != {}
  {
    assert b == a + (b - a);
    assert |a + (b - a)| == |a| + |b - a|;
  }

  /** Worker w runs nothing at instant t. */
  ghost predicate Idle(recs: seq<Record>, who: seq<nat>, w: nat, t: nat)
    requires |recs| == |who|
  {
    forall x :: 0 <= x < |recs| && who[x] == w ==> !RunsAt(recs[x], t)
  }

  /** busy(t) never exceeds the pool, and stays below it exactly while some worker runs nothing. */
  lemma BusyFits(recs: seq<Record>, who: seq<nat>, pool: nat, t: nat)
    requires |recs| == |who| && OneAtATime(recs, who) && forall x :: 0 <= x < |who| ==> who[x] < pool
    ensures CountAt(recs, Busy, t) <= pool
    ensures CountAt(recs, Busy, t) < pool <==> exists w: nat :: w < pool && Idle(recs, who, w, t)
  {
    BusyIsWorking(recs, who, t);
    UpToSize(pool);
    var a, b := Working(recs, who, t), UpTo(pool);
    forall w: nat ensures w in a <==> !Idle(recs, who, w, t) {
      WorkingMembers(recs, who, t, w);
    }
    WorkingOnly(recs, who, t, pool);
    hide RunsAt, Working, Idle, UpTo, OneAtATime;
    SubsetSize(a, b);
    assert b - a != {} <==> exists w: nat :: w in b && w !in a;
  }

  lemma {:induction false} WorkingOnly(recs: seq<Record>, who: seq<nat>, t: nat, pool: nat)
    requires |recs| == |who| && forall x :: 0 <= x < |who| ==> who[x] < pool
    ensures forall w :: w in Working(recs, who, t) ==> w < pool
  {
    if recs != [] { WorkingOnly(recs[..|recs| - 1], who[..|recs| - 1], t, pool); }
  }

  function Workers(s: State): seq<nat> {
    seq(|s.tasks|, x requires 0 <= x < |s.tasks| => s.tasks[x].worker)
  }

  /** Every finished run: all tasks started, timestamps in order, and no worker in two places. */
  lemma FinishedRunIsWellFormed(c: Setup, s: State)
    requires Reachable(c, s) && s.dispatcher.Finished?
    ensures |Records(s)| == c.total && WellFormed(Records(s))
    ensures forall x: nat :: x < c.total ==>
              && Started(Records(s)[x]) && Records(s)[x].shard == ShardOf(x) && Workers(s)[x] < c.pool
              && QueueOf(c, Workers(s)[x]) < 2
    ensures OneAtATime(Records(s), Workers(s))
  {
    ReachableKeeps(c, s);
    EveryTaskOnce(c, s);
    forall x: nat | x < c.total
      ensures Began(s, x) && Ended(s, x) && TimeOk(c, s, x) && s.tasks[x].worker < c.pool
    {
      assert TaskOk(c, s, x) && TimeOk(c, s, x);
    }
    assert ApartOk(c, s);
    forall x, y | 0 <= x < y < c.total && Workers(s)[x] == Workers(s)[y]
      ensures Records(s)[x].end <= Records(s)[y].start || Records(s)[y].end <= Records(s)[x].start
    {
      assert Apart(s, x, y);
    }
  }

  lemma {:induction false} SomeCounted(recs: seq<Record>, k: Kind, t: nat)
    ensures CountAt(recs, k, t) > 0 <==> exists x :: 0 <= x < |recs| && Started(recs[x]) && CountsAt(recs[x], k, t)
  {
    if recs != [] {
      var n := |recs| - 1;
      SomeCounted(recs[..n], k, t);
      hide CountsAt;
      assert forall x :: 0 <= x < n ==> recs[..n][x] == recs[x];
    }
  }

  ghost predicate RunsNothing(s: State, w: nat, t: nat) {
    forall x :: 0 <= x < |s.tasks| && s.tasks[x].worker == w ==> !(s.tasks[x].rec.start <= t < s.tasks[x].rec.end)
  }

  /** What the audit's violation means for the pool that ran: a task waits while a worker runs nothing. */
  lemma ViolationIsIdleWorker(c: Setup, s: State, t: nat)
    requires Reachable(c, s) && s.dispatcher.Finished?
    ensures CountAt(Records(s), Busy, t) <= c.pool
    ensures Violated(Records(s), c.pool, t) <==>
              && (exists x :: 0 <= x < |s.tasks| && s.tasks[x].rec.ready <= t < s.tasks[x].rec.start)
              && (exists w: nat :: w < c.pool && RunsNothing(s, w, t))
  {
    hide CountAt, Working, Reachable;
    FinishedRunIsWellFormed(c, s);
    var recs, who := Records(s), Workers(s);
    BusyFits(recs, who, c.pool, t);
    SomeCounted(recs, Waiting, t);
    assert forall x :: 0 <= x < c.total ==> recs[x] == s.tasks[x].rec;
    assert forall x: nat :: x < c.total ==> Started(recs[x]);
    forall w: nat ensures Idle(recs, who, w, t) <==> RunsNothing(s, w, t) {
      SameTasks(s, w, t);
    }
  }

  lemma SameTasks(s: State, w: nat, t: nat)
    requires forall x :: 0 <= x < |s.tasks| ==> Started(s.tasks[x].rec)
    ensures Idle(Records(s), Workers(s), w, t) <==> RunsNothing(s, w, t)
  {
    var recs, who := Records(s), Workers(s);
    assert forall x :: 0 <= x < |s.tasks| ==> recs[x] == s.tasks[x].rec && who[x] == s.tasks[x].worker;
  }

  lemma {:induction false} AllStarted(recs: seq<Record>)
    requires forall x :: 0 <= x < |recs| ==> Started(recs[x])
    ensures |Latencies(recs, All)| == |recs|
  {
    if recs != [] { AllStarted(recs[..|recs| - 1]); }
  }

  /** A run of the pool and its audit, as the program does them one after the other. */
  method AuditRun(c: Setup, ghost s: State, recs: seq<Record>) returns (out: RunSummary)
    requires Reachable(c, s) && s.dispatcher.Finished? && recs == Records(s)
    ensures c.total > 0 ==> Summarizes(recs, c.pool, out) && Plausible(recs, out)
    ensures out.started == c.total && out.bugCount <= c.total / 2
    ensures 0.0 <= out.violationUs <= out.spanUs
    ensures out.violationFraction == -1.0 || 0.0 <= out.violationFraction <= 1.0
  {
    hide Latencies, Medians.IsMedian, Reachable, Long, Episodes;
    FinishedRunIsWellFormed(c, s);
    AllStarted(recs);
    NoLatencies(recs);
    out := SummarizeRun(recs, c.pool);
  }
}
