/**
 The recursive explorer of the week 4 model checker.  It counts what it sees; we prove
 that its counts answer the question it is run for.
 */
module Explorer {
  import opened Handshake

  datatype Tally = Tally(exec: nat, uaf: nat, stuck: nat)

  const Zero := Tally(0, 0, 0)

  function Plus(a: Tally, b: Tally): Tally {
    Tally(a.exec + b.exec, a.uaf + b.uaf, a.stuck + b.stuck)
  }

  /** What the explorer adds for a state where nothing could move. */
  function EndOf(s: State): Tally {
    if Finished(s) then Tally(1, if s.uaf then 1 else 0, 0) else Tally(0, 0, 1)
  }

  /** What exploring `s` adds to the counters. */
  function TallyOf(m: Model, o: Orders, s: State): Tally
    decreases Measure(s), 2, 0
  {
    var children := Children(m, o, s);
    if children.exec + children.stuck == 0 then EndOf(s) else children
  }

  function Children(m: Model, o: Orders, s: State): Tally
    decreases Measure(s), 1, 1 + |s.bufR| + |s.bufW|
  {
    Plus(Plus(Plus(MoveTally(m, o, s, Reader), MoveTally(m, o, s, Writer)),
              CommitTally(m, o, s, R, |s.bufR|)),
         CommitTally(m, o, s, W, |s.bufW|))
  }

  function CommitTally(m: Model, o: Orders, s: State, t: Thread, n: nat): Tally
    requires n <= |Buf(s, t)|
    decreases Measure(s), 1, n
  {
    if n == 0 then Zero
    else Plus(CommitTally(m, o, s, t, n - 1), MoveTally(m, o, s, Commit(t, n - 1)))
  }

  function MoveTally(m: Model, o: Orders, s: State, mv: Move): Tally
    decreases Measure(s), 0, 0
  {
    if Enabled(m, o, s, mv) then TallyOf(m, o, Apply(m, o, s, mv)) else Zero
  }

  lemma TallyIs(m: Model, o: Orders, s: State)
    ensures TallyOf(m, o, s) ==
              if Children(m, o, s).exec + Children(m, o, s).stuck == 0 then EndOf(s) else Children(m, o, s)
  {
  }

  lemma MoveTallyIs(m: Model, o: Orders, s: State, mv: Move)
    ensures MoveTally(m, o, s, mv) == if Enabled(m, o, s, mv) then TallyOf(m, o, Apply(m, o, s, mv)) else Zero
  {
  }

  lemma ChildrenIs(m: Model, o: Orders, s: State)
    ensures Children(m, o, s) ==
              Plus(Plus(Plus(MoveTally(m, o, s, Reader), MoveTally(m, o, s, Writer)),
                        CommitTally(m, o, s, R, |s.bufR|)),
                   CommitTally(m, o, s, W, |s.bufW|))
  {
  }

  predicate AtMost(a: Tally, b: Tally) {
    a.exec <= b.exec && a.uaf <= b.uaf && a.stuck <= b.stuck
  }

  /** A move's count is part of the whole. */
  lemma {:induction false} CommitIncluded(m: Model, o: Orders, s: State, t: Thread, i: nat, n: nat)
    requires i < n <= |Buf(s, t)|
    ensures AtMost(MoveTally(m, o, s, Commit(t, i)), CommitTally(m, o, s, t, n))
  {
    if i < n - 1 { CommitIncluded(m, o, s, t, i, n - 1); }
  }

  lemma MoveIncluded(m: Model, o: Orders, s: State, mv: Move)
    requires Enabled(m, o, s, mv)
    ensures AtMost(TallyOf(m, o, Apply(m, o, s, mv)), Children(m, o, s))
  {
    hide TallyOf;
    if mv.Commit? { CommitIncluded(m, o, s, mv.t, mv.i, |Buf(s, mv.t)|); }
  }

  /** Every call of the explorer ends at least one execution, so the test whether a counter
      moved tells exactly whether the state had a move. */
  lemma {:induction false} EveryCallCounts(m: Model, o: Orders, s: State)
    ensures TallyOf(m, o, s).exec + TallyOf(m, o, s).stuck >= 1
    ensures Children(m, o, s).exec + Children(m, o, s).stuck > 0 <==> exists mv :: Enabled(m, o, s, mv)
    decreases Measure(s)
  {
    if mv :| Enabled(m, o, s, mv) {
      EveryCallCounts(m, o, Apply(m, o, s, mv));
      MoveIncluded(m, o, s, mv);
    } else {
      NoMoves(m, o, s);
    }
  }

  lemma {:induction false} NoCommits(m: Model, o: Orders, s: State, t: Thread, n: nat)
    requires n <= |Buf(s, t)| && forall mv :: !Enabled(m, o, s, mv)
    ensures CommitTally(m, o, s, t, n) == Zero
  {
    hide TallyOf, Enabled;
    if n > 0 { NoCommits(m, o, s, t, n - 1); }
  }

  lemma {:induction false} NoMoves(m: Model, o: Orders, s: State)
    requires forall mv :: !Enabled(m, o, s, mv)
    ensures Children(m, o, s) == Zero
  {
    assert MoveTally(m, o, s, Reader) == Zero && MoveTally(m, o, s, Writer) == Zero by {
      hide TallyOf, Enabled;
    }
    hide TallyOf, Enabled, CommitTally, Children, MoveTally;
    NoCommits(m, o, s, R, |s.bufR|);
    NoCommits(m, o, s, W, |s.bufW|);
    ChildrenIs(m, o, s);
  }

  /** Something true of the counts of every possible move, and kept by addition, is true of their sum. */
  lemma {:induction false} SumOfCommits(m: Model, o: Orders, s: State, t: Thread, n: nat, P: Tally -> bool)
    requires n <= |Buf(s, t)| && P(Zero)
    requires forall a, b :: P(a) && P(b) ==> P(Plus(a, b))
    requires forall mv :: P(MoveTally(m, o, s, mv))
    ensures P(CommitTally(m, o, s, t, n))
  {
    if n > 0 {
      SumOfCommits(m, o, s, t, n - 1, P);
      assert P(MoveTally(m, o, s, Commit(t, n - 1)));
    }
  }

  lemma SumOfMoves(m: Model, o: Orders, s: State, P: Tally -> bool)
    requires P(Zero)
    requires forall a, b :: P(a) && P(b) ==> P(Plus(a, b))
    requires forall mv :: P(MoveTally(m, o, s, mv))
    ensures P(Children(m, o, s))
  {
    SumOfCommits(m, o, s, R, |s.bufR|, P);
    SumOfCommits(m, o, s, W, |s.bufW|, P);
  }

  /** From a reachable state no execution gets stuck, at least one ends, and once a freed
      version has been used every execution counts as a use. */
  lemma {:induction false} NeverStuck(m: Model, o: Orders, s: State)
    requires Inv(m, s)
    ensures TallyOf(m, o, s).stuck == 0 && TallyOf(m, o, s).exec >= 1
    ensures s.uaf ==> TallyOf(m, o, s).uaf == TallyOf(m, o, s).exec
    decreases Measure(s)
  {
    hide TallyOf, Children, MoveTally, Enabled, Apply, Inv;
    EveryCallCounts(m, o, s);
    TallyIs(m, o, s);
    if exists mv :: Enabled(m, o, s, mv) {
      var P := (a: Tally) => a.stuck == 0 && (s.uaf ==> a.uaf == a.exec);
      forall mv ensures P(MoveTally(m, o, s, mv)) {
        MoveTallyIs(m, o, s, mv);
        if Enabled(m, o, s, mv) {
          MoveKeeps(m, o, s, mv);
          NeverStuck(m, o, Apply(m, o, s, mv));
          if s.uaf { UseIsForGood(m, o, s, mv); }
        }
      }
      SumOfMoves(m, o, s, P);
    } else {
      NothingMovesOnlyAtEnd(m, o, s);
    }
  }

  lemma UseIsForGood(m: Model, o: Orders, s: State, mv: Move)
    requires Enabled(m, o, s, mv) && s.uaf
    ensures Apply(m, o, s, mv).uaf
  {
    hide ReaderMove, WriterMove, ReaderEnabled, WriterEnabled;
    match mv
    case Reader => ReaderKeepsUse(m, o, s);
    case Writer => WriterKeepsUse(m, o, s);
    case Commit(_, _) =>
  }

  lemma ReaderKeepsUse(m: Model, o: Orders, s: State)
    requires ReaderEnabled(m, o, s) && s.uaf
    ensures ReaderMove(m, o, s).uaf
  {
  }

  lemma WriterKeepsUse(m: Model, o: Orders, s: State)
    requires WriterEnabled(m, o, s) && s.uaf
    ensures WriterMove(m, o, s).uaf
  {
  }

  /** Complete: a run that uses a freed version is counted. */
  lemma {:induction false} RunIsCounted(m: Model, o: Orders, s: State, run: seq<Move>)
    requires Inv(m, s) && Follows(m, o, s, run) && After(m, o, s, run).uaf
    ensures TallyOf(m, o, s).uaf > 0
    decreases |run|
  {
    if run == [] {
      NeverStuck(m, o, s);
    } else {
      var s' := Apply(m, o, s, run[0]);
      MoveKeeps(m, o, s, run[0]);
      RunIsCounted(m, o, s', run[1..]);
      EveryCallCounts(m, o, s);
      MoveIncluded(m, o, s, run[0]);
    }
  }

  /** Sound: what is counted is the end of a run. */
  lemma {:induction false} CountIsARun(m: Model, o: Orders, s: State)
    requires TallyOf(m, o, s).uaf > 0
    ensures UsesFreed(m, o, s)
    decreases Measure(s)
  {
    hide TallyOf, Children, MoveTally, Enabled, Apply, UsesFreed;
    TallyIs(m, o, s);
    if !UsesFreed(m, o, s) {
      var P := (a: Tally) => a.uaf == 0;
      forall mv ensures P(MoveTally(m, o, s, mv)) {
        MoveTallyIs(m, o, s, mv);
        if Enabled(m, o, s, mv) && TallyOf(m, o, Apply(m, o, s, mv)).uaf > 0 {
          CountIsARun(m, o, Apply(m, o, s, mv));
          Prepend(m, o, s, mv);
        }
      }
      SumOfMoves(m, o, s, P);
      if s.uaf { AlreadyUsed(m, o, s); }
    }
  }

  /** The explorer is sound and complete: it counts a use of a freed version if and only if
      some interleaving has one, and that is decided by the orderings alone. */
  lemma ExplorerIsExact(m: Model, o: Orders)
    ensures var y := TallyOf(m, o, Init);
            && y.stuck == 0 && y.exec >= 1
            && (y.uaf > 0 <==> UsesFreed(m, o, Init))
            && (y.uaf > 0 <==> !SafeOrders(m, o))
  {
    NeverStuck(m, o, Init);
    ExactOrderings(m, o);
    if UsesFreed(m, o, Init) {
      var run :| Follows(m, o, Init, run) && After(m, o, Init, run).uaf;
      RunIsCounted(m, o, Init, run);
    }
    if TallyOf(m, o, Init).uaf > 0 { CountIsARun(m, o, Init); }
  }

  /** An execution: moves from `s` to a state in which nothing is left to do. */
  ghost predicate IsExecution(m: Model, o: Orders, s: State, run: seq<Move>) {
    Follows(m, o, s, run) && Finished(After(m, o, s, run))
  }

  /** The reader has used the freed version by the end of it. */
  ghost predicate UsesIn(m: Model, o: Orders, s: State, run: seq<Move>) {
    Follows(m, o, s, run) && After(m, o, s, run).uaf
  }

  ghost function CountUses(m: Model, o: Orders, s: State, runs: seq<seq<Move>>): nat {
    if runs == [] then 0
    else CountUses(m, o, s, runs[..|runs| - 1]) + if UsesIn(m, o, s, runs[|runs| - 1]) then 1 else 0
  }

  ghost predicate NoRepeats(runs: seq<seq<Move>>) {
    forall i, j :: 0 <= i < j < |runs| ==> runs[i] != runs[j]
  }

  /** The list holds exactly the executions that begin with one of these moves, each once, and the
      tally is right for them. */
  ghost predicate CountedFrom(m: Model, o: Orders, s: State, first: set<Move>, runs: seq<seq<Move>>, y: Tally) {
    && NoRepeats(runs)
    && (forall run :: run in runs <==> IsExecution(m, o, s, run) && run != [] && run[0] in first)
    && |runs| == y.exec && CountUses(m, o, s, runs) == y.uaf && y.stuck == 0
  }

  function Prefixed(mv: Move, runs: seq<seq<Move>>): seq<seq<Move>> {
    seq(|runs|, i requires 0 <= i < |runs| => [mv] + runs[i])
  }

  lemma FirstOfExecution(m: Model, o: Orders, s: State, mv: Move, run: seq<Move>)
    ensures IsExecution(m, o, s, [mv] + run)
       <==> Enabled(m, o, s, mv) && IsExecution(m, o, Apply(m, o, s, mv), run)
    ensures UsesIn(m, o, s, [mv] + run) <==> Enabled(m, o, s, mv) && UsesIn(m, o, Apply(m, o, s, mv), run)
  {
    hide Enabled, Apply, Finished;
    assert ([mv] + run)[1..] == run;
  }

  lemma {:induction false} PrefixedUses(m: Model, o: Orders, s: State, mv: Move, runs: seq<seq<Move>>)
    requires Enabled(m, o, s, mv)
    ensures CountUses(m, o, s, Prefixed(mv, runs)) == CountUses(m, o, Apply(m, o, s, mv), runs)
  {
    hide Enabled, Apply, UsesIn;
    if runs != [] {
      var n := |runs| - 1;
      assert Prefixed(mv, runs)[..n] == Prefixed(mv, runs[..n]);
      PrefixedUses(m, o, s, mv, runs[..n]);
      FirstOfExecution(m, o, s, mv, runs[n]);
    }
  }

  lemma {:induction false} UsesConcat(m: Model, o: Orders, s: State, a: seq<seq<Move>>, b: seq<seq<Move>>)
    ensures CountUses(m, o, s, a + b) == CountUses(m, o, s, a) + CountUses(m, o, s, b)
    decreases |b|
  {
    hide UsesIn;
    if b == [] {
      assert a + b == a;
    } else {
      assert (a + b)[..|a + b| - 1] == a + b[..|b| - 1];
      UsesConcat(m, o, s, a, b[..|b| - 1]);
    }
  }

  /** Executions with different first moves: the lists and the tallies add up. */
  lemma CountedTogether(m: Model, o: Orders, s: State, first: set<Move>, second: set<Move>,
                        a: seq<seq<Move>>, b: seq<seq<Move>>, y: Tally, z: Tally)
    requires CountedFrom(m, o, s, first, a, y) && CountedFrom(m, o, s, second, b, z) && first !! second
    ensures CountedFrom(m, o, s, first + second, a + b, Plus(y, z))
  {
    hide IsExecution, CountUses;
    UsesConcat(m, o, s, a, b);
    forall i, j | 0 <= i < j < |a + b| ensures (a + b)[i] != (a + b)[j] {
      if i < |a| <= j {
        assert a[i] in a && b[j - |a|] in b;
      }
    }
  }

  lemma MovesCounted(m: Model, o: Orders, s: State, mv: Move) returns (runs: seq<seq<Move>>)
    requires Inv(m, s)
    ensures CountedFrom(m, o, s, {mv}, runs, MoveTally(m, o, s, mv))
    decreases Measure(s), 0, 0
  {
    hide Enabled, Apply, Inv, IsExecution, CountUses, TallyOf, MoveTally;
    MoveTallyIs(m, o, s, mv);
    if Enabled(m, o, s, mv) {
      MoveKeeps(m, o, s, mv);
      var rest := ExecutionsCounted(m, o, Apply(m, o, s, mv));
      runs := Prefixed(mv, rest);
      PrefixedUses(m, o, s, mv, rest);
      PrefixedExecutions(m, o, s, mv, rest);
    } else {
      runs := [];
      NoUses(m, o, s);
      NoExecutionsWith(m, o, s, mv);
    }
  }

  lemma NoUses(m: Model, o: Orders, s: State)
    ensures CountUses(m, o, s, []) == 0
  {
  }

  lemma NoExecutionsWith(m: Model, o: Orders, s: State, mv: Move)
    requires !Enabled(m, o, s, mv)
    ensures forall run :: IsExecution(m, o, s, run) && run != [] ==> run[0] != mv
  {
    hide Enabled, Apply;
  }

  lemma PrefixedExecutions(m: Model, o: Orders, s: State, mv: Move, rest: seq<seq<Move>>)
    requires Enabled(m, o, s, mv) && NoRepeats(rest)
    requires forall run :: run in rest <==> IsExecution(m, o, Apply(m, o, s, mv), run)
    ensures NoRepeats(Prefixed(mv, rest))
    ensures forall run :: run in Prefixed(mv, rest) <==> IsExecution(m, o, s, run) && run != [] && run[0] in {mv}
  {
    hide Enabled, Apply, IsExecution;
    var runs := Prefixed(mv, rest);
    forall run ensures run in runs <==> IsExecution(m, o, s, run) && run != [] && run[0] in {mv} {
      if run != [] && run[0] == mv {
        var tail := run[1..];
        assert run == [mv] + tail;
        FirstOfExecution(m, o, s, mv, tail);
        if tail in rest {
          var i :| 0 <= i < |rest| && rest[i] == tail;
          assert runs[i] == run;
        }
        if run in runs {
          var i :| 0 <= i < |runs| && runs[i] == run;
          assert rest[i] == tail;
        }
      }
    }
    forall i, j | 0 <= i < j < |runs| ensures runs[i] != runs[j] {
      assert runs[i][1..] == rest[i] && runs[j][1..] == rest[j];
    }
  }

  function CommitsBelow(t: Thread, n: nat): set<Move> {
    if n == 0 then {} else CommitsBelow(t, n - 1) + {Commit(t, n - 1)}
  }

  lemma {:induction false} CommitsBelowAre(t: Thread, n: nat)
    ensures forall mv :: mv in CommitsBelow(t, n) <==> mv.Commit? && mv.t == t && mv.i < n
  {
    if n > 0 { CommitsBelowAre(t, n - 1); }
  }

  lemma {:induction false} CommitsCounted(m: Model, o: Orders, s: State, t: Thread, n: nat)
    returns (runs: seq<seq<Move>>)
    requires Inv(m, s) && n <= |Buf(s, t)|
    ensures CountedFrom(m, o, s, CommitsBelow(t, n), runs, CommitTally(m, o, s, t, n))
    decreases Measure(s), 1, n
  {
    hide Inv, IsExecution, TallyOf, MoveTally, Enabled;
    if n == 0 {
      runs := [];
      NoUses(m, o, s);
    } else {
      var a := CommitsCounted(m, o, s, t, n - 1);
      var b := MovesCounted(m, o, s, Commit(t, n - 1));
      CommitsBelowAre(t, n - 1);
      hide CountedFrom;
      CountedTogether(m, o, s, CommitsBelow(t, n - 1), {Commit(t, n - 1)}, a, b,
                      CommitTally(m, o, s, t, n - 1), MoveTally(m, o, s, Commit(t, n - 1)));
      runs := a + b;
    }
  }

  /** Every possible move is one the explorer tries. */
  function AllMoves(s: State): set<Move> {
    {Reader} + {Writer} + CommitsBelow(R, |s.bufR|) + CommitsBelow(W, |s.bufW|)
  }

  lemma ChildrenCounted(m: Model, o: Orders, s: State) returns (runs: seq<seq<Move>>)
    requires Inv(m, s)
    ensures CountedFrom(m, o, s, AllMoves(s), runs, Children(m, o, s))
    decreases Measure(s), 2
  {
    hide Inv, CountedFrom, MoveTally, CommitTally, Children;
    ChildrenIs(m, o, s);
    CommitsBelowAre(R, |s.bufR|);
    CommitsBelowAre(W, |s.bufW|);
    var a := MovesCounted(m, o, s, Reader);
    var b := MovesCounted(m, o, s, Writer);
    var c := CommitsCounted(m, o, s, R, |s.bufR|);
    var d := CommitsCounted(m, o, s, W, |s.bufW|);
    var r, w := MoveTally(m, o, s, Reader), MoveTally(m, o, s, Writer);
    var cr, cw := CommitTally(m, o, s, R, |s.bufR|), CommitTally(m, o, s, W, |s.bufW|);
    CountedTogether(m, o, s, {Reader}, {Writer}, a, b, r, w);
    CountedTogether(m, o, s, {Reader} + {Writer}, CommitsBelow(R, |s.bufR|), a + b, c, Plus(r, w), cr);
    CountedTogether(m, o, s, {Reader} + {Writer} + CommitsBelow(R, |s.bufR|), CommitsBelow(W, |s.bufW|),
                    a + b + c, d, Plus(Plus(r, w), cr), cw);
    runs := a + b + c + d;
  }

  lemma EnabledIsTried(m: Model, o: Orders, s: State, mv: Move)
    requires Enabled(m, o, s, mv)
    ensures mv in AllMoves(s) && !Finished(s)
  {
    CommitsBelowAre(R, |s.bufR|);
    CommitsBelowAre(W, |s.bufW|);
  }

  lemma StartsEnabled(m: Model, o: Orders, s: State, run: seq<Move>)
    requires Follows(m, o, s, run)
    ensures run != [] ==> Enabled(m, o, s, run[0])
    ensures run == [] ==> After(m, o, s, run) == s
  {
    hide Enabled, Apply;
  }

  /**
   What the counters count.  The executions from a reachable state, each listed once, are as many
   as n_exec gains, and those of them in which the freed version was used as many as n_uaf gains.
   */
  lemma {:induction false} ExecutionsCounted(m: Model, o: Orders, s: State) returns (runs: seq<seq<Move>>)
    requires Inv(m, s)
    ensures NoRepeats(runs) && forall run :: run in runs <==> IsExecution(m, o, s, run)
    ensures |runs| == TallyOf(m, o, s).exec && CountUses(m, o, s, runs) == TallyOf(m, o, s).uaf
    ensures TallyOf(m, o, s).stuck == 0
    decreases Measure(s), 3
  {
    hide Inv, Enabled, Apply, TallyOf, Children, CountUses, AllMoves, Finished;
    EveryCallCounts(m, o, s);
    TallyIs(m, o, s);
    NeverStuck(m, o, s);
    if exists mv :: Enabled(m, o, s, mv) {
      var mv :| Enabled(m, o, s, mv);
      EnabledIsTried(m, o, s, mv);
      runs := ChildrenCounted(m, o, s);
      forall run ensures run in runs <==> IsExecution(m, o, s, run) {
        if IsExecution(m, o, s, run) {
          StartsEnabled(m, o, s, run);
          if run != [] { EnabledIsTried(m, o, s, run[0]); }
        }
      }
    } else {
      NothingMovesOnlyAtEnd(m, o, s);
      runs := [[]];
      forall run ensures run in runs <==> IsExecution(m, o, s, run) {
        if Follows(m, o, s, run) { StartsEnabled(m, o, s, run); }
      }
      EndCounted(m, o, s);
    }
  }

  lemma EndCounted(m: Model, o: Orders, s: State)
    requires Finished(s)
    ensures EndOf(s).exec == 1 && EndOf(s).uaf == CountUses(m, o, s, [[]])
    ensures IsExecution(m, o, s, [])
  {
    var none: seq<seq<Move>> := [[]];
    assert none[..0] == [];
  }

  /** `n` is the number of executions from `s`, and `u` the number of those that use the freed version. */
  ghost predicate CountsExecutions(m: Model, o: Orders, s: State, n: int, u: int) {
    exists runs :: NoRepeats(runs) && (forall run :: run in runs <==> IsExecution(m, o, s, run))
                   && |runs| == n && CountUses(m, o, s, runs) == u
  }

  lemma TallyCounts(m: Model, o: Orders, s: State)
    requires Inv(m, s)
    ensures CountsExecutions(m, o, s, TallyOf(m, o, s).exec, TallyOf(m, o, s).uaf)
    ensures TallyOf(m, o, s).stuck == 0
  {
    hide TallyOf, IsExecution, CountUses;
    var runs := ExecutionsCounted(m, o, s);
  }

  /** The checker itself: the counters are overwritten while the recursion copies the state. */
  class Checker {
    const m: Model
    const o: Orders
    var n_exec: nat
    var n_uaf: nat
    var n_stuck: nat

    constructor (m: Model, o: Orders)
      ensures this.m == m && this.o == o && Counters() == Zero
    {
      this.m, this.o := m, o;
      n_exec, n_uaf, n_stuck := 0, 0, 0;
    }

    function Counters(): Tally
      reads this
    {
      Tally(n_exec, n_uaf, n_stuck)
    }

    /** Make the move if it is possible, and explore what follows. */
    method Try(s: State, mv: Move)
      modifies this`n_exec, this`n_uaf, this`n_stuck
      ensures Counters() == Plus(old(Counters()), MoveTally(m, o, s, mv))
      decreases Measure(s), 0
    {
      if Enabled(m, o, s, mv) {
        Explore(Apply(m, o, s, mv));
      }
    }

    /** The inner loop: every entry of one buffer that may commit. */
    method TryCommits(s: State, t: Thread)
      modifies this`n_exec, this`n_uaf, this`n_stuck
      ensures Counters() == Plus(old(Counters()), CommitTally(m, o, s, t, |Buf(s, t)|))
      decreases Measure(s), 1
    {
      hide MoveTally;
      for i := 0 to |Buf(s, t)|
        invariant Counters() == Plus(old(Counters()), CommitTally(m, o, s, t, i))
      {
        Try(s, Commit(t, i));
      }
    }

    /** Every move there is. */
    method TryAll(s: State)
      modifies this`n_exec, this`n_uaf, this`n_stuck
      ensures Counters() == Plus(old(Counters()), Children(m, o, s))
      decreases Measure(s), 2
    {
      hide TallyOf, Children, MoveTally, CommitTally, Measure;
      Try(s, Reader);
      Try(s, Writer);
      TryCommits(s, R);
      TryCommits(s, W);
      ChildrenIs(m, o, s);
    }

    /** From a reachable state: each execution adds one to n_exec, and one to n_uaf if the freed
        version is used in it. */
    method Explore(s: State)
      modifies this`n_exec, this`n_uaf, this`n_stuck
      ensures Counters() == Plus(old(Counters()), TallyOf(m, o, s))
      ensures Inv(m, s) ==>
                && CountsExecutions(m, o, s, n_exec - old(n_exec), n_uaf - old(n_uaf))
                && n_stuck == old(n_stuck)
      decreases Measure(s), 3
    {
      hide TallyOf, Children, CountsExecutions, Inv, Finished, Measure;
      if Inv(m, s) { TallyCounts(m, o, s); }
      var before := n_exec + n_stuck;
      TryAll(s);
      TallyIs(m, o, s);
      var moved := n_exec + n_stuck != before;
      if moved {
        return;
      }
      NothingCounted(m, o, s);
      EndIs(s);
      hide EndOf;
      if Finished(s) {
        n_exec := n_exec + 1;
        if s.uaf { n_uaf := n_uaf + 1; }
      } else {
        n_stuck := n_stuck + 1;
      }
    }
  }

  lemma EndIs(s: State)
    ensures EndOf(s).exec == (if Finished(s) then 1 else 0) && EndOf(s).stuck == 1 - EndOf(s).exec
    ensures EndOf(s).uaf == (if Finished(s) && s.uaf then 1 else 0)
  {
  }

  lemma NothingCounted(m: Model, o: Orders, s: State)
    requires Children(m, o, s).exec + Children(m, o, s).stuck == 0
    ensures Children(m, o, s).uaf == 0
  {
    EveryCallCounts(m, o, s);
    NoMoves(m, o, s);
  }

  /** What is reported for each model, and altogether. */
  datatype Verdict = Verdict(executions: map<Model, nat>, uses: map<Model, nat>, unsafeOn: set<Model>, deadlocked: bool)

  /** main's loop over the three models. */
  method Check(o: Orders) returns (v: Verdict)
    ensures !v.deadlocked
    ensures forall m :: m in v.executions && m in v.uses
                        && CountsExecutions(m, o, Init, v.executions[m], v.uses[m])
    ensures forall m :: m in v.unsafeOn <==> UsesFreed(m, o, Init)
    ensures forall m :: m in v.unsafeOn <==> !SafeOrders(m, o)
    ensures v.unsafeOn == {} <==> o.announce.SeqCst? && o.deref.SeqCst? && o.publish.SeqCst? && o.scan.SeqCst?
  {
    hide TallyOf, UsesFreed, SafeOrders, CountsExecutions;
    var executions: map<Model, nat>, uses: map<Model, nat> := map[], map[];
    var models := [Sequential, Tso, Arm];
    var unsafeOn, deadlocked := {}, false;
    for k := 0 to |models|
      invariant !deadlocked
      invariant forall m :: m in models[..k] ==>
                  m in executions && m in uses && CountsExecutions(m, o, Init, executions[m], uses[m])
      invariant forall m :: m in unsafeOn <==> m in models[..k] && !SafeOrders(m, o)
    {
      var checker := new Checker(models[k], o);
      checker.Explore(Init);
      ExplorerIsExact(models[k], o);
      executions, uses := executions[models[k] := checker.n_exec], uses[models[k] := checker.n_uaf];
      if checker.n_uaf > 0 { unsafeOn := unsafeOn + {models[k]}; }
      if checker.n_stuck > 0 { deadlocked := true; }
    }
    assert models[..3] == models;
    forall m: Model ensures m in models && (UsesFreed(m, o, Init) <==> !SafeOrders(m, o)) {
      ExactOrderings(m, o);
      match m
      case Sequential => assert models[0] == m;
      case Tso => assert models[1] == m;
      case Arm => assert models[2] == m;
    }
    SafeEverywhere(o);
    v := Verdict(executions, uses, unsafeOn, deadlocked);
  }
}
