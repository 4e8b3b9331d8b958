/**
 What a whole run of the pool guarantees: it never gets stuck, it ends, and it handles
 every task exactly once.
 */
module PoolTheorems {
  import Monitor
  import MonitorTheorems
  import opened InvariantDefinition
  import opened Pool
  import opened PoolInvariant

  ghost predicate Reachable(c: Setup, s: State) {
    exists clock: nat, given: seq<Record>, run: seq<Action> ::
      IsRun(c, clock, given, run) && s == After(c, Start(c, clock, given), run)
  }

  ghost predicate IsRun(c: Setup, clock: nat, given: seq<Record>, run: seq<Action>) {
    Valid(c) && clock > 0 && |given| == c.total && Runs(c, Start(c, clock, given), run)
  }

  lemma ReachableKeeps(c: Setup, s: State)
    requires Reachable(c, s)
    ensures Inv(c, s)
  {
    var clock: nat, given: seq<Record>, run :|
      IsRun(c, clock, given, run) && s == After(c, Start(c, clock, given), run);
    StartHolds(c, clock, given);
    hide Inv;
    RunKeeps(c, Start(c, clock, given), run);
  }

  predicate Spurious(a: Action) {
    a.WakeWorker? || a.WakeDispatcher?
  }

  /** Every task goes through a queue that some worker serves. */
  lemma RoutesAreServed(c: Setup, x: nat) returns (w: nat)
    requires Valid(c)
    ensures w < c.pool && QueueOf(c, w) == RouteOf(c, x) && RouteOf(c, x) < 2
  {
    w := if RouteOf(c, x) == 0 then 0 else 1;
  }

  /** A worker that is not waiting for the gate or asleep can always take a step. */
  lemma WorkerCanGo(c: Setup, s: State, w: nat) returns (a: Action)
    requires Inv(c, s) && w < c.pool && !s.workers[w].Returned?
    requires s.workers[w].With? ==> WaitsForGate(s.workers[w].stage) ==> s.gate == Free
    requires s.workers[w].Popping? ==> w !in s.queues[QueueOf(c, w)].notEmpty.sleeping
    ensures Enabled(c, s, a) && !Spurious(a)
  {
    if s.workers[w].With? {
      a := Work(w, s.clock);
    } else {
      var q := s.queues[QueueOf(c, w)];
      assert QueueOk(c, s, QueueOf(c, w)) && InOrder(c, s, QueueOf(c, w));
      a := Pop(w, q.notFull.sleeping);
      assert !Monitor.OnCond(q.notFull, w);
    }
  }

  /** The worker that blocks the gate, or one that waits for a free gate, can go. */
  lemma GateMoves(c: Setup, s: State, w: nat) returns (a: Action)
    requires Inv(c, s) && w < c.pool && s.workers[w].With?
    ensures Enabled(c, s, a) && !Spurious(a)
  {
    if s.gate == Free {
      a := WorkerCanGo(c, s, w);
    } else {
      a := WorkerCanGo(c, s, s.gate.w);
    }
  }

  /** Somebody asleep on a queue that holds an item: somebody else is on the way to it. */
  lemma ToldConsumerMoves(c: Setup, s: State, k: nat) returns (a: Action)
    requires Inv(c, s) && k < 2 && s.queues[k].items != [] && s.queues[k].notEmpty.sleeping != {}
    ensures Enabled(c, s, a) && !Spurious(a)
  {
    assert QueueOk(c, s, k);
    var q := s.queues[k];
    assert q.notEmpty.told != {};
    var t :| t in q.notEmpty.told;
    assert Monitor.OnCond(q.notEmpty, t);
    a := WorkerCanGo(c, s, t);
  }

  lemma DispatcherMoves(c: Setup, s: State) returns (a: Action)
    requires Inv(c, s) && (s.dispatcher.Next? || s.dispatcher.Pushing? || s.dispatcher.Closing?)
    ensures Enabled(c, s, a) && !Spurious(a)
  {
    match s.dispatcher
    case Next(i) => a := Arrive(s.clock);
    case Closing(k) =>
      a := Shut;
      NotWaiting(c, s, k);
    case Pushing(i) =>
      var k := RouteOf(c, i);
      var w := RoutesAreServed(c, i);
      NotWaiting(c, s, k);
      assert QueueOk(c, s, k);
      var q := s.queues[k];
      if c.pool !in q.notFull.sleeping {
        a := Push(q.notEmpty.sleeping);
      } else {
        OnlyOne(c, s, k);
        if w in q.notEmpty.sleeping {
          a := ToldConsumerMoves(c, s, k);
        } else if s.workers[w].With? {
          a := GateMoves(c, s, w);
        } else {
          a := WorkerCanGo(c, s, w);
        }
      }
  }

  /** The dispatcher never waits for items, and waits for space only while it pushes. */
  lemma NotWaiting(c: Setup, s: State, k: nat)
    requires Inv(c, s) && k < 2
    ensures c.pool !in s.queues[k].notEmpty.sleeping && c.pool !in s.queues[k].notEmpty.told
    ensures !s.dispatcher.Pushing? ==> c.pool !in s.queues[k].notFull.sleeping && c.pool !in s.queues[k].notFull.told
  {
    assert QueueOk(c, s, k);
    var q := s.queues[k];
    assert c.pool in q.notEmpty.sleeping || c.pool in q.notEmpty.told ==> Monitor.OnCond(q.notEmpty, c.pool);
    assert c.pool in q.notFull.sleeping || c.pool in q.notFull.told ==> Monitor.OnCond(q.notFull, c.pool);
  }

  /** With the one producer asleep the queue is full. */
  lemma OnlyOne(c: Setup, s: State, k: nat)
    requires Inv(c, s) && k < 2 && c.pool in s.queues[k].notFull.sleeping
    ensures |s.queues[k].items| == WL_CAPACITY && !s.queues[k].closed
  {
    assert QueueOk(c, s, k);
    var q := s.queues[k];
    assert Monitor.OnCond(q.notFull, c.pool);
    if q.notFull.told != {} {
      var t :| t in q.notFull.told;
      assert Monitor.OnCond(q.notFull, t);
      assert false;
    }
  }

  /** The dispatcher is held up by a queue only while that queue holds 64 tasks. */
  lemma SleepsOnlyWhenFull(c: Setup, s: State, k: nat)
    requires Reachable(c, s) && k < |s.queues| && c.pool in s.queues[k].notFull.sleeping
    ensures |s.queues[k].items| == 64
  {
    ReachableKeeps(c, s);
    OnlyOne(c, s, k);
  }

  /** No reachable state but the last has every thread blocked. */
  lemma NeverStuck(c: Setup, s: State) returns (a: Action)
    requires Reachable(c, s) && !s.dispatcher.Finished?
    ensures Enabled(c, s, a) && !Spurious(a)
  {
    ReachableKeeps(c, s);
    match s.dispatcher
    case Joining(w) =>
      if s.workers[w].Returned? {
        a := Join;
      } else if s.workers[w].With? {
        a := GateMoves(c, s, w);
      } else {
        assert QueueOk(c, s, QueueOf(c, w));
        a := WorkerCanGo(c, s, w);
      }
    case _ => a := DispatcherMoves(c, s);
  }

  /** A queue that has been closed keeps nobody asleep: the one producer is the one that closes. */
  lemma NobodySleepsOnClosed(c: Setup, s: State, k: nat)
    requires Reachable(c, s) && k < |s.queues| && s.queues[k].closed
    ensures s.queues[k].notEmpty.sleeping == {} && s.queues[k].notFull.sleeping == {}
  {
    ReachableKeeps(c, s);
    assert QueueOk(c, s, k);
    var q := s.queues[k];
    if q.notFull.sleeping != {} {
      var t :| t in q.notFull.sleeping;
      assert Monitor.OnCond(q.notFull, t);
      assert false;
    }
  }

  /** Only the holder tasks of the blocked-holder pathology hold the gate, and they are never served otherwise. */
  lemma OnlyHoldersHold(c: Setup, s: State, w: nat)
    requires Reachable(c, s) && w < |s.workers| && s.workers[w].With?
    ensures s.workers[w].stage == Holding ==> IsHolder(c, s.workers[w].x)
    ensures s.workers[w].stage == Serving ==> !IsHolder(c, s.workers[w].x)
  {
    ReachableKeeps(c, s);
    var x := s.workers[w].x;
    assert TaskOk(c, s, x) && TimeOk(c, s, x);
  }

  function Total(v: seq<nat>): nat {
    if v == [] then 0 else Total(v[..|v| - 1]) + v[|v| - 1]
  }

  lemma {:induction false} TotalOfOne(v: seq<nat>, i: nat, x: nat)
    requires i < |v|
    ensures Total(v[i := x]) == Total(v) - v[i] + x
  {
    var k := |v| - 1;
    if i == k {
      assert v[i := x][..k] == v[..k];
    } else {
      assert v[i := x][..k] == v[..k][i := x];
      TotalOfOne(v[..k], i, x);
    }
  }

  lemma {:induction false} TotalOfSmall(v: seq<nat>, most: nat)
    requires forall i :: 0 <= i < |v| ==> v[i] <= most
    ensures Total(v) <= most * |v|
  {
    if v != [] {
      TotalOfSmall(v[..|v| - 1], most);
      assert most * |v| == most * (|v| - 1) + most;
    }
  }

  /** Steps a worker has left before it asks for the next task, and one more. */
  function Rank(w: Worker): nat {
    match w
    case Returned => 0
    case Popping => 1
    case With(g, x) =>
      match g
      case AtGate => 8
      case InGate => 7
      case Starting => 6
      case WantGate => 5
      case Holding => 4
      case Serving => 4
      case Ending => 3
      case Counting => 2
  }

  function Ranks(s: State): seq<nat> {
    seq(|s.workers|, w requires 0 <= w < |s.workers| => Rank(s.workers[w]))
  }

  /** What the dispatcher has still to bring about. */
  function Ahead(c: Setup, d: Dispatcher): int {
    match d
    case Next(i) => 11 * (c.total - i) + c.pool + 6
    case Pushing(i) => 11 * (c.total - i) + c.pool + 5
    case Closing(k) => c.pool + 4 - k
    case Joining(w) => c.pool + 1 - w
    case Finished => 0
  }

  function ToDo(c: Setup, s: State): int
    requires |s.queues| == 2
  {
    Ahead(c, s.dispatcher) + 8 * (|s.queues[0].items| + |s.queues[1].items|) + Total(Ranks(s))
  }

  /** A worker that looks for a task, or the dispatcher for space, and is not asleep. */
  function Looking(c: Setup, s: State, w: nat): nat
    requires |s.queues| == 2 && w < |s.workers|
  {
    if s.workers[w].Popping? && w !in s.queues[QueueOf(c, w)].notEmpty.sleeping then 1 else 0
  }

  function LookingAll(c: Setup, s: State): seq<nat>
    requires |s.queues| == 2
  {
    seq(|s.workers|, w requires 0 <= w < |s.workers| => Looking(c, s, w))
  }

  function Offering(c: Setup, s: State): nat
    requires |s.queues| == 2
  {
    if s.dispatcher.Pushing? && c.pool !in s.queues[RouteOf(c, s.dispatcher.i)].notFull.sleeping then 1 else 0
  }

  function Awake(c: Setup, s: State): nat
    requires |s.queues| == 2
  {
    Total(LookingAll(c, s)) + Offering(c, s)
  }

  function Potential(c: Setup, s: State): int
    requires |s.queues| == 2
  {
    (c.pool + 2) * ToDo(c, s) + Awake(c, s)
  }

  /** Going back to sleep: nothing is gained, but one thread fewer is awake. */
  predicate GoesToSleep(c: Setup, s: State, a: Action)
    requires Enabled(c, s, a)
  {
    (a.Push? || a.Pop?) && Monitor.OutcomeOf(s.queues[Asked(c, s, a)], Request(c, s, a)) == Monitor.Slept
  }

  lemma AwakeBound(c: Setup, s: State)
    requires Shape(c, s)
    ensures Awake(c, s) <= c.pool + 1
  {
    TotalOfSmall(LookingAll(c, s), 1);
  }

  lemma RanksChange(s: State, n: State, w: nat)
    requires w < |s.workers| == |n.workers| && n.workers == s.workers[w := n.workers[w]]
    ensures Total(Ranks(n)) == Total(Ranks(s)) - Rank(s.workers[w]) + Rank(n.workers[w])
  {
    assert Ranks(n) == Ranks(s)[w := Rank(n.workers[w])];
    TotalOfOne(Ranks(s), w, Rank(n.workers[w]));
  }

  /** Every other step brings the end nearer. */
  lemma ToDoFalls(c: Setup, s: State, a: Action, n: State)
    requires Shape(c, s) && Enabled(c, s, a) && n == Step(c, s, a) && Shape(c, n)
    requires !Spurious(a) && !GoesToSleep(c, s, a)
    ensures ToDo(c, n) < ToDo(c, s)
  {
    hide Monitor.Step, Monitor.Enabled, Total;
    ItemsAfter(c, s, a);
    if a.Pop? || a.Work? {
      RanksChange(s, n, a.w);
    } else {
      assert Ranks(n) == Ranks(s);
    }
  }

  lemma LookingChange(c: Setup, s: State, n: State, w: nat)
    requires |s.queues| == 2 && |n.queues| == 2 && w < |s.workers| == |n.workers|
    requires forall v: nat :: v < |s.workers| && v != w ==> Looking(c, n, v) == Looking(c, s, v)
    ensures Total(LookingAll(c, n)) == Total(LookingAll(c, s)) - Looking(c, s, w) + Looking(c, n, w)
  {
    hide Looking;
    assert LookingAll(c, n) == LookingAll(c, s)[w := Looking(c, n, w)];
    TotalOfOne(LookingAll(c, s), w, Looking(c, n, w));
  }

  lemma QueueIsOk(c: Setup, s: State, k: nat)
    requires Inv(c, s) && k < 2
    ensures QueueOk(c, s, k)
  {
  }

  /** A consumer falling asleep, or waking for no reason. */
  lemma ConsumerTurns(c: Setup, s: State, a: Action, n: State)
    requires Inv(c, s) && Enabled(c, s, a) && n == Step(c, s, a) && Shape(c, n)
    requires (a.Pop? && GoesToSleep(c, s, a)) || a.WakeWorker?
    ensures ToDo(c, n) == ToDo(c, s)
    ensures Awake(c, n) == Awake(c, s) + if a.Pop? then -1 else 1
  {
    hide Total, Inv;
    ItemsAfter(c, s, a);
    var k := Asked(c, s, a);
    QueueIsOk(c, s, k);
    assert a.WakeWorker? ==> Monitor.OnCond(s.queues[k].notEmpty, a.w);
    assert Ranks(n) == Ranks(s);
    LookingChange(c, s, n, a.w);
  }

  /** The dispatcher falling asleep, or waking for no reason. */
  lemma ProducerTurns(c: Setup, s: State, a: Action, n: State)
    requires Inv(c, s) && Enabled(c, s, a) && n == Step(c, s, a) && Shape(c, n)
    requires (a.Push? && GoesToSleep(c, s, a)) || a.WakeDispatcher?
    ensures ToDo(c, n) == ToDo(c, s)
    ensures Awake(c, n) == Awake(c, s) + if a.Push? then -1 else 1
  {
    hide Total, Inv;
    ItemsAfter(c, s, a);
    var k := Asked(c, s, a);
    QueueIsOk(c, s, k);
    assert a.WakeDispatcher? ==> Monitor.OnCond(s.queues[k].notFull, c.pool);
    assert Ranks(n) == Ranks(s);
    assert LookingAll(c, n) == LookingAll(c, s);
  }

  lemma Scaled(m: nat, x: int, y: int)
    requires x < y
    ensures m * x + m <= m * y
  {
    var d := y - x - 1;
    Product(m, d);
    assert m * y == m * (x + 1 + d) == m * x + m + m * d;
  }

  lemma {:induction false} Product(m: nat, d: nat)
    ensures m * d >= 0
  {
    if m > 0 {
      Product(m - 1, d);
      assert m * d == (m - 1) * d + d;
    }
  }

  lemma OrdinaryFalls(c: Setup, s: State, a: Action, n: State)
    requires Shape(c, s) && Enabled(c, s, a) && n == Step(c, s, a) && Shape(c, n)
    requires !Spurious(a) && !GoesToSleep(c, s, a)
    ensures Potential(c, n) < Potential(c, s)
  {
    hide Step, Enabled, ToDo, Awake, Spurious, GoesToSleep;
    ToDoFalls(c, s, a, n);
    AwakeBound(c, n);
    Scaled(c.pool + 2, ToDo(c, n), ToDo(c, s));
  }

  lemma TurnsFall(c: Setup, s: State, a: Action, n: State)
    requires Inv(c, s) && Enabled(c, s, a) && n == Step(c, s, a) && Shape(c, n)
    requires Spurious(a) || GoesToSleep(c, s, a)
    ensures Potential(c, n) == Potential(c, s) + if Spurious(a) then 1 else -1
  {
    hide Step, Enabled, ToDo, Awake, Inv, Shape;
    if a.Pop? || a.WakeWorker? {
      ConsumerTurns(c, s, a, n);
    } else {
      ProducerTurns(c, s, a, n);
    }
  }

  /** Each step but a spurious wakeup lowers the potential; that raises it by one. */
  lemma PotentialFalls(c: Setup, s: State, a: Action)
    requires Inv(c, s) && Enabled(c, s, a)
    ensures Shape(c, Step(c, s, a))
    ensures Potential(c, Step(c, s, a)) + 1 <= Potential(c, s) + if Spurious(a) then 2 else 0
  {
    hide Step, Enabled, Shape, Potential, GoesToSleep;
    KeepsShape(c, s, a);
    var n := Step(c, s, a);
    if Spurious(a) || GoesToSleep(c, s, a) {
      TurnsFall(c, s, a, n);
    } else {
      OrdinaryFalls(c, s, a, n);
    }
  }

  function SpuriousIn(run: seq<Action>): nat {
    if run == [] then 0 else (if Spurious(run[0]) then 1 else 0) + SpuriousIn(run[1..])
  }

  lemma PotentialPositive(c: Setup, s: State)
    requires Shape(c, s)
    ensures Potential(c, s) >= 0
  {
    Scaled(c.pool + 2, -1, ToDo(c, s));
  }

  lemma {:induction false} RunIsBounded(c: Setup, s: State, run: seq<Action>)
    requires Inv(c, s) && Runs(c, s, run)
    ensures |run| <= Potential(c, s) + 2 * SpuriousIn(run)
    decreases |run|
  {
    if run == [] {
      PotentialPositive(c, s);
    } else {
      var n := Step(c, s, run[0]);
      PotentialFalls(c, s, run[0]);
      StepKeeps(c, s, run[0]);
      hide Inv, Step, Enabled, Potential;
      RunIsBounded(c, n, run[1..]);
    }
  }

  /** The longest run there can be, apart from spurious wakeups. */
  function LongestRun(c: Setup): nat {
    (c.pool + 2) * (11 * c.total + 2 * c.pool + 6) + c.pool + 1
  }

  lemma StartPotential(c: Setup, s: State)
    requires Shape(c, s) && s.dispatcher == Upcoming(c, 0)
    requires s.queues[0].items == [] && s.queues[1].items == []
    requires forall w :: 0 <= w < c.pool ==> s.workers[w] == Popping
    ensures Potential(c, s) <= LongestRun(c)
  {
    AwakeBound(c, s);
    TotalOfSmall(Ranks(s), 1);
    var most := 11 * c.total + 2 * c.pool + 6;
    assert ToDo(c, s) <= most;
    hide ToDo, Awake;
    Scaled(c.pool + 2, ToDo(c, s), most + 1);
    assert (c.pool + 2) * (most + 1) == (c.pool + 2) * most + (c.pool + 2);
  }

  /** The scheduler cannot keep the pool busy for ever: only spurious wakeups add steps. */
  lemma EveryRunEnds(c: Setup, clock: nat, given: seq<Record>, run: seq<Action>)
    requires IsRun(c, clock, given, run)
    ensures |run| <= LongestRun(c) + 2 * SpuriousIn(run)
  {
    hide Potential, LongestRun, Runs;
    var s := Start(c, clock, given);
    StartHolds(c, clock, given);
    StartPotential(c, s);
    RunIsBounded(c, s, run);
  }

  function Records(s: State): seq<Record> {
    seq(|s.tasks|, x requires 0 <= x < |s.tasks| => s.tasks[x].rec)
  }

  /** A worker that has returned left nothing behind: once all have, every queue is empty for good. */
  lemma AllHandedOut(c: Setup, s: State, x: nat)
    requires Inv(c, s) && s.dispatcher.Finished? && x < c.total
    ensures s.tasks[x].pushed == 1 && s.tasks[x].popped == 1 && s.tasks[x].finished == 1
  {
    var k := RouteOf(c, x);
    var w := RoutesAreServed(c, x);
    assert QueueOk(c, s, k) && TaskOk(c, s, x);
    assert s.workers[w].Returned?;
  }

  lemma {:induction false} AllFinished(ts: seq<Task>)
    requires forall x :: 0 <= x < |ts| ==> ts[x].finished == 1
    ensures SumFinished(ts) == |ts|
  {
    if ts != [] { AllFinished(ts[..|ts| - 1]); }
  }

  /** When wl_run returns: every task was pushed, popped and completed once, and that is the count. */
  lemma EveryTaskOnce(c: Setup, s: State)
    requires Reachable(c, s) && s.dispatcher.Finished?
    ensures |s.tasks| == c.total == s.completed
    ensures forall x :: 0 <= x < c.total ==>
              s.tasks[x].pushed == 1 && s.tasks[x].popped == 1 && s.tasks[x].finished == 1
    ensures forall k :: 0 <= k < |s.queues| ==> s.queues[k].items == [] && s.queues[k].closed
  {
    ReachableKeeps(c, s);
    forall x: nat | x < c.total
      ensures s.tasks[x].pushed == 1 && s.tasks[x].popped == 1 && s.tasks[x].finished == 1
    {
      AllHandedOut(c, s, x);
    }
    AllFinished(s.tasks);
    NothingLeft(c, s, 0);
    NothingLeft(c, s, 1);
  }

  lemma FirstItemWaits(c: Setup, s: State, k: nat)
    requires Inv(c, s) && k < 2 && s.queues[k].items != []
    ensures s.queues[k].items[0] < c.total && s.tasks[s.queues[k].items[0]].popped == 0
  {
    assert InOrder(c, s, k);
    assert TaskOk(c, s, s.queues[k].items[0]);
  }

  lemma NothingLeft(c: Setup, s: State, k: nat)
    requires Inv(c, s) && s.dispatcher.Finished? && k < 2
    ensures s.queues[k].items == [] && s.queues[k].closed
  {
    assert QueueOk(c, s, k);
    if s.queues[k].items != [] {
      FirstItemWaits(c, s, k);
      AllHandedOut(c, s, s.queues[k].items[0]);
      assert false;
    }
  }

  /** At every moment, no task has been pushed, popped or completed twice, and the count is right. */
  lemma NeverTwice(c: Setup, s: State)
    requires Reachable(c, s)
    ensures forall x :: 0 <= x < |s.tasks| ==> s.tasks[x].finished <= s.tasks[x].popped <= s.tasks[x].pushed <= 1
    ensures s.completed == SumFinished(s.tasks)
  {
    ReachableKeeps(c, s);
    forall x: nat | x < |s.tasks| ensures s.tasks[x].finished <= s.tasks[x].popped <= s.tasks[x].pushed <= 1 {
      assert TaskOk(c, s, x);
    }
  }

  /** Tasks of one queue are taken in the order in which they were dispatched. */
  lemma FirstComeFirstServed(c: Setup, s: State, x: nat, y: nat)
    requires Reachable(c, s) && x < y < |s.tasks| && RouteOf(c, x) == RouteOf(c, y) && s.tasks[y].popped == 1
    ensures s.tasks[x].popped == 1
  {
    ReachableKeeps(c, s);
  }

  /** The gate lets one worker through at a time. */
  lemma GateExcludes(c: Setup, s: State, v: nat, w: nat)
    requires Reachable(c, s) && v < |s.workers| && w < |s.workers|
    requires s.workers[v].With? && HasGate(s.workers[v].stage) && s.workers[w].With? && HasGate(s.workers[w].stage)
    ensures v == w
  {
    ReachableKeeps(c, s);
  }

  /** Can this thread take a step?  The dispatcher is thread `pool`. */
  predicate CanGo(c: Setup, s: State, t: nat) {
    if t < |s.workers| then
      match s.workers[t]
      case Returned => false
      case Popping => QueueOf(c, t) < |s.queues| && t !in s.queues[QueueOf(c, t)].notEmpty.sleeping
      case With(g, x) => WaitsForGate(g) ==> s.gate == Free
    else
      t == c.pool &&
      match s.dispatcher
      case Pushing(i) => RouteOf(c, i) < |s.queues| && t !in s.queues[RouteOf(c, i)].notFull.sleeping
      case Joining(w) => w < |s.workers| && s.workers[w].Returned?
      case Finished => false
      case _ => true
  }

  function Actor(c: Setup, a: Action): nat {
    match a
    case Pop(w, woken) => w
    case Work(w, now) => w
    case WakeWorker(w) => w
    case _ => c.pool
  }

  lemma SomeThreadCanGo(c: Setup, s: State) returns (t: nat)
    requires Reachable(c, s) && !s.dispatcher.Finished?
    ensures t <= c.pool && CanGo(c, s, t)
  {
    var a := NeverStuck(c, s);
    ReachableKeeps(c, s);
    t := Actor(c, a);
  }

  lemma ReachableNext(c: Setup, s: State, a: Action)
    requires Reachable(c, s) && Enabled(c, s, a)
    ensures Reachable(c, Step(c, s, a))
  {
    var clock: nat, given: seq<Record>, run :|
      IsRun(c, clock, given, run) && s == After(c, Start(c, clock, given), run);
    hide Enabled, Step;
    AppendStep(c, Start(c, clock, given), run, a);
    assert IsRun(c, clock, given, run + [a]);
  }

  lemma WakeupKeeps(c: Setup, s: State, a: Action)
    requires Inv(c, s) && Reachable(c, s) && Enabled(c, s, a)
    ensures Inv(c, Step(c, s, a)) && Reachable(c, Step(c, s, a))
  {
    hide Inv, Reachable, Step, Enabled;
    StepKeeps(c, s, a);
    ReachableNext(c, s, a);
  }

  lemma {:induction false} AppendStep(c: Setup, s: State, run: seq<Action>, a: Action)
    requires Runs(c, s, run) && Enabled(c, After(c, s, run), a)
    ensures Runs(c, s, run + [a]) && After(c, s, run + [a]) == Step(c, After(c, s, run), a)
    decreases |run|
  {
    hide Enabled, Step;
    if run == [] {
      assert (run + [a])[1..] == [];
    } else {
      AppendStep(c, Step(c, s, run[0]), run[1..], a);
      assert (run + [a])[1..] == run[1..] + [a];
    }
  }

  lemma StartReachable(c: Setup, clock: nat, given: seq<Record>)
    requires Valid(c) && clock > 0 && |given| == c.total
    ensures Reachable(c, Start(c, clock, given))
  {
    var run: seq<Action> := [];
    assert Runs(c, Start(c, clock, given), run);
    assert IsRun(c, clock, given, run);
  }

  /** Some of the sleepers, the preferred ones if any of them sleeps. */
  function Pick(sleeping: set<nat>, preferred: set<nat>): set<nat> {
    if preferred * sleeping == {} then sleeping else preferred * sleeping
  }

  /** The step the thread takes, and the threads it wakes if that step signals. */
  function NextAction(c: Setup, s: State, t: nat, now: nat, wake: set<nat>): Action
    requires |s.queues| == 2
  {
    if t < |s.workers| then
      if s.workers[t].With? then Work(t, now)
      else Pop(t, Pick(s.queues[QueueOf(c, t)].notFull.sleeping, wake))
    else
      match s.dispatcher
      case Next(i) => Arrive(now)
      case Pushing(i) => Push(Pick(s.queues[RouteOf(c, i)].notEmpty.sleeping, wake))
      case Closing(k) => Shut
      case _ => Join
  }

  lemma NextIsEnabled(c: Setup, s: State, t: nat, now: nat, wake: set<nat>)
    requires Inv(c, s) && t <= c.pool && CanGo(c, s, t) && s.clock <= now
    ensures Enabled(c, s, NextAction(c, s, t, now, wake)) && !Spurious(NextAction(c, s, t, now, wake))
  {
    NotWaiting(c, s, 0);
    NotWaiting(c, s, 1);
    if t < c.pool {
      var k := QueueOf(c, t);
      assert QueueOk(c, s, k) && InOrder(c, s, k);
      var full := s.queues[k].notFull;
      assert t in full.told || t in full.sleeping ==> Monitor.OnCond(full, t);
    }
  }
}
