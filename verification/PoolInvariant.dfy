/**
 What every step of the pool keeps.
 */
module PoolInvariant {
  import Monitor
  import MonitorTheorems
  import opened InvariantDefinition
  import opened Pool

  /** How many tasks have gone into a queue. */
  function InQueues(c: Setup, d: Dispatcher): nat {
    match d
    case Next(i) => i
    case Pushing(i) => i
    case _ => c.total
  }

  predicate ClosedBy(d: Dispatcher, k: nat) {
    (d.Closing? && k < d.k) || d.Joining? || d.Finished?
  }

  predicate Carries(w: Worker, x: nat) {
    w.With? && w.x == x
  }

  ghost predicate Shape(c: Setup, s: State) {
    && Valid(c)
    && |s.queues| == 2 && |s.workers| == c.pool && |s.tasks| == c.total
    && match s.dispatcher {
      case Next(i) => i < c.total
      case Pushing(i) => i < c.total
      case Closing(k) => k < 2
      case Joining(w) => w < c.pool && forall v :: 0 <= v < w ==> s.workers[v].Returned?
      case Finished => forall v :: 0 <= v < c.pool ==> s.workers[v].Returned?
    }
    && (forall w :: 0 <= w < c.pool && s.workers[w].With? ==> s.workers[w].x < c.total)
  }

  /** The queues are sound monitors, and only threads that are popping from one, or pushing to it, wait on it. */
  ghost predicate QueueOk(c: Setup, s: State, k: nat)
    requires Shape(c, s) && k < 2
  {
    var q := s.queues[k];
    && MonitorTheorems.Inv(q) && q.capacity == WL_CAPACITY
    && (q.closed <==> ClosedBy(s.dispatcher, k))
    && (forall t: nat :: Monitor.OnCond(q.notEmpty, t) ==>
          t < c.pool && QueueOf(c, t) == k && s.workers[t].Popping?)
    && (forall t: nat :: Monitor.OnCond(q.notFull, t) ==>
          t == c.pool && s.dispatcher.Pushing? && RouteOf(c, s.dispatcher.i) == k)
    && (forall w: nat :: w < c.pool && QueueOf(c, w) == k && s.workers[w].Returned? ==> q.closed && q.items == [])
  }

  ghost predicate QueuesOk(c: Setup, s: State)
    requires Shape(c, s)
  {
    QueueOk(c, s, 0) && QueueOk(c, s, 1)
  }

  /** The gate is held exactly by a worker that thinks it holds it. */
  ghost predicate GateOk(c: Setup, s: State)
    requires Shape(c, s)
  {
    && (forall w: nat :: w < c.pool && s.workers[w].With? && HasGate(s.workers[w].stage) ==> s.gate == HeldBy(w))
    && (s.gate.HeldBy? ==>
          s.gate.w < c.pool && s.workers[s.gate.w].With? && HasGate(s.workers[s.gate.w].stage))
  }

  /** Each task has been pushed, popped and completed at most once, in that order, and is where that says. */
  ghost predicate TaskOk(c: Setup, s: State, x: nat)
    requires Shape(c, s) && x < c.total
  {
    var t := s.tasks[x];
    && t.pushed == (if x < InQueues(c, s.dispatcher) then 1 else 0)
    && t.finished <= t.popped <= t.pushed
    && (x in s.queues[RouteOf(c, x)].items <==> t.pushed == 1 && t.popped == 0)
    && (t.popped == 1 ==> t.worker < c.pool)
    && (t.popped == 1 && t.finished == 0 ==> Carries(s.workers[t.worker], x))
  }

  /** A worker carries a task it has popped, and holds the gate with it only if it is a holder task. */
  predicate CarrierOk(t: Task, w: nat, g: Stage) {
    && t.worker == w && t.popped == 1 && t.finished == 0
    && (g == WantGate || g == Holding ==> t.holder)
    && (g == Serving ==> !t.holder)
  }

  ghost predicate TasksOk(c: Setup, s: State)
    requires Shape(c, s)
  {
    && (forall x: nat :: x < c.total ==> TaskOk(c, s, x))
    && (forall w: nat :: w < c.pool && s.workers[w].With? ==>
          CarrierOk(s.tasks[s.workers[w].x], w, s.workers[w].stage))
  }

  /** Ids below the bound, all routed to queue k, ascending. */
  ghost predicate Lined(c: Setup, items: seq<nat>, bound: nat, k: nat) {
    && (forall i :: 0 <= i < |items| ==> items[i] < bound && RouteOf(c, items[i]) == k)
    && (forall i, j :: 0 <= i < j < |items| ==> items[i] < items[j])
  }

  /** A queue holds tasks routed to it, in the order they were dispatched. */
  ghost predicate InOrder(c: Setup, s: State, k: nat)
    requires Shape(c, s) && k < 2
  {
    InQueues(c, s.dispatcher) <= c.total && Lined(c, s.queues[k].items, InQueues(c, s.dispatcher), k)
  }

  ghost predicate OrderOk(c: Setup, s: State)
    requires Shape(c, s)
  {
    && InOrder(c, s, 0) && InOrder(c, s, 1)
    && (forall x: nat, y: nat :: x < y < c.total && RouteOf(c, x) == RouteOf(c, y) ==>
          s.tasks[y].popped == 0 || s.tasks[x].popped == 1)
  }

  function SumFinished(ts: seq<Task>): nat {
    if ts == [] then 0 else SumFinished(ts[..|ts| - 1]) + ts[|ts| - 1].finished
  }

  /** Has a worker been seen to begin it, and to end it? */
  predicate Began(s: State, x: nat)
    requires x < |s.tasks|
  {
    var t := s.tasks[x];
    t.popped == 1 && (t.finished == 0 && t.worker < |s.workers| && Carries(s.workers[t.worker], x) ==>
      s.workers[t.worker].stage !in {AtGate, InGate, Starting})
  }

  predicate Ended(s: State, x: nat)
    requires x < |s.tasks|
  {
    var t := s.tasks[x];
    t.popped == 1 && (t.finished == 0 && t.worker < |s.workers| && Carries(s.workers[t.worker], x) ==>
      s.workers[t.worker].stage == Counting)
  }

  /** The timestamps there are so far. */
  ghost predicate TimeOk(c: Setup, s: State, x: nat)
    requires Shape(c, s) && x < c.total
  {
    var r := s.tasks[x].rec;
    && (x < InQueues(c, s.dispatcher) || s.dispatcher == Pushing(x) ==>
          && r.shard == ShardOf(x) && s.tasks[x].holder == IsHolder(c, x)
          && r.ready <= s.clock
          && (!Began(s, x) ==> r.start == 0)
          && (!Ended(s, x) ==> r.end == 0))
    && (Began(s, x) ==> 0 < r.start && r.ready <= r.start <= s.clock)
    && (Ended(s, x) ==> Began(s, x) && r.start <= r.end <= s.clock)
  }

  ghost predicate TimesOk(c: Setup, s: State)
    requires Shape(c, s)
  {
    s.clock > 0 && forall x: nat :: x < c.total ==> TimeOk(c, s, x)
  }

  /** Two tasks of one worker do not overlap. */
  predicate Apart(s: State, x: nat, y: nat)
    requires x < |s.tasks| && y < |s.tasks|
  {
    || (Ended(s, x) && s.tasks[x].rec.end <= s.tasks[y].rec.start)
    || (Ended(s, y) && s.tasks[y].rec.end <= s.tasks[x].rec.start)
  }

  ghost predicate ApartOk(c: Setup, s: State)
    requires Shape(c, s)
  {
    forall x: nat, y: nat :: x < y < c.total && Began(s, x) && Began(s, y) && s.tasks[x].worker == s.tasks[y].worker ==>
      Apart(s, x, y)
  }

  ghost predicate Inv(c: Setup, s: State) {
    && Shape(c, s)
    && QueuesOk(c, s)
    && GateOk(c, s)
    && TasksOk(c, s)
    && OrderOk(c, s)
    && s.completed == SumFinished(s.tasks)
    && TimesOk(c, s)
    && ApartOk(c, s)
  }

  lemma KeepsShape(c: Setup, s: State, a: Action)
    requires Shape(c, s) && Enabled(c, s, a)
    ensures Shape(c, Step(c, s, a))
  {
  }

  /** What a pass through a queue does to what is in it. */
  lemma ItemsAfter(c: Setup, s: State, a: Action)
    requires Shape(c, s) && Enabled(c, s, a)
    ensures Shape(c, Step(c, s, a))
    ensures forall k :: 0 <= k < 2 && !(UsesQueue(a) && k == Asked(c, s, a)) ==> Step(c, s, a).queues[k] == s.queues[k]
    ensures UsesQueue(a) ==>
              var q, r := s.queues[Asked(c, s, a)], Step(c, s, a).queues[Asked(c, s, a)];
              && r.capacity == q.capacity
              && (a.Push? && |q.items| != q.capacity ==>
                    && r.items == q.items + [s.dispatcher.i]
                    && Step(c, s, a).dispatcher == Upcoming(c, s.dispatcher.i + 1))
              && (a.Push? && |q.items| == q.capacity ==> Step(c, s, a) == s.(queues := Step(c, s, a).queues))
              && (a.Pop? && q.items == [] && !q.closed ==> Step(c, s, a) == s.(queues := Step(c, s, a).queues))
              && (a.WakeWorker? || a.WakeDispatcher? ==> Step(c, s, a) == s.(queues := Step(c, s, a).queues))
              && (a.Pop? && q.items != [] ==> r.items == q.items[1..])
              && (!(a.Push? && |q.items| != q.capacity) && !(a.Pop? && q.items != []) ==> r.items == q.items)
  {
    KeepsShape(c, s, a);
  }

  lemma OtherQueue(c: Setup, s: State, a: Action, n: State, k: nat)
    requires Shape(c, s) && QueuesOk(c, s) && Enabled(c, s, a) && n == Step(c, s, a) && Shape(c, n)
    requires k < 2 && UsesQueue(a) && k != Asked(c, s, a)
    ensures QueueOk(c, n, k)
  {
    hide MonitorTheorems.Inv, Monitor.Step, Monitor.OnCond, Monitor.Enabled;
    ItemsAfter(c, s, a);
  }

  lemma PushKeepsQueue(c: Setup, s: State, a: Action, n: State, k: nat)
    requires Shape(c, s) && QueuesOk(c, s) && Enabled(c, s, a) && n == Step(c, s, a) && Shape(c, n)
    requires k < 2 && (a.Push? || a.WakeDispatcher? || a.Shut?) && k == Asked(c, s, a)
    ensures QueueOk(c, n, k)
  {
    hide MonitorTheorems.Inv, Monitor.Step, Monitor.OnCond, Monitor.Enabled;
    ItemsAfter(c, s, a);
    MonitorTheorems.StepKeeps(s.queues[k], Request(c, s, a));
    MonitorTheorems.Waiters(s.queues[k], Request(c, s, a));
  }

  lemma PopKeepsQueue(c: Setup, s: State, a: Action, n: State, k: nat)
    requires Shape(c, s) && QueuesOk(c, s) && Enabled(c, s, a) && n == Step(c, s, a) && Shape(c, n)
    requires k < 2 && (a.Pop? || a.WakeWorker?) && k == Asked(c, s, a)
    ensures QueueOk(c, n, k)
  {
    hide MonitorTheorems.Inv, Monitor.Step, Monitor.OnCond, Monitor.Enabled;
    ItemsAfter(c, s, a);
    MonitorTheorems.StepKeeps(s.queues[k], Request(c, s, a));
    MonitorTheorems.Waiters(s.queues[k], Request(c, s, a));
  }

  lemma KeepsQueue(c: Setup, s: State, a: Action, k: nat)
    requires Shape(c, s) && QueuesOk(c, s) && Enabled(c, s, a) && k < 2
    ensures Shape(c, Step(c, s, a)) && QueueOk(c, Step(c, s, a), k)
  {
    KeepsShape(c, s, a);
    var n := Step(c, s, a);
    if !UsesQueue(a) {
      hide MonitorTheorems.Inv;
    } else if k != Asked(c, s, a) {
      OtherQueue(c, s, a, n, k);
    } else if a.Pop? || a.WakeWorker? {
      PopKeepsQueue(c, s, a, n, k);
    } else {
      PushKeepsQueue(c, s, a, n, k);
    }
  }

  lemma KeepsQueues(c: Setup, s: State, a: Action)
    requires Shape(c, s) && QueuesOk(c, s) && Enabled(c, s, a)
    ensures Shape(c, Step(c, s, a)) && QueuesOk(c, Step(c, s, a))
  {
    KeepsShape(c, s, a);
    KeepsQueue(c, s, a, 0);
    KeepsQueue(c, s, a, 1);
    hide Step, Enabled, Shape, QueueOk;
  }

  lemma KeepsGate(c: Setup, s: State, a: Action)
    requires Shape(c, s) && GateOk(c, s) && Enabled(c, s, a)
    ensures Shape(c, Step(c, s, a)) && GateOk(c, Step(c, s, a))
  {
    KeepsShape(c, s, a);
  }

  /** Taking the first item of an ascending list leaves the others. */
  lemma FirstTaken(items: seq<nat>)
    requires items != [] && forall i, j :: 0 <= i < j < |items| ==> items[i] < items[j]
    ensures forall x :: x in items[1..] <==> x in items && x != items[0]
  {
    assert items == [items[0]] + items[1..];
  }

  lemma PopTaskKept(c: Setup, s: State, a: Action, n: State, x: nat)
    requires Shape(c, s) && TasksOk(c, s) && OrderOk(c, s) && Enabled(c, s, a) && n == Step(c, s, a) && Shape(c, n)
    requires x < c.total && a.Pop? && s.queues[Asked(c, s, a)].items != []
    ensures TaskOk(c, n, x)
  {
    hide Monitor.Step, Monitor.Enabled;
    ItemsAfter(c, s, a);
    var items := s.queues[Asked(c, s, a)].items;
    assert TaskOk(c, s, x) && TaskOk(c, s, items[0]);
    FirstTaken(items);
  }

  lemma TaskKept(c: Setup, s: State, a: Action, n: State, x: nat)
    requires Shape(c, s) && TasksOk(c, s) && Enabled(c, s, a) && n == Step(c, s, a) && Shape(c, n)
    requires x < c.total && !(a.Pop? && s.queues[Asked(c, s, a)].items != [])
    ensures TaskOk(c, n, x)
  {
    hide Monitor.Step, Monitor.Enabled;
    ItemsAfter(c, s, a);
    assert TaskOk(c, s, x);
  }

  lemma CarriersKept(c: Setup, s: State, a: Action, w: nat)
    requires Shape(c, s) && TasksOk(c, s) && OrderOk(c, s) && Enabled(c, s, a) && w < c.pool
    ensures Shape(c, Step(c, s, a)) && (Step(c, s, a).workers[w].With? ==>
              CarrierOk(Step(c, s, a).tasks[Step(c, s, a).workers[w].x], w, Step(c, s, a).workers[w].stage))
  {
    hide Monitor.Step, Monitor.Enabled;
    KeepsShape(c, s, a);
    if a.Arrive? { assert TaskOk(c, s, s.dispatcher.i); }
    if a.Pop? && s.queues[Asked(c, s, a)].items != [] {
      assert TaskOk(c, s, s.queues[Asked(c, s, a)].items[0]);
    }
  }

  lemma KeepsTasks(c: Setup, s: State, a: Action)
    requires Shape(c, s) && TasksOk(c, s) && OrderOk(c, s) && Enabled(c, s, a)
    ensures Shape(c, Step(c, s, a)) && TasksOk(c, Step(c, s, a))
  {
    hide Step, TaskOk, Monitor.Enabled;
    KeepsShape(c, s, a);
    var n := Step(c, s, a);
    forall x: nat | x < c.total ensures TaskOk(c, n, x) {
      if a.Pop? && s.queues[Asked(c, s, a)].items != [] {
        PopTaskKept(c, s, a, n, x);
      } else {
        TaskKept(c, s, a, n, x);
      }
    }
    forall w: nat | w < c.pool && n.workers[w].With?
      ensures CarrierOk(n.tasks[n.workers[w].x], w, n.workers[w].stage)
    {
      CarriersKept(c, s, a, w);
    }
  }

  lemma LinedChanges(c: Setup, items: seq<nat>, bound: nat, k: nat)
    requires Lined(c, items, bound, k)
    ensures items != [] ==> Lined(c, items[1..], bound, k)
    ensures Lined(c, items, bound + 1, k)
    ensures RouteOf(c, bound) == k ==> Lined(c, items + [bound], bound + 1, k)
  {
    if items != [] {
      var rest := items[1..];
      forall i, j | 0 <= i < j < |rest| ensures rest[i] < rest[j] {
        assert rest[i] == items[i + 1] && rest[j] == items[j + 1];
      }
    }
  }

  lemma KeepsInOrder(c: Setup, s: State, a: Action, n: State, k: nat)
    requires Shape(c, s) && OrderOk(c, s) && Enabled(c, s, a) && n == Step(c, s, a) && Shape(c, n) && k < 2
    ensures InOrder(c, n, k)
  {
    hide Monitor.Step, Monitor.Enabled, Lined, RouteOf;
    ItemsAfter(c, s, a);
    LinedChanges(c, s.queues[k].items, InQueues(c, s.dispatcher), k);
  }

  lemma EarlierFirst(c: Setup, s: State, a: Action, x: nat, y: nat)
    requires Shape(c, s) && TasksOk(c, s) && OrderOk(c, s) && Enabled(c, s, a)
    requires x < y < c.total && RouteOf(c, x) == RouteOf(c, y)
    ensures Shape(c, Step(c, s, a))
    ensures Step(c, s, a).tasks[y].popped == 0 || Step(c, s, a).tasks[x].popped == 1
  {
    hide Monitor.Step, Monitor.Enabled;
    KeepsShape(c, s, a);
    assert s.tasks[y].popped == 0 || s.tasks[x].popped == 1;
    assert TaskOk(c, s, x) && TaskOk(c, s, y);
    if a.Pop? && s.queues[Asked(c, s, a)].items != [] {
      assert InOrder(c, s, Asked(c, s, a));
      assert TaskOk(c, s, s.queues[Asked(c, s, a)].items[0]);
    }
  }

  lemma KeepsOrder(c: Setup, s: State, a: Action)
    requires Shape(c, s) && TasksOk(c, s) && OrderOk(c, s) && Enabled(c, s, a)
    ensures Shape(c, Step(c, s, a)) && OrderOk(c, Step(c, s, a))
  {
    hide Step, Enabled, Shape;
    KeepsShape(c, s, a);
    KeepsInOrder(c, s, a, Step(c, s, a), 0);
    KeepsInOrder(c, s, a, Step(c, s, a), 1);
    forall x: nat, y: nat | x < y < c.total && RouteOf(c, x) == RouteOf(c, y)
      ensures Step(c, s, a).tasks[y].popped == 0 || Step(c, s, a).tasks[x].popped == 1
    {
      EarlierFirst(c, s, a, x, y);
    }
  }

  lemma WorkStamps(c: Setup, s: State, a: Action, n: State, x: nat)
    requires Shape(c, s) && TasksOk(c, s) && Enabled(c, s, a) && n == Step(c, s, a) && Shape(c, n)
    requires x < c.total && a.Work?
    ensures Began(s, x) ==>
              Began(n, x) && n.tasks[x].worker == s.tasks[x].worker && n.tasks[x].rec.start == s.tasks[x].rec.start
    ensures Ended(s, x) ==> Ended(n, x) && n.tasks[x].rec.end == s.tasks[x].rec.end
    ensures Began(n, x) && !Began(s, x) ==>
              s.workers[a.w] == With(Starting, x) && n.tasks[x] == Worked(s.tasks[x], Starting, a.now)
    ensures Ended(n, x) && !Ended(s, x) ==>
              s.workers[a.w] == With(Ending, x) && n.tasks[x] == Worked(s.tasks[x], Ending, a.now)
    ensures n.tasks[x].rec == s.tasks[x].rec
            || (Began(n, x) && !Began(s, x)) || (Ended(n, x) && !Ended(s, x))
  {
    assert TaskOk(c, s, x);
  }

  /** What has been stamped stays, and a stamp comes only from the worker that carries the task. */
  lemma StampsKept(c: Setup, s: State, a: Action, n: State, x: nat)
    requires Shape(c, s) && TasksOk(c, s) && OrderOk(c, s) && Enabled(c, s, a) && n == Step(c, s, a) && Shape(c, n)
    requires x < c.total
    ensures Began(s, x) ==>
              Began(n, x) && n.tasks[x].worker == s.tasks[x].worker && n.tasks[x].rec.start == s.tasks[x].rec.start
    ensures Ended(s, x) ==> Ended(n, x) && n.tasks[x].rec.end == s.tasks[x].rec.end
    ensures Began(n, x) && !Began(s, x) ==>
              a.Work? && s.workers[a.w] == With(Starting, x) && n.tasks[x] == Worked(s.tasks[x], Starting, a.now)
    ensures Ended(n, x) && !Ended(s, x) ==>
              a.Work? && s.workers[a.w] == With(Ending, x) && n.tasks[x] == Worked(s.tasks[x], Ending, a.now)
    ensures n.tasks[x].rec == s.tasks[x].rec
            || (Began(n, x) && !Began(s, x)) || (Ended(n, x) && !Ended(s, x)) || a.Arrive?
  {
    if a.Work? {
      WorkStamps(c, s, a, n, x);
      return;
    }
    hide Monitor.Step, Monitor.Enabled;
    assert TaskOk(c, s, x);
    if a.Pop? && s.queues[Asked(c, s, a)].items != [] {
      assert TaskOk(c, s, s.queues[Asked(c, s, a)].items[0]);
    }
  }

  lemma TimeKept(c: Setup, s: State, a: Action, n: State, x: nat)
    requires Shape(c, s) && TasksOk(c, s) && OrderOk(c, s) && TimesOk(c, s)
    requires Enabled(c, s, a) && n == Step(c, s, a) && Shape(c, n)
    requires x < c.total
    ensures TimeOk(c, n, x)
  {
    hide Monitor.Step, Monitor.Enabled, Began, Ended;
    StampsKept(c, s, a, n, x);
    assert TimeOk(c, s, x) && TaskOk(c, s, x);
    NotBegun(s, x);
  }

  lemma NotBegun(s: State, x: nat)
    requires x < |s.tasks|
    ensures s.tasks[x].popped == 0 ==> !Began(s, x) && !Ended(s, x)
    ensures Ended(s, x) ==> Began(s, x)
    ensures s.tasks[x].finished == 1 && s.tasks[x].popped == 1 ==> Ended(s, x)
    ensures s.tasks[x].finished == 0 && s.tasks[x].worker < |s.workers| && Carries(s.workers[s.tasks[x].worker], x) ==>
              (Began(s, x) ==> s.workers[s.tasks[x].worker].stage != Starting)
              && (s.tasks[x].popped == 1 && s.workers[s.tasks[x].worker].stage == Ending ==>
                    Began(s, x) && !Ended(s, x))
  {
  }

  lemma KeepsTimes(c: Setup, s: State, a: Action)
    requires Shape(c, s) && TasksOk(c, s) && OrderOk(c, s) && TimesOk(c, s) && Enabled(c, s, a)
    ensures Shape(c, Step(c, s, a)) && TimesOk(c, Step(c, s, a))
  {
    KeepsShape(c, s, a);
    var n := Step(c, s, a);
    assert s.clock <= n.clock;
    forall x: nat | x < c.total ensures TimeOk(c, n, x) {
      TimeKept(c, s, a, n, x);
    }
  }

  /** A pair of tasks of one worker before and after a step. */
  lemma PairKept(c: Setup, s: State, a: Action, n: State, x: nat, y: nat)
    requires Shape(c, s) && TasksOk(c, s) && OrderOk(c, s) && TimesOk(c, s) && ApartOk(c, s)
    requires Enabled(c, s, a) && n == Step(c, s, a) && Shape(c, n) && s.clock <= n.clock
    requires x < y < c.total && Began(n, x) && Began(n, y) && n.tasks[x].worker == n.tasks[y].worker
    ensures Apart(n, x, y)
  {
    hide Monitor.Step, Monitor.Enabled, Began, Ended, Step;
    StampsKept(c, s, a, n, x);
    StampsKept(c, s, a, n, y);
    assert TimeOk(c, s, x) && TimeOk(c, s, y) && TaskOk(c, s, x) && TaskOk(c, s, y);
    NotBegun(s, x);
    NotBegun(s, y);
  }

  lemma KeepsApart(c: Setup, s: State, a: Action)
    requires Shape(c, s) && TasksOk(c, s) && OrderOk(c, s) && TimesOk(c, s) && ApartOk(c, s) && Enabled(c, s, a)
    ensures Shape(c, Step(c, s, a)) && ApartOk(c, Step(c, s, a))
  {
    KeepsTimes(c, s, a);
    var n := Step(c, s, a);
    forall x: nat, y: nat | x < y < c.total && Began(n, x) && Began(n, y) && n.tasks[x].worker == n.tasks[y].worker
      ensures Apart(n, x, y)
    {
      PairKept(c, s, a, n, x, y);
    }
  }

  lemma {:induction false} SumOfOne(ts: seq<Task>, x: nat, t: Task)
    requires x < |ts|
    ensures SumFinished(ts[x := t]) == SumFinished(ts) - ts[x].finished + t.finished
  {
    var k := |ts| - 1;
    if x == k {
      assert ts[x := t][..k] == ts[..k];
    } else {
      assert ts[x := t][..k] == ts[..k][x := t];
      SumOfOne(ts[..k], x, t);
    }
  }

  /** The counter of completions counts the tasks completed. */
  lemma KeepsCompleted(c: Setup, s: State, a: Action)
    requires Shape(c, s) && OrderOk(c, s) && Enabled(c, s, a) && s.completed == SumFinished(s.tasks)
    ensures Step(c, s, a).completed == SumFinished(Step(c, s, a).tasks)
  {
    hide Monitor.Step, Monitor.Enabled, SumFinished;
    match a
    case Arrive(now) => SumOfOne(s.tasks, s.dispatcher.i, Stamped(c, s.dispatcher.i, s.tasks[s.dispatcher.i], now));
    case Push(woken) =>
      var x := s.dispatcher.i;
      SumOfOne(s.tasks, x, s.tasks[x].(pushed := s.tasks[x].pushed + 1));
    case Pop(w, woken) =>
      var items := s.queues[Asked(c, s, a)].items;
      if items != [] {
        var x := items[0];
        SumOfOne(s.tasks, x, s.tasks[x].(popped := s.tasks[x].popped + 1, worker := w));
      }
    case Work(w, now) =>
      var g, x := s.workers[w].stage, s.workers[w].x;
      SumOfOne(s.tasks, x, Worked(s.tasks[x], g, now));
    case _ =>
  }

  lemma StepKeeps(c: Setup, s: State, a: Action)
    requires Inv(c, s) && Enabled(c, s, a)
    ensures Inv(c, Step(c, s, a))
  {
    hide Step, Enabled, Shape, QueuesOk, GateOk, TasksOk, OrderOk, TimesOk, ApartOk, SumFinished;
    KeepsShape(c, s, a);
    KeepsQueues(c, s, a);
    KeepsGate(c, s, a);
    KeepsTasks(c, s, a);
    KeepsOrder(c, s, a);
    KeepsCompleted(c, s, a);
    KeepsTimes(c, s, a);
    KeepsApart(c, s, a);
  }

  lemma {:induction false} NoneFinished(ts: seq<Task>)
    requires forall x :: 0 <= x < |ts| ==> ts[x].finished == 0
    ensures SumFinished(ts) == 0
  {
    if ts != [] { NoneFinished(ts[..|ts| - 1]); }
  }

  lemma StartHolds(c: Setup, clock: nat, given: seq<Record>)
    requires Valid(c) && clock > 0 && |given| == c.total
    ensures Inv(c, Start(c, clock, given))
  {
    NoneFinished(Start(c, clock, given).tasks);
  }

  lemma {:induction false} RunKeeps(c: Setup, s: State, run: seq<Action>)
    requires Inv(c, s) && Runs(c, s, run)
    ensures Inv(c, After(c, s, run))
    decreases |run|
  {
    if run != [] {
      StepKeeps(c, s, run[0]);
      hide Inv, Step, Enabled;
      RunKeeps(c, Step(c, s, run[0]), run[1..]);
    }
  }
}
