/**
 The thread pool of the audited workload: a dispatcher, two bounded queues, a gate and
 workers, as a step machine.  One step is one critical section of a queue, one operation
 on the gate, one reading of the clock, or the increment of a counter.
 */
module Pool {
  import Monitor
  import opened InvariantDefinition

  const WL_TASKS := 4000
  const WL_NUM_SIZES := 4
  const WL_CAPACITY := 64
  const WL_HOLDER_PERIOD := 400
  const WL_MIN_WORKERS := 3

  datatype Pathology = BlockedHolder | BurstArrival | UnevenPartition

  function SelectPathology(seed: nat): Pathology {
    match seed % 3
    case 0 => BlockedHolder
    case 1 => BurstArrival
    case _ => UnevenPartition
  }

  /** wl_pool_workers: at most the processors less one, when that is known, and never below the minimum. */
  function PoolWorkers(configured: nat, online: int): (r: nat)
    ensures r >= WL_MIN_WORKERS
    ensures configured >= WL_MIN_WORKERS ==> r <= configured
    ensures configured < WL_MIN_WORKERS ==> r == WL_MIN_WORKERS
    ensures online > WL_MIN_WORKERS ==> r <= online - 1
    ensures 1 < online <= WL_MIN_WORKERS ==> r == WL_MIN_WORKERS
    ensures r < configured ==> online > 1 && (r == online - 1 || r == WL_MIN_WORKERS)
  {
    var n := if online > 1 && online - 1 < configured then online - 1 else configured;
    if n < WL_MIN_WORKERS then WL_MIN_WORKERS else n
  }

  datatype Setup = Setup(path: Pathology, pool: nat, total: nat)

  ghost predicate Valid(c: Setup) {
    c.pool >= WL_MIN_WORKERS
  }

  /** What wl_run sets up from the seed, the configured worker count and the number of processors. */
  function SetupOf(seed: nat, configured: nat, online: int): (c: Setup)
    ensures Valid(c) && c.total == WL_TASKS
    ensures forall x: nat :: RouteOf(c, x) < 2 <= c.pool && QueueOf(c, RouteOf(c, x)) == RouteOf(c, x)
  {
    Setup(SelectPathology(seed), PoolWorkers(configured, online), WL_TASKS)
  }

  /** The largest class is shard 0, under every pathology. */
  function ShardOf(x: nat): nat {
    if x % WL_NUM_SIZES == WL_NUM_SIZES - 1 then 0 else 1
  }

  /** The queue a task goes through. */
  function RouteOf(c: Setup, x: nat): nat {
    if c.path == UnevenPartition then ShardOf(x) else 0
  }

  /** shard_workers */
  function ShardWorkers(c: Setup, k: nat): int {
    if c.path == UnevenPartition then (if k == 0 then 1 else c.pool - 1)
    else (if k == 0 then c.pool else 0)
  }

  /** Threads are created shard by shard, so the first ones serve queue 0. */
  function QueueOf(c: Setup, w: nat): nat {
    if w < ShardWorkers(c, 0) then 0 else 1
  }

  function IsHolder(c: Setup, x: nat): bool {
    c.path == BlockedHolder && x % WL_HOLDER_PERIOD == 0
  }

  /** A task's record, and how often it has been pushed, popped and completed, and by whom. */
  datatype Task = Task(rec: Record, holder: bool, pushed: nat, popped: nat, finished: nat, worker: nat)

  datatype Stage = AtGate | InGate | Starting | WantGate | Holding | Serving | Ending | Counting

  datatype Worker = Popping | With(stage: Stage, x: nat) | Returned

  datatype Dispatcher = Next(i: nat) | Pushing(i: nat) | Closing(k: nat) | Joining(w: nat) | Finished

  datatype Gate = Free | HeldBy(w: nat)

  datatype State = State(
    clock: nat, tasks: seq<Task>, queues: seq<Monitor.Queue>, gate: Gate,
    workers: seq<Worker>, dispatcher: Dispatcher, completed: nat)

  function Upcoming(c: Setup, i: nat): Dispatcher {
    if i < c.total then Next(i) else Closing(0)
  }

  /** Whatever the caller's records held; nothing has been pushed, popped or completed. */
  function Blank(r: Record): Task {
    Task(r, false, 0, 0, 0, 0)
  }

  function Start(c: Setup, clock: nat, given: seq<Record>): State {
    State(clock, seq(|given|, x requires 0 <= x < |given| => Blank(given[x])),
          [Monitor.Fresh(WL_CAPACITY), Monitor.Fresh(WL_CAPACITY)], Free,
          seq(c.pool, _ => Popping), Upcoming(c, 0), 0)
  }

  /** `woken` is the choice of the signal at the end of a push or pop; the dispatcher is thread `pool`. */
  datatype Action =
    | Arrive(now: nat)
    | Push(woken: set<nat>)
    | Shut
    | Join
    | Pop(w: nat, woken: set<nat>)
    | Work(w: nat, now: nat)
    | WakeWorker(w: nat)
    | WakeDispatcher

  function WaitsForGate(g: Stage): bool {
    g == AtGate || g == WantGate
  }

  function HasGate(g: Stage): bool {
    g == InGate || g == Holding
  }

  /** What the dispatcher or a worker asks of a queue. */
  function Request(c: Setup, s: State, a: Action): Monitor.Action {
    match a
    case Push(woken) => Monitor.Push(c.pool, if s.dispatcher.Pushing? then s.dispatcher.i else 0, woken)
    case Pop(w, woken) => Monitor.Pop(w, woken)
    case WakeWorker(w) => Monitor.WakeConsumer(w)
    case WakeDispatcher => Monitor.WakeProducer(c.pool)
    case _ => Monitor.Close(c.pool)
  }

  /** The queue it asks. */
  function Asked(c: Setup, s: State, a: Action): nat {
    match a
    case Pop(w, woken) => QueueOf(c, w)
    case WakeWorker(w) => QueueOf(c, w)
    case _ =>
      match s.dispatcher
      case Pushing(i) => RouteOf(c, i)
      case Closing(k) => k
      case _ => 0
  }

  predicate UsesQueue(a: Action) {
    !a.Arrive? && !a.Join? && !a.Work?
  }

  predicate Enabled(c: Setup, s: State, a: Action) {
    && match a {
      case Arrive(now) => s.dispatcher.Next? && s.dispatcher.i < |s.tasks| && s.clock <= now
      case Push(woken) => s.dispatcher.Pushing? && s.dispatcher.i < |s.tasks|
      case Shut => s.dispatcher.Closing? && s.dispatcher.k < 2
      case Join =>
        s.dispatcher.Joining? && s.dispatcher.w < |s.workers| && s.workers[s.dispatcher.w].Returned?
      case Pop(w, woken) =>
        w < |s.workers| && s.workers[w].Popping? && QueueOf(c, w) < |s.queues|
        && (s.queues[QueueOf(c, w)].items != [] ==> s.queues[QueueOf(c, w)].items[0] < |s.tasks|)
      case Work(w, now) =>
        w < |s.workers| && s.workers[w].With? && s.workers[w].x < |s.tasks| && s.clock <= now
        && (WaitsForGate(s.workers[w].stage) ==> s.gate == Free)
      case WakeWorker(w) => w < |s.workers|
      case WakeDispatcher => true
    }
    && (UsesQueue(a) ==> Asked(c, s, a) < |s.queues| && Monitor.Enabled(s.queues[Asked(c, s, a)], Request(c, s, a)))
  }

  /** dispatch_one up to the push. */
  function Stamped(c: Setup, x: nat, t: Task, now: nat): Task {
    t.(rec := Record(ShardOf(x), now, 0, 0), holder := IsHolder(c, x))
  }

  function AfterPass(c: Setup, s: State, a: Action): seq<Monitor.Queue>
    requires UsesQueue(a) && Enabled(c, s, a)
  {
    s.queues[Asked(c, s, a) := Monitor.Step(s.queues[Asked(c, s, a)], Request(c, s, a))]
  }

  /** The stage after one: worker_main from the gate to the counter. */
  function NextStage(g: Stage, holder: bool): Stage {
    match g
    case AtGate => InGate
    case InGate => Starting
    case Starting => if holder then WantGate else Serving
    case WantGate => Holding
    case Holding => Ending
    case Serving => Ending
    case Ending => Counting
    case Counting => Counting
  }

  /** What the stage does to the task's record. */
  function Worked(t: Task, g: Stage, now: nat): Task {
    match g
    case Starting => t.(rec := t.rec.(start := now))
    case Ending => t.(rec := t.rec.(end := now))
    case Counting => t.(finished := t.finished + 1)
    case _ => t
  }

  function GateAfter(g: Stage, w: nat, gate: Gate): Gate {
    if WaitsForGate(g) then HeldBy(w) else if HasGate(g) then Free else gate
  }

  function Step(c: Setup, s: State, a: Action): State
    requires Enabled(c, s, a)
  {
    match a
    case Arrive(now) =>
      var x := s.dispatcher.i;
      s.(clock := now, tasks := s.tasks[x := Stamped(c, x, s.tasks[x], now)], dispatcher := Pushing(x))
    case Push(woken) =>
      var x := s.dispatcher.i;
      if Monitor.OutcomeOf(s.queues[Asked(c, s, a)], Request(c, s, a)) == Monitor.Pushed then
        s.(queues := AfterPass(c, s, a),
           tasks := s.tasks[x := s.tasks[x].(pushed := s.tasks[x].pushed + 1)],
           dispatcher := Upcoming(c, x + 1))
      else
        s.(queues := AfterPass(c, s, a))
    case Shut =>
      s.(queues := AfterPass(c, s, a), dispatcher := if s.dispatcher.k == 0 then Closing(1) else Joining(0))
    case Join =>
      s.(dispatcher := if s.dispatcher.w + 1 < |s.workers| then Joining(s.dispatcher.w + 1) else Finished)
    case Pop(w, woken) =>
      (match Monitor.OutcomeOf(s.queues[Asked(c, s, a)], Request(c, s, a))
       case Popped(x) =>
         s.(queues := AfterPass(c, s, a),
            tasks := s.tasks[x := s.tasks[x].(popped := s.tasks[x].popped + 1, worker := w)],
            workers := s.workers[w := With(AtGate, x)])
       case Drained => s.(queues := AfterPass(c, s, a), workers := s.workers[w := Returned])
       case _ => s.(queues := AfterPass(c, s, a)))
    case Work(w, now) =>
      var g, x := s.workers[w].stage, s.workers[w].x;
      s.(clock := now,
         tasks := s.tasks[x := Worked(s.tasks[x], g, now)],
         gate := GateAfter(g, w, s.gate),
         workers := s.workers[w := if g == Counting then Popping else With(NextStage(g, s.tasks[x].holder), x)],
         completed := if g == Counting then s.completed + 1 else s.completed)
    case WakeWorker(w) => s.(queues := AfterPass(c, s, a))
    case WakeDispatcher => s.(queues := AfterPass(c, s, a))
  }

  predicate Runs(c: Setup, s: State, run: seq<Action>)
    decreases |run|
  {
    run == [] || (Enabled(c, s, run[0]) && Runs(c, Step(c, s, run[0]), run[1..]))
  }

  function After(c: Setup, s: State, run: seq<Action>): State
    requires Runs(c, s, run)
    decreases |run|
  {
    if run == [] then s else After(c, Step(c, s, run[0]), run[1..])
  }
}
