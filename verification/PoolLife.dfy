/**
 The life of one task in a run of the pool: what happened to it, in order, with the clock
 readings that went into its record.
 */
module PoolLife {
  import Monitor
  import opened InvariantDefinition
  import opened Pool
  import opened PoolInvariant
  import opened PoolTheorems

  datatype Happening =
    | Arrived(now: nat)
    | Offered(k: nat)
    | Taken(k: nat, w: nat)
    | Did(g: Stage, w: nat, now: nat)

  /** What a step means for task x. */
  function Happens(c: Setup, s: State, a: Action, x: nat): (h: seq<Happening>)
    requires Enabled(c, s, a)
    ensures |h| <= 1
  {
    match a
    case Arrive(now) => if s.dispatcher == Next(x) then [Arrived(now)] else []
    case Push(woken) =>
      if s.dispatcher == Pushing(x)
         && Monitor.OutcomeOf(s.queues[Asked(c, s, a)], Request(c, s, a)) == Monitor.Pushed
      then [Offered(Asked(c, s, a))] else []
    case Pop(w, woken) =>
      if Monitor.OutcomeOf(s.queues[Asked(c, s, a)], Request(c, s, a)) == Monitor.Popped(x)
      then [Taken(Asked(c, s, a), w)] else []
    case Work(w, now) => if s.workers[w].x == x then [Did(s.workers[w].stage, w, now)] else []
    case _ => []
  }

  function Life(c: Setup, s: State, run: seq<Action>, x: nat): seq<Happening>
    requires Runs(c, s, run)
    decreases |run|
  {
    if run == [] then [] else Happens(c, s, run[0], x) + Life(c, Step(c, s, run[0]), run[1..], x)
  }

  /** The stages a worker takes a task through. */
  function Course(holder: bool): seq<Stage> {
    if holder then [AtGate, InGate, Starting, WantGate, Holding, Ending, Counting]
    else [AtGate, InGate, Starting, Serving, Ending, Counting]
  }

  function Place(g: Stage, holder: bool): nat {
    match g
    case AtGate => 0
    case InGate => 1
    case Starting => 2
    case WantGate => 3
    case Serving => 3
    case Holding => 4
    case Ending => if holder then 5 else 4
    case Counting => if holder then 6 else 5
  }

  /** How many stages of task x are over. */
  function StagesOver(c: Setup, s: State, x: nat): nat
    requires Shape(c, s) && x < c.total
  {
    var t := s.tasks[x];
    if t.finished > 0 then |Course(t.holder)|
    else if t.worker < c.pool && s.workers[t.worker].With? then Place(s.workers[t.worker].stage, t.holder) else 0
  }

  /** The stages so far, by the worker that took the task, with its two time stamps. */
  predicate Staged(t: Task, rest: seq<Happening>, n: nat) {
    && |rest| == n <= |Course(t.holder)|
    && forall i :: 0 <= i < n ==>
         && rest[i].Did? && rest[i].g == Course(t.holder)[i] && rest[i].w == t.worker
         && (rest[i].g == Starting ==> rest[i].now == t.rec.start)
         && (rest[i].g == Ending ==> rest[i].now == t.rec.end)
  }

  ghost predicate LifeOk(c: Setup, s: State, x: nat, life: seq<Happening>)
    requires Shape(c, s) && x < c.total
  {
    var t, k := s.tasks[x], RouteOf(c, x);
    if t.popped > 0 then
      && |life| >= 3
      && life[..3] == [Arrived(t.rec.ready), Offered(k), Taken(k, t.worker)] && QueueOf(c, t.worker) == k
      && Staged(t, life[3..], StagesOver(c, s, x))
    else if t.pushed > 0 then life == [Arrived(t.rec.ready), Offered(k)]
    else if s.dispatcher == Pushing(x) then life == [Arrived(t.rec.ready)]
    else life == []
  }

  /** A step in which nothing happens to task x leaves all of that as it is. */
  lemma StaysUntouched(c: Setup, s: State, a: Action, n: State, x: nat)
    requires Shape(c, s) && TasksOk(c, s) && OrderOk(c, s) && Enabled(c, s, a) && n == Step(c, s, a) && Shape(c, n)
    requires x < c.total && Happens(c, s, a, x) == []
    ensures n.tasks[x] == s.tasks[x]
    ensures s.tasks[x].popped == 0 && s.tasks[x].pushed == 0 ==>
              (n.dispatcher == Pushing(x) <==> s.dispatcher == Pushing(x))
    ensures s.tasks[x].popped > 0 ==> StagesOver(c, n, x) == StagesOver(c, s, x)
  {
    hide Monitor.Step, Monitor.Enabled, Course, Place;
    assert TaskOk(c, s, x);
    if a.Pop? && s.queues[Asked(c, s, a)].items != [] {
      assert TaskOk(c, s, s.queues[Asked(c, s, a)].items[0]);
    }
  }

  /** The dispatcher's two steps with task x, and the worker that takes it. */
  lemma LifeHandedOver(c: Setup, s: State, a: Action, n: State, x: nat, life: seq<Happening>)
    requires Shape(c, s) && TasksOk(c, s) && OrderOk(c, s) && Enabled(c, s, a) && n == Step(c, s, a) && Shape(c, n)
    requires x < c.total && LifeOk(c, s, x, life) && !a.Work? && Happens(c, s, a, x) != []
    ensures LifeOk(c, n, x, life + Happens(c, s, a, x))
  {
    hide Monitor.Step, Monitor.Enabled;
    assert TaskOk(c, s, x);
    if a.Pop? {
      assert InOrder(c, s, Asked(c, s, a));
      var longer := life + Happens(c, s, a, x);
      assert longer[3..] == [];
    }
  }

  /** One stage of the worker that carries task x. */
  lemma LifeWorked(c: Setup, s: State, a: Action, n: State, x: nat, life: seq<Happening>)
    requires Shape(c, s) && TasksOk(c, s) && Enabled(c, s, a) && n == Step(c, s, a) && Shape(c, n)
    requires x < c.total && LifeOk(c, s, x, life) && a.Work? && s.workers[a.w].x == x
    ensures LifeOk(c, n, x, life + Happens(c, s, a, x))
  {
    var t, g := s.tasks[x], s.workers[a.w].stage;
    assert CarrierOk(t, a.w, g);
    var rest := life[3..];
    StageDone(t, g, a.w, a.now, rest);
    var longer := life + [Did(g, a.w, a.now)];
    assert longer[3..] == rest + [Did(g, a.w, a.now)] && longer[..3] == life[..3];
    hide Staged, Course;
    CourseEnds(g, t.holder);
  }

  lemma CourseEnds(g: Stage, holder: bool)
    requires (g == WantGate || g == Holding ==> holder) && (g == Serving ==> !holder)
    ensures g == Counting ==> Place(g, holder) + 1 == |Course(holder)|
    ensures g != Counting ==> Place(NextStage(g, holder), holder) == Place(g, holder) + 1
  {
  }

  lemma StageDone(t: Task, g: Stage, w: nat, now: nat, rest: seq<Happening>)
    requires CarrierOk(t, w, g) && Staged(t, rest, Place(g, t.holder))
    ensures Staged(Worked(t, g, now), rest + [Did(g, w, now)], Place(g, t.holder) + 1)
  {
    assert Course(t.holder)[Place(g, t.holder)] == g;
  }

  lemma LifeStep(c: Setup, s: State, a: Action, x: nat, life: seq<Happening>)
    requires Inv(c, s) && Enabled(c, s, a) && x < c.total && LifeOk(c, s, x, life)
    ensures Shape(c, Step(c, s, a)) && LifeOk(c, Step(c, s, a), x, life + Happens(c, s, a, x))
  {
    KeepsShape(c, s, a);
    var n := Step(c, s, a);
    hide Step, Enabled, Happens;
    if Happens(c, s, a, x) == [] {
      StaysUntouched(c, s, a, n, x);
      assert life + [] == life;
    } else if a.Work? {
      WorkedOn(c, s, a, x);
      LifeWorked(c, s, a, n, x, life);
    } else {
      LifeHandedOver(c, s, a, n, x, life);
    }
  }

  lemma WorkedOn(c: Setup, s: State, a: Action, x: nat)
    requires Enabled(c, s, a) && a.Work? && Happens(c, s, a, x) != []
    ensures a.w < |s.workers| && s.workers[a.w].With? && s.workers[a.w].x == x
  {
  }

  lemma {:induction false} LifeOfRun(c: Setup, s: State, run: seq<Action>, x: nat, life: seq<Happening>)
    requires Inv(c, s) && Runs(c, s, run) && x < c.total && LifeOk(c, s, x, life)
    ensures Shape(c, After(c, s, run)) && LifeOk(c, After(c, s, run), x, life + Life(c, s, run, x))
    decreases |run|
  {
    hide Inv, Shape, Step, Enabled, LifeOk, Happens;
    HasShape(c, s);
    if run == [] {
      assert life + [] == life;
    } else {
      var h := Happens(c, s, run[0], x);
      LifeStep(c, s, run[0], x, life);
      StepKeeps(c, s, run[0]);
      var n := Step(c, s, run[0]);
      LifeOfRun(c, n, run[1..], x, life + h);
      assert (life + h) + Life(c, n, run[1..], x) == life + (h + Life(c, n, run[1..], x));
    }
  }

  lemma HasShape(c: Setup, s: State)
    requires Inv(c, s)
    ensures Shape(c, s)
  {
  }

  /** Which of the tasks hold the gate. */
  predicate HoldsGate(c: Setup, x: nat) {
    c.path == BlockedHolder && x % 400 == 0
  }

  /**
   The whole life of a task in a finished run: it arrives, is pushed to its queue and popped
   from it by one worker, passes the gate, is started, holds the gate or is served, is ended
   and counted - once each, in this order, and with nothing else.  Its record holds the
   readings taken when it arrived, started and ended.
   */
  lemma TaskLife(c: Setup, clock: nat, given: seq<Record>, run: seq<Action>, x: nat)
    requires IsRun(c, clock, given, run) && x < c.total
    requires After(c, Start(c, clock, given), run).dispatcher.Finished?
    ensures var life, s := Life(c, Start(c, clock, given), run, x), After(c, Start(c, clock, given), run);
            && x < |s.tasks|
            && var t, k := s.tasks[x], if c.path == UnevenPartition && x % 4 != 3 then 1 else 0;
            var w := t.worker;
            && t.rec.shard == (if x % 4 == 3 then 0 else 1)
            && w < c.pool && (c.path == UnevenPartition ==> (k == 0 <==> w == 0))
            && |life| == (if HoldsGate(c, x) then 10 else 9)
            && life[0] == Arrived(t.rec.ready) && life[1] == Offered(k) && life[2] == Taken(k, w)
            && (forall i :: 3 <= i < |life| ==> life[i].Did? && life[i].w == w)
            && life[3].g == AtGate && life[4].g == InGate && life[5] == Did(Starting, w, t.rec.start)
            && (HoldsGate(c, x) ==>
                  && life[6].g == WantGate && life[7].g == Holding
                  && life[8] == Did(Ending, w, t.rec.end) && life[9].g == Counting)
            && (!HoldsGate(c, x) ==>
                  life[6].g == Serving && life[7] == Did(Ending, w, t.rec.end) && life[8].g == Counting)
  {
    var s0 := Start(c, clock, given);
    var s := After(c, s0, run);
    StartHolds(c, clock, given);
    NothingLived(c, clock, given, x);
    LifeOfRun(c, s0, run, x, []);
    RunKeeps(c, s0, run);
    assert Reachable(c, s);
    EveryTaskOnce(c, s);
    var life := Life(c, s0, run, x);
    assert [] + life == life;
    FullLife(c, s, x, life);
  }

  lemma NothingLived(c: Setup, clock: nat, given: seq<Record>, x: nat)
    requires Valid(c) && clock > 0 && |given| == c.total && x < c.total
    ensures Shape(c, Start(c, clock, given)) && LifeOk(c, Start(c, clock, given), x, [])
  {
  }

  lemma FullLife(c: Setup, s: State, x: nat, life: seq<Happening>)
    requires Inv(c, s) && x < c.total && s.dispatcher.Finished? && LifeOk(c, s, x, life)
    requires s.tasks[x].popped == 1 && s.tasks[x].finished == 1
    ensures var t, k := s.tasks[x], if c.path == UnevenPartition && x % 4 != 3 then 1 else 0;
            var w := t.worker;
            && t.rec.shard == (if x % 4 == 3 then 0 else 1)
            && w < c.pool && (c.path == UnevenPartition ==> (k == 0 <==> w == 0))
            && |life| == (if HoldsGate(c, x) then 10 else 9)
            && life[0] == Arrived(t.rec.ready) && life[1] == Offered(k) && life[2] == Taken(k, w)
            && (forall i :: 3 <= i < |life| ==> life[i].Did? && life[i].w == w)
            && life[3].g == AtGate && life[4].g == InGate && life[5] == Did(Starting, w, t.rec.start)
            && (HoldsGate(c, x) ==>
                  && life[6].g == WantGate && life[7].g == Holding
                  && life[8] == Did(Ending, w, t.rec.end) && life[9].g == Counting)
            && (!HoldsGate(c, x) ==>
                  life[6].g == Serving && life[7] == Did(Ending, w, t.rec.end) && life[8].g == Counting)
  {
    assert TaskOk(c, s, x) && TimeOk(c, s, x);
    var t := s.tasks[x];
    var rest := life[3..];
    assert forall i :: 0 <= i < |rest| ==> rest[i] == life[i + 3];
    assert life[0] == life[..3][0] && life[1] == life[..3][1] && life[2] == life[..3][2];
    assert t.holder == HoldsGate(c, x);
    assert forall i :: 0 <= i < |rest| ==> rest[i].Did? && rest[i].g == Course(t.holder)[i];
  }

  /** The state in which the i-th step of the run is taken. */
  function StateAt(c: Setup, s: State, run: seq<Action>, i: nat): State
    requires Runs(c, s, run) && i < |run|
    decreases |run|
  {
    if i == 0 then s else StateAt(c, Step(c, s, run[0]), run[1..], i - 1)
  }

  lemma {:induction false} StepTaken(c: Setup, s: State, run: seq<Action>, i: nat)
    requires Runs(c, s, run) && i < |run|
    ensures Enabled(c, StateAt(c, s, run, i), run[i])
    decreases |run|
  {
    hide Enabled, Step;
    if i > 0 { StepTaken(c, Step(c, s, run[0]), run[1..], i - 1); }
  }

  /** The step at which the n-th thing happened to task x. */
  function Position(c: Setup, s: State, run: seq<Action>, x: nat, n: nat): (i: nat)
    requires Runs(c, s, run) && n < |Life(c, s, run, x)|
    ensures i < |run|
    decreases |run|
  {
    var h := Happens(c, s, run[0], x);
    if n < |h| then 0 else 1 + Position(c, Step(c, s, run[0]), run[1..], x, n - |h|)
  }

  lemma {:induction false} HappenedThere(c: Setup, s: State, run: seq<Action>, x: nat, n: nat)
    requires Runs(c, s, run) && n < |Life(c, s, run, x)|
    ensures var i := Position(c, s, run, x, n);
            && Enabled(c, StateAt(c, s, run, i), run[i])
            && Happens(c, StateAt(c, s, run, i), run[i], x) == [Life(c, s, run, x)[n]]
    decreases |run|
  {
    StepTaken(c, s, run, Position(c, s, run, x, n));
    hide Enabled, Step, Happens;
    var h := Happens(c, s, run[0], x);
    if n < |h| {
      assert h == [h[0]];
    } else {
      HappenedThere(c, Step(c, s, run[0]), run[1..], x, n - |h|);
    }
  }

  lemma {:induction false} HappenedInOrder(c: Setup, s: State, run: seq<Action>, x: nat, m: nat, n: nat)
    requires Runs(c, s, run) && m < n < |Life(c, s, run, x)|
    ensures Position(c, s, run, x, m) < Position(c, s, run, x, n)
    decreases |run|
  {
    hide Enabled, Step, Happens;
    var h := Happens(c, s, run[0], x);
    if m >= |h| { HappenedInOrder(c, Step(c, s, run[0]), run[1..], x, m - |h|, n - |h|); }
  }

  /**
   The stamps are readings.  In every finished run, the record of each task holds what the clock
   showed at three steps of that run, one after the other: when the dispatcher was about to
   dispatch it, when its worker was about to start it, and when that worker was about to end it.
   */
  lemma StampsAreReadings(c: Setup, clock: nat, given: seq<Record>, run: seq<Action>, x: nat)
    returns (i: nat, j: nat, k: nat)
    requires IsRun(c, clock, given, run) && x < c.total
    requires After(c, Start(c, clock, given), run).dispatcher.Finished?
    ensures i < j < k < |run|
    ensures var s0 := Start(c, clock, given);
            var s := After(c, s0, run);
            && x < |s.tasks|
            && var t := s.tasks[x];
            var w := t.worker;
            && run[i] == Arrive(t.rec.ready) && StateAt(c, s0, run, i).dispatcher == Next(x)
            && run[j] == Work(w, t.rec.start) && w < |StateAt(c, s0, run, j).workers|
            && StateAt(c, s0, run, j).workers[w] == With(Starting, x)
            && run[k] == Work(w, t.rec.end) && w < |StateAt(c, s0, run, k).workers|
            && StateAt(c, s0, run, k).workers[w] == With(Ending, x)
  {
    var s0 := Start(c, clock, given);
    TaskLife(c, clock, given, run, x);
    hide Runs, Life, After, Position, StateAt, Start, IsRun, Enabled, Happens;
    var e := if HoldsGate(c, x) then 8 else 7;
    i, j, k := Position(c, s0, run, x, 0), Position(c, s0, run, x, 5), Position(c, s0, run, x, e);
    HappenedInOrder(c, s0, run, x, 0, 5);
    HappenedInOrder(c, s0, run, x, 5, e);
    HappenedThere(c, s0, run, x, 0);
    HappenedThere(c, s0, run, x, 5);
    HappenedThere(c, s0, run, x, e);
    WhatHappened(c, StateAt(c, s0, run, i), run[i], x);
    WhatHappened(c, StateAt(c, s0, run, j), run[j], x);
    WhatHappened(c, StateAt(c, s0, run, k), run[k], x);
  }

  lemma WhatHappened(c: Setup, s: State, a: Action, x: nat)
    requires Enabled(c, s, a) && Happens(c, s, a, x) != []
    ensures var h := Happens(c, s, a, x)[0];
            && (h.Arrived? ==> a == Arrive(h.now) && s.dispatcher == Next(x))
            && (h.Did? ==> a == Work(h.w, h.now) && h.w < |s.workers| && s.workers[h.w] == With(h.g, x))
  {
  }

  /** What the seed decides: which tasks hold the gate, and which queue a task goes through and which
      workers serve it. */
  lemma SeedDecides(seed: nat, configured: nat, online: int, x: nat, w: nat)
    requires w < SetupOf(seed, configured, online).pool
    ensures var c := SetupOf(seed, configured, online);
            && (HoldsGate(c, x) <==> seed % 3 == 0 && x % 400 == 0)
            && (c.path == BurstArrival <==> seed % 3 == 1)
            && (c.path == UnevenPartition <==> seed % 3 == 2)
            && RouteOf(c, x) == (if seed % 3 == 2 && x % 4 != 3 then 1 else 0)
            && QueueOf(c, w) == (if seed % 3 == 2 && w > 0 then 1 else 0)
            && c.total == 4000
  {
  }
}
