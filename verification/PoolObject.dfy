/**
 The pool in the program's own form: records and queues overwritten in place by the
 dispatcher and the workers, and a run of the whole from creation to the last join.
 */
module PoolObject {
  import Monitor
  import opened InvariantDefinition
  import opened Pool
  import opened PoolInvariant
  import opened PoolTheorems
  import opened PoolAudit
  import opened Summary
  import opened TaskQueueObject

  class ThreadPool {
    const c: Setup
    const queue0: TaskQueue
    const queue1: TaskQueue
    const tasks: array<Task>
    const workers: array<Worker>
    var clock: nat
    var gate: Gate
    var dispatcher: Dispatcher
    var completed: nat

    ghost predicate Sound()
      reads this, queue0, queue1
    {
      queue0 != queue1 && queue0.slot != queue1.slot && queue0.Valid() && queue1.Valid()
    }

    ghost function View(): State
      requires Sound()
      reads this, queue0, queue1, queue0.slot, queue1.slot, tasks, workers
    {
      State(clock, tasks[..], [queue0.View(), queue1.View()], gate, workers[..], dispatcher, completed)
    }

    ghost predicate Valid()
      reads this, queue0, queue1, queue0.slot, queue1.slot, tasks, workers
    {
      Sound() && Inv(c, View())
    }

    constructor (c: Setup, clock: nat, given: seq<Record>)
      requires Pool.Valid(c) && clock > 0 && |given| == c.total
      ensures Valid() && this.c == c && View() == Start(c, clock, given)
      ensures fresh(queue0) && fresh(queue1) && fresh(queue0.slot) && fresh(queue1.slot)
      ensures fresh(tasks) && fresh(workers)
    {
      this.c := c;
      queue0 := new TaskQueue(WL_CAPACITY);
      queue1 := new TaskQueue(WL_CAPACITY);
      tasks := new Task[|given|](x requires 0 <= x < |given| => Blank(given[x]));
      workers := new Worker[c.pool](_ => Popping);
      this.clock, gate, dispatcher, completed := clock, Free, Upcoming(c, 0), 0;
      new;
      hide Inv;
      StartHolds(c, clock, given);
      assert View() == Start(c, clock, given);
    }

    /** dispatch_one, from the record to the push. */
    method Arrive(now: nat)
      requires Valid() && Enabled(c, View(), Pool.Arrive(now))
      modifies this, tasks
      ensures Sound() && View() == Step(c, old(View()), Pool.Arrive(now))
    {
      var x := dispatcher.i;
      tasks[x] := tasks[x].(rec := Record(ShardOf(x), now, 0, 0), holder := IsHolder(c, x));
      clock, dispatcher := now, Pushing(x);
    }

    method Offer(woken: set<nat>)
      requires Valid() && Enabled(c, View(), Pool.Push(woken))
      modifies this, tasks, queue0, queue1, queue0.slot, queue1.slot
      ensures Sound() && View() == Step(c, old(View()), Pool.Push(woken))
    {
      hide Inv, Monitor.Step, Monitor.Enabled, Monitor.OutcomeOf;
      var x := dispatcher.i;
      var q := if RouteOf(c, x) == 0 then queue0 else queue1;
      var o := q.Push(c.pool, x, woken);
      if o == Monitor.Pushed {
        tasks[x] := tasks[x].(pushed := tasks[x].pushed + 1);
        dispatcher := Upcoming(c, x + 1);
      }
    }
  
    method Shut()
      requires Valid() && Enabled(c, View(), Pool.Shut)
      modifies this, queue0, queue1
      ensures Sound() && View() == Step(c, old(View()), Pool.Shut)
    {
      hide Inv, Monitor.Step, Monitor.Enabled, Monitor.OutcomeOf;
      var q := if dispatcher.k == 0 then queue0 else queue1;
      q.Close(c.pool);
      dispatcher := if dispatcher.k == 0 then Closing(1) else Joining(0);
    }

    method Join()
      requires Valid() && Enabled(c, View(), Pool.Join)
      modifies this
      ensures Sound() && View() == Step(c, old(View()), Pool.Join)
    {
      dispatcher := if dispatcher.w + 1 < workers.Length then Joining(dispatcher.w + 1) else Finished;
    }

    /** One pass of a worker through tq_pop. */
    method Take(w: nat, woken: set<nat>)
      requires Valid() && Enabled(c, View(), Pool.Pop(w, woken))
      modifies tasks, workers, queue0, queue1
      ensures Sound() && View() == Step(c, old(View()), Pool.Pop(w, woken))
    {
      hide Inv, Monitor.Step, Monitor.Enabled;
      var q := if QueueOf(c, w) == 0 then queue0 else queue1;
      var o := q.Pop(w, woken);
      match o {
        case Popped(x) =>
          tasks[x] := tasks[x].(popped := tasks[x].popped + 1, worker := w);
          workers[w] := With(AtGate, x);
        case Drained => workers[w] := Returned;
        case _ =>
      }
    }

    /** What a worker does with the task it has: gate, start, hold or serve, end, count. */
    method Handle(w: nat, now: nat)
      requires Valid() && Enabled(c, View(), Pool.Work(w, now))
      modifies this, tasks, workers
      ensures Sound() && View() == Step(c, old(View()), Pool.Work(w, now))
    {
      hide Inv, Monitor.Step, Monitor.Enabled, Monitor.OutcomeOf;
      var g, x := workers[w].stage, workers[w].x;
      var t := tasks[x];
      match g {
        case AtGate => gate, workers[w] := HeldBy(w), With(InGate, x);
        case InGate => gate, workers[w] := Free, With(Starting, x);
        case Starting =>
          tasks[x] := t.(rec := t.rec.(start := now));
          workers[w] := With(if t.holder then WantGate else Serving, x);
        case WantGate => gate, workers[w] := HeldBy(w), With(Holding, x);
        case Holding => gate, workers[w] := Free, With(Ending, x);
        case Serving => workers[w] := With(Ending, x);
        case Ending =>
          tasks[x] := t.(rec := t.rec.(end := now));
          workers[w] := With(Counting, x);
        case Counting =>
          tasks[x] := t.(finished := t.finished + 1);
          completed, workers[w] := completed + 1, Popping;
      }
      clock := now;
    }
  
    /** Is this thread neither finished, asleep nor blocked? */
    predicate MayGo(t: nat)
      requires Valid() && t <= c.pool
      reads this, queue0, queue1, queue0.slot, queue1.slot, tasks, workers
      ensures MayGo(t) == CanGo(c, View(), t)
    {
      if t < workers.Length then
        match workers[t]
        case Returned => false
        case Popping => t !in (if QueueOf(c, t) == 0 then queue0 else queue1).notEmpty.sleeping
        case With(g, x) => WaitsForGate(g) ==> gate == Free
      else
        match dispatcher
        case Pushing(i) => t !in (if RouteOf(c, i) == 0 then queue0 else queue1).notFull.sleeping
        case Joining(w) => workers[w].Returned?
        case Finished => false
        case _ => true
    }

    /** One step of one thread. */
    method Turn(t: nat, now: nat, wake: set<nat>)
      requires Valid() && t <= c.pool && CanGo(c, View(), t) && clock <= now
      modifies this, tasks, workers, queue0, queue1, queue0.slot, queue1.slot
      ensures Enabled(c, old(View()), NextAction(c, old(View()), t, now, wake))
      ensures Valid() && View() == Step(c, old(View()), NextAction(c, old(View()), t, now, wake))
    {
      ghost var s := View();
      NextIsEnabled(c, s, t, now, wake);
      StepKeeps(c, s, NextAction(c, s, t, now, wake));
      hide Step, Enabled, Inv;
      if t < workers.Length {
        if workers[t].With? {
          Handle(t, now);
        } else {
          Take(t, Pick((if QueueOf(c, t) == 0 then queue0 else queue1).notFull.sleeping, wake));
        }
      } else {
        match dispatcher {
          case Next(i) => Arrive(now);
          case Pushing(i) => Offer(Pick((if RouteOf(c, i) == 0 then queue0 else queue1).notEmpty.sleeping, wake));
          case Closing(k) => Shut();
          case Joining(w) => Join();
          case Finished => assert false;
        }
      }
    }

    method StrayWorker(w: nat)
      requires Valid() && Enabled(c, View(), Pool.WakeWorker(w))
      modifies queue0, queue1
      ensures Sound() && View() == Step(c, old(View()), Pool.WakeWorker(w))
    {
      hide Inv, Monitor.Step, Monitor.Enabled;
      var q := if QueueOf(c, w) == 0 then queue0 else queue1;
      q.WakeConsumer(w);
    }

    method StrayDispatcher()
      requires Valid() && Enabled(c, View(), Pool.WakeDispatcher) && dispatcher.Pushing?
      modifies queue0, queue1
      ensures Sound() && View() == Step(c, old(View()), Pool.WakeDispatcher)
    {
      hide Inv, Monitor.Step, Monitor.Enabled;
      var q := if RouteOf(c, dispatcher.i) == 0 then queue0 else queue1;
      q.WakeProducer(c.pool);
    }

    /** Is this thread asleep on its condition variable? */
    predicate Sleeps(t: nat)
      requires Valid()
      reads this, queue0, queue1, queue0.slot, queue1.slot, tasks, workers
      ensures Sleeps(t) && t < workers.Length ==> Enabled(c, View(), Pool.WakeWorker(t))
      ensures Sleeps(t) && t >= workers.Length ==> dispatcher.Pushing? && Enabled(c, View(), Pool.WakeDispatcher)
    {
      if t < workers.Length then t in (if QueueOf(c, t) == 0 then queue0 else queue1).notEmpty.sleeping
      else t == c.pool && dispatcher.Pushing? &&
           t in (if RouteOf(c, dispatcher.i) == 0 then queue0 else queue1).notFull.sleeping
    }

    /** A spurious wakeup, if the thread is asleep to be woken. */
    method Stray(t: nat)
      requires Valid() && Reachable(c, View())
      modifies queue0, queue1
      ensures Valid() && Reachable(c, View())
      ensures var a := if t < workers.Length then WakeWorker(t) else WakeDispatcher;
              if old(Sleeps(t)) then Enabled(c, old(View()), a) && View() == Step(c, old(View()), a)
              else View() == old(View())
    {
      hide Inv, Reachable, Step, Enabled, Sleeps;
      ghost var s := View();
      if Sleeps(t) {
        if t < workers.Length {
          WakeupKeeps(c, s, WakeWorker(t));
          StrayWorker(t);
        } else {
          WakeupKeeps(c, s, WakeDispatcher);
          StrayDispatcher();
        }
      }
    }

    method Strays(ts: seq<nat>)
      requires Valid() && Reachable(c, View())
      modifies queue0, queue1
      ensures Valid() && Reachable(c, View())
    {
      hide Reachable, Inv;
      for i := 0 to |ts|
        invariant Valid() && Reachable(c, View())
      {
        Stray(ts[i]);
      }
    }

    /** A thread that can go: the preferred one, or else the first there is. */
    method Choose(preferred: nat) returns (t: nat)
      requires Valid() && Reachable(c, View()) && !dispatcher.Finished?
      ensures t <= c.pool && CanGo(c, View(), t)
    {
      hide Reachable, Inv, CanGo;
      ghost var some := SomeThreadCanGo(c, View());
      t := preferred;
      if t > c.pool || !MayGo(t) {
        t := 0;
        while !MayGo(t)
          invariant t <= some
          decreases some - t
        {
          t := t + 1;
        }
      }
    }

    /** One round of the scheduler. */
    method Advance(preferred: nat, pause: nat, wake: set<nat>)
      requires Valid() && Reachable(c, View()) && !dispatcher.Finished?
      modifies this, tasks, workers, queue0, queue1, queue0.slot, queue1.slot
      ensures Valid() && Reachable(c, View())
      ensures 0 <= Potential(c, View()) < Potential(c, old(View()))
    {
      hide Reachable, Inv, CanGo, Step, Enabled, Potential, NextAction;
      ghost var s := View();
      var t := Choose(preferred);
      ghost var a := NextAction(c, s, t, clock + pause, wake);
      NextIsEnabled(c, s, t, clock + pause, wake);
      ReachableNext(c, s, a);
      PotentialFalls(c, s, a);
      PotentialPositive(c, Step(c, s, a));
      Turn(t, clock + pause, wake);
    }

    /**
     The rest of a run, whatever the scheduler prefers, however long things take and
     whoever is woken, with any finite number of spurious wakeups (`strays` lists them
     round by round): it ends, and every task has then been handled once.
     */
    method RunToEnd(prefer: nat -> nat, pause: nat -> nat, wake: nat -> set<nat>, strays: seq<seq<nat>>)
      requires Valid() && Reachable(c, View())
      modifies this, tasks, workers, queue0, queue1, queue0.slot, queue1.slot
      ensures Valid() && Reachable(c, View()) && dispatcher.Finished?
      ensures completed == c.total == tasks.Length
      ensures forall x :: 0 <= x < tasks.Length ==>
                tasks[x].pushed == 1 && tasks[x].popped == 1 && tasks[x].finished == 1
    {
      hide Reachable, Inv, Potential;
      var i := 0;
      while !dispatcher.Finished?
        invariant Valid() && Reachable(c, View())
        decreases if i < |strays| then |strays| - i else 0, Potential(c, View())
      {
        if i < |strays| { Strays(strays[i]); }
        Advance(prefer(i), pause(i), wake(i));
        i := i + 1;
      }
      EveryTaskOnce(c, View());
      assert tasks[..] == View().tasks;
    }
  
    /** The last loop of wl_run. */
    method CountShards() returns (n0: nat, n1: nat)
      requires Valid() && Reachable(c, View()) && dispatcher.Finished?
      ensures n0 == c.total / WL_NUM_SIZES && n1 == c.total - n0
    {
      hide Reachable, Inv;
      FinishedRunIsWellFormed(c, View());
      assert tasks[..] == View().tasks;
      n0, n1 := 0, 0;
      for k := 0 to tasks.Length
        invariant n0 == k / WL_NUM_SIZES && n0 + n1 == k
      {
        assert Records(View())[k] == tasks[k].rec;
        if tasks[k].rec.shard == 0 {
          n0 := n0 + 1;
        } else {
          n1 := n1 + 1;
        }
      }
    }
  }

  /** One pass of the workload and its audit: whatever the scheduling, with any finite number of spurious
      wakeups, it ends with sound numbers. */
  method RunAndAudit(c: Setup, clock: nat, given: seq<Record>,
                     prefer: nat -> nat, pause: nat -> nat, wake: nat -> set<nat>, strays: seq<seq<nat>>)
    returns (completed: nat, shard0: nat, shard1: nat, out: RunSummary)
    requires Pool.Valid(c) && clock > 0 && |given| == c.total
    ensures completed == c.total
    ensures shard0 == c.total / WL_NUM_SIZES && shard0 + shard1 == c.total
    ensures out.started == c.total && out.bugCount <= c.total / 2
    ensures 0.0 <= out.violationUs <= out.spanUs
    ensures out.violationFraction == -1.0 || 0.0 <= out.violationFraction <= 1.0
  {
    hide Reachable, Inv;
    var p := new ThreadPool(c, clock, given);
    StartReachable(c, clock, given);
    p.RunToEnd(prefer, pause, wake, strays);
    shard0, shard1 := p.CountShards();
    completed := p.completed;
    var recs := seq(p.tasks.Length, x requires 0 <= x < p.tasks.Length reads p.tasks => p.tasks[x].rec);
    assert recs == Records(p.View());
    out := AuditRun(c, p.View(), recs);
  }
}
