/**
 The bounded queue of task ids as a monitor: any number of producers and consumers, one
 mutex and two condition variables.  One step is one critical section: from getting the
 mutex to releasing it, either at the end or inside pthread_cond_wait.
 */
module Monitor {

  /** A condition variable: who waits on it, and who has been woken but does not have the mutex back yet. */
  datatype Cond = Cond(sleeping: set<nat>, told: set<nat>)

  /** pthread_cond_signal unblocks at least one sleeper, if there is any; which ones is not ours to choose. */
  predicate CanSignal(c: Cond, woken: set<nat>) {
    woken <= c.sleeping && (c.sleeping != {} ==> woken != {})
  }

  function Signal(c: Cond, woken: set<nat>): Cond {
    Cond(c.sleeping - woken, c.told + woken)
  }

  function Broadcast(c: Cond): Cond {
    Cond({}, c.told + c.sleeping)
  }

  function Wait(c: Cond, t: nat): Cond {
    Cond(c.sleeping + {t}, c.told - {t})
  }

  /** Holding the mutex again. */
  function Resume(c: Cond, t: nat): Cond {
    Cond(c.sleeping, c.told - {t})
  }

  /** Waking with nobody having signalled. */
  function Spurious(c: Cond, t: nat): Cond {
    Cond(c.sleeping - {t}, c.told)
  }

  datatype Queue = Queue(items: seq<nat>, capacity: nat, closed: bool, notEmpty: Cond, notFull: Cond)

  const Nobody := Cond({}, {})

  function Fresh(capacity: nat): Queue {
    Queue([], capacity, false, Nobody, Nobody)
  }

  /** What a pass through tq_push or tq_pop ends with. */
  datatype Outcome = Slept | Pushed | Popped(x: nat) | Drained | Done

  datatype Action =
    | Push(t: nat, x: nat, woken: set<nat>)
    | Pop(t: nat, woken: set<nat>)
    | Close(t: nat)
    | WakeConsumer(t: nat)
    | WakeProducer(t: nat)

  predicate Asleep(q: Queue, t: nat) {
    t in q.notEmpty.sleeping || t in q.notFull.sleeping
  }

  /** On the condition variable, or on the way back from it. */
  predicate OnCond(c: Cond, t: nat) {
    t in c.sleeping || t in c.told
  }

  predicate Enabled(q: Queue, a: Action) {
    match a
    case Push(t, x, woken) => !Asleep(q, t) && t !in q.notEmpty.told && CanSignal(q.notEmpty, woken)
    case Pop(t, woken) => !Asleep(q, t) && t !in q.notFull.told && CanSignal(q.notFull, woken)
    case Close(t) => !Asleep(q, t) && t !in q.notEmpty.told && t !in q.notFull.told
    case WakeConsumer(t) => t in q.notEmpty.sleeping
    case WakeProducer(t) => t in q.notFull.sleeping
  }

  function OutcomeOf(q: Queue, a: Action): Outcome {
    match a
    case Push(t, x, woken) => if |q.items| == q.capacity then Slept else Pushed
    case Pop(t, woken) =>
      if q.items != [] then Popped(q.items[0]) else if q.closed then Drained else Slept
    case Close(t) => Done
    case WakeConsumer(t) => Done
    case WakeProducer(t) => Done
  }

  function Step(q: Queue, a: Action): Queue {
    match a
    case Push(t, x, woken) =>
      if |q.items| == q.capacity then q.(notFull := Wait(q.notFull, t))
      else q.(items := q.items + [x], notFull := Resume(q.notFull, t), notEmpty := Signal(q.notEmpty, woken))
    case Pop(t, woken) =>
      if q.items != [] then
        q.(items := q.items[1..], notEmpty := Resume(q.notEmpty, t), notFull := Signal(q.notFull, woken))
      else if q.closed then q.(notEmpty := Resume(q.notEmpty, t))
      else q.(notEmpty := Wait(q.notEmpty, t))
    case Close(t) => q.(closed := true, notEmpty := Broadcast(q.notEmpty), notFull := Broadcast(q.notFull))
    case WakeConsumer(t) => q.(notEmpty := Spurious(q.notEmpty, t))
    case WakeProducer(t) => q.(notFull := Spurious(q.notFull, t))
  }

  predicate Runs(q: Queue, run: seq<Action>) {
    run == [] || (Runs(q, run[..|run| - 1]) && Enabled(After(q, run[..|run| - 1]), run[|run| - 1]))
  }

  function After(q: Queue, run: seq<Action>): Queue {
    if run == [] then q else Step(After(q, run[..|run| - 1]), run[|run| - 1])
  }

  /** The ids put in, and the ids handed out, in order. */
  function PushedIn(q: Queue, run: seq<Action>): seq<nat> {
    if run == [] then []
    else
      var a := run[|run| - 1];
      PushedIn(q, run[..|run| - 1])
      + if OutcomeOf(After(q, run[..|run| - 1]), a) == Pushed && a.Push? then [a.x] else []
  }

  function PoppedFrom(q: Queue, run: seq<Action>): seq<nat> {
    if run == [] then []
    else
      var o := OutcomeOf(After(q, run[..|run| - 1]), run[|run| - 1]);
      PoppedFrom(q, run[..|run| - 1]) + if o.Popped? then [o.x] else []
  }
}

module MonitorTheorems {
  import opened Monitor

  /**
   No wakeup is lost.  A consumer sleeps only while the queue is open, and then there are
   at least as many consumers on their way back as there are items; a producer sleeps only
   when there are at least as many producers on their way back as there are free slots.
   */
  ghost predicate Inv(q: Queue) {
    && q.capacity > 0
    && |q.items| <= q.capacity
    && q.notEmpty.sleeping !! q.notEmpty.told
    && q.notFull.sleeping !! q.notFull.told
    && (q.notEmpty.sleeping != {} ==> !q.closed && |q.items| <= |q.notEmpty.told|)
    && (q.notFull.sleeping != {} ==> q.capacity - |q.items| <= |q.notFull.told|)
  }

  lemma ResumeSizes(c: Cond, t: nat)
    requires c.sleeping !! c.told
    ensures |Resume(c, t).told| >= |c.told| - 1
    ensures Resume(c, t).sleeping == c.sleeping && c.sleeping !! Resume(c, t).told
    ensures Wait(c, t).sleeping !! Wait(c, t).told
  {
    Subset(c.told, Resume(c, t).told + {t});
  }

  lemma SignalSizes(c: Cond, woken: set<nat>)
    requires c.sleeping !! c.told && CanSignal(c, woken)
    ensures c.sleeping != {} ==> |Signal(c, woken).told| >= |c.told| + 1
    ensures c.sleeping == {} ==> Signal(c, woken).sleeping == {}
    ensures Signal(c, woken).sleeping !! Signal(c, woken).told
  {
    if c.sleeping != {} {
      var w :| w in woken;
      Subset(c.told + {w}, c.told + woken);
    }
  }

  lemma {:induction false} Subset(a: set<nat>, b: set<nat>)
    requires a <= b
    ensures |a| <= |b|
  {
    if a != {} {
      var x :| x in a;
      Subset(a - {x}, b - {x});
    }
  }

  lemma StepKeeps(q: Queue, a: Action)
    requires Inv(q) && Enabled(q, a)
    ensures Inv(Step(q, a))
  {
    hide Signal, Resume, Wait, CanSignal;
    match a
    case Push(t, x, woken) =>
      ResumeSizes(q.notFull, t);
      SignalSizes(q.notEmpty, woken);
    case Pop(t, woken) =>
      ResumeSizes(q.notEmpty, t);
      SignalSizes(q.notFull, woken);
    case Close(t) =>
    case WakeConsumer(t) =>
    case WakeProducer(t) =>
  }

  /** Who is on a condition variable after a step: those who were, and who went to sleep in it. */
  lemma Waiters(q: Queue, a: Action)
    requires Enabled(q, a)
    ensures forall t :: OnCond(Step(q, a).notEmpty, t) ==> OnCond(q.notEmpty, t) || (a.Pop? && a.t == t)
    ensures forall t :: OnCond(Step(q, a).notFull, t) ==> OnCond(q.notFull, t) || (a.Push? && a.t == t)
    ensures a.Pop? && OutcomeOf(q, a) != Slept ==> !OnCond(Step(q, a).notEmpty, a.t)
    ensures a.Push? && OutcomeOf(q, a) != Slept ==> !OnCond(Step(q, a).notFull, a.t)
    ensures Step(q, a).capacity == q.capacity
    ensures Step(q, a).closed == (q.closed || a.Close?)
  {
  }

  lemma {:induction false} RunKeeps(q: Queue, run: seq<Action>)
    requires Inv(q) && Runs(q, run)
    ensures Inv(After(q, run))
  {
    if run != [] {
      RunKeeps(q, run[..|run| - 1]);
      hide Inv, Step, Enabled;
      StepKeeps(After(q, run[..|run| - 1]), run[|run| - 1]);
    }
  }

  /** The queue between what went in and what came out is always what is left, in order. */
  lemma {:induction false} FirstInFirstOut(capacity: nat, run: seq<Action>)
    requires Runs(Fresh(capacity), run)
    ensures PushedIn(Fresh(capacity), run)
         == PoppedFrom(Fresh(capacity), run) + After(Fresh(capacity), run).items
  {
    var q := Fresh(capacity);
    if run != [] {
      var run0, a := run[..|run| - 1], run[|run| - 1];
      FirstInFirstOut(capacity, run0);
      var m := After(q, run0);
      if m.items != [] { assert m.items == [m.items[0]] + m.items[1..]; }
    }
  }

  /** From creation on: no lost wakeup, and the bound that makes the ring big enough. */
  lemma NoLostWakeup(capacity: nat, run: seq<Action>)
    requires capacity > 0 && Runs(Fresh(capacity), run)
    ensures var q := After(Fresh(capacity), run);
            && |q.items| <= capacity
            && (q.notEmpty.sleeping != {} ==> |q.items| <= |q.notEmpty.told|)
            && (q.notFull.sleeping != {} ==> capacity - |q.items| <= |q.notFull.told|)
            && (q.notEmpty.sleeping != {} && q.items != [] ==> q.notEmpty.told != {})
            && (q.notFull.sleeping != {} && |q.items| < capacity ==> q.notFull.told != {})
            && (q.closed ==> q.notEmpty.sleeping == {})
  {
    RunKeeps(Fresh(capacity), run);
    CapacityStays(Fresh(capacity), run);
  }

  lemma {:induction false} CapacityStays(q: Queue, run: seq<Action>)
    ensures After(q, run).capacity == q.capacity
    ensures q.closed ==> After(q, run).closed
  {
    if run != [] { CapacityStays(q, run[..|run| - 1]); }
  }

  /** A pop says "drained" exactly when the queue is closed and everything pushed has been handed out. */
  lemma DrainedMeansAllHandedOut(capacity: nat, run: seq<Action>, t: nat, woken: set<nat>)
    requires Runs(Fresh(capacity), run)
    ensures OutcomeOf(After(Fresh(capacity), run), Pop(t, woken)) == Drained
       <==> After(Fresh(capacity), run).closed && PushedIn(Fresh(capacity), run) == PoppedFrom(Fresh(capacity), run)
  {
    FirstInFirstOut(capacity, run);
  }

  /**
   After close nobody sleeps, unless a producer still pushes: a step of a closed queue in
   which nobody sleeps puts somebody to sleep exactly when it is a push to a full queue.
   */
  lemma SleepsAfterClose(q: Queue, a: Action)
    requires Inv(q) && q.closed && q.notFull.sleeping == {} && Enabled(q, a)
    ensures (Step(q, a).notEmpty.sleeping != {} || Step(q, a).notFull.sleeping != {})
       <==> a.Push? && |q.items| == q.capacity
  {
    match a
    case Push(t, x, woken) =>
      if |q.items| == q.capacity { assert t in Step(q, a).notFull.sleeping; }
    case Pop(t, woken) =>
    case Close(t) =>
    case WakeConsumer(t) =>
    case WakeProducer(t) =>
  }

  /** Closing wakes everybody: those who slept are all on their way back. */
  lemma CloseWakesEverybody(q: Queue, t: nat)
    ensures var r := Step(q, Close(t));
            && r.closed && r.notEmpty.sleeping == {} && r.notFull.sleeping == {}
            && r.notEmpty.told == q.notEmpty.told + q.notEmpty.sleeping
            && r.notFull.told == q.notFull.told + q.notFull.sleeping && r.items == q.items
  {
  }

  predicate NobodySleeps(q: Queue) {
    q.notEmpty.sleeping == {} && q.notFull.sleeping == {}
  }

  /** In no state of the run. */
  predicate NobodySleepsDuring(q: Queue, run: seq<Action>) {
    NobodySleeps(After(q, run)) && (run == [] || NobodySleepsDuring(q, run[..|run| - 1]))
  }

  /** No push of the run meets a full ring. */
  predicate PushesFindSpace(q: Queue, run: seq<Action>) {
    run == [] ||
    (&& PushesFindSpace(q, run[..|run| - 1])
     && (run[|run| - 1].Push? ==> |After(q, run[..|run| - 1]).items| < q.capacity))
  }

  /** From a close that leaves nobody asleep: nobody ever sleeps again exactly if no push finds the ring full. */
  lemma {:induction false} QuietAfterClose(q: Queue, run: seq<Action>)
    requires Inv(q) && q.closed && NobodySleeps(q) && Runs(q, run)
    ensures NobodySleepsDuring(q, run) <==> PushesFindSpace(q, run)
  {
    if run != [] {
      var run0, a := run[..|run| - 1], run[|run| - 1];
      QuietAfterClose(q, run0);
      RunKeeps(q, run0);
      CapacityStays(q, run0);
      if NobodySleepsDuring(q, run0) { SleepsAfterClose(After(q, run0), a); }
    }
  }

  /** A queue of one slot that is closed with a producer waiting: woken by close, it goes back to sleep. */
  lemma ProducerSleepsAfterClose() returns (run: seq<Action>)
    ensures Runs(Fresh(1), run) && After(Fresh(1), run).closed && After(Fresh(1), run).notFull.sleeping != {}
  {
    var q := Fresh(1);
    run := [];
    run := Extend(q, run, Push(0, 7, {}));
    assert After(q, run) == Queue([7], 1, false, Nobody, Nobody);
    run := Extend(q, run, Push(0, 8, {}));
    assert After(q, run) == Queue([7], 1, false, Nobody, Cond({0}, {}));
    run := Extend(q, run, Close(1));
    assert After(q, run) == Queue([7], 1, true, Nobody, Cond({}, {0}));
    run := Extend(q, run, Push(0, 8, {}));
  }

  lemma Extend(q: Queue, run: seq<Action>, a: Action) returns (longer: seq<Action>)
    requires Runs(q, run) && Enabled(After(q, run), a)
    ensures longer == run + [a] && Runs(q, longer) && After(q, longer) == Step(After(q, run), a)
  {
    longer := run + [a];
    assert longer[..|longer| - 1] == run;
  }
}

/** The queue as the program has it: a ring in an array, overwritten in place. */
module TaskQueueObject {
  import opened Monitor

  /** The array index of the i-th item. */
  function Place(head: nat, i: nat, n: nat): int {
    if head + i < n then head + i else head + i - n
  }

  class TaskQueue {
    const slot: array<nat>
    var head: nat
    var tail: nat
    var count: nat
    var closed: bool
    var notEmpty: Cond
    var notFull: Cond

    ghost predicate Valid()
      reads this
    {
      && slot.Length > 0
      && head < slot.Length
      && count <= slot.Length
      && tail == Place(head, count, slot.Length)
    }

    /** The items from head on, around the end of the array. */
    ghost function Contents(): seq<nat>
      requires Valid()
      reads this, slot
    {
      seq(count, i requires Valid() && 0 <= i < count reads this, slot => slot[Place(head, i, slot.Length)])
    }

    ghost function View(): Queue
      requires Valid()
      reads this, slot
    {
      Queue(Contents(), slot.Length, closed, notEmpty, notFull)
    }

    constructor (capacity: nat)
      requires capacity > 0
      ensures Valid() && View() == Fresh(capacity) && fresh(slot)
    {
      slot := new nat[capacity](_ => 0);
      head, tail, count, closed, notEmpty, notFull := 0, 0, 0, false, Nobody, Nobody;
    }

    /** One pass of tq_push with the mutex held. */
    method Push(t: nat, x: nat, woken: set<nat>) returns (o: Outcome)
      requires Valid() && Enabled(View(), Monitor.Push(t, x, woken))
      modifies this, slot
      ensures Valid()
      ensures View() == Step(old(View()), Monitor.Push(t, x, woken))
      ensures o == OutcomeOf(old(View()), Monitor.Push(t, x, woken))
    {
      if count == slot.Length {
        notFull := Wait(notFull, t);
        return Slept;
      }
      ghost var was := View();
      Wrap(tail, slot.Length);
      slot[tail] := x;
      tail := (tail + 1) % slot.Length;
      count := count + 1;
      notFull := Resume(notFull, t);
      notEmpty := Signal(notEmpty, woken);
      assert Contents() == was.items + [x];
      return Pushed;
    }

    /** One pass of tq_pop with the mutex held. */
    method Pop(t: nat, woken: set<nat>) returns (o: Outcome)
      requires Valid() && Enabled(View(), Monitor.Pop(t, woken))
      modifies this
      ensures Valid()
      ensures View() == Step(old(View()), Monitor.Pop(t, woken))
      ensures o == OutcomeOf(old(View()), Monitor.Pop(t, woken))
    {
      if count == 0 && !closed {
        notEmpty := Wait(notEmpty, t);
        return Slept;
      }
      if count == 0 {
        notEmpty := Resume(notEmpty, t);
        return Drained;
      }
      ghost var was := View();
      var x := slot[head];
      Wrap(head, slot.Length);
      head := (head + 1) % slot.Length;
      count := count - 1;
      notEmpty := Resume(notEmpty, t);
      notFull := Signal(notFull, woken);
      assert was.items[0] == x;
      assert Contents() == was.items[1..];
      return Popped(x);
    }

    /** pthread_cond_wait returning with nobody having signalled. */
    method WakeConsumer(t: nat)
      requires Valid() && Enabled(View(), Monitor.WakeConsumer(t))
      modifies this
      ensures Valid() && View() == Step(old(View()), Monitor.WakeConsumer(t))
    {
      notEmpty := Spurious(notEmpty, t);
    }

    method WakeProducer(t: nat)
      requires Valid() && Enabled(View(), Monitor.WakeProducer(t))
      modifies this
      ensures Valid() && View() == Step(old(View()), Monitor.WakeProducer(t))
    {
      notFull := Spurious(notFull, t);
    }

    method Close(t: nat)
      requires Valid() && Enabled(View(), Monitor.Close(t))
      modifies this
      ensures Valid() && View() == Step(old(View()), Monitor.Close(t))
    {
      closed := true;
      notEmpty := Broadcast(notEmpty);
      notFull := Broadcast(notFull);
    }
  }

  lemma Wrap(i: nat, n: nat)
    requires i < n
    ensures (i + 1) % n == Place(i, 1, n)
  {
    if i + 1 == n { assert (i + 1) % n == 0; }
  }
}
