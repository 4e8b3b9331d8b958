/**
 The queue in the program's own form: an object whose fields the compare-and-swaps
 overwrite.  `Turn` is one atomic step of one thread; `Enqueue` and `Dequeue` are the
 retry loops, run by one thread while the others do as they please between its steps.
 */
module MsQueueObject {
  import opened Wrappers
  import opened MsQueue
  import opened MsQueueInvariant
  import opened MsQueueFifo
  import opened Linearizability
  import opened MsQueueProgress

  /** What the other threads do before one step of an operation, and whether that step's weak
      compare-and-swap then fails for no reason. */
  datatype Meanwhile = Meanwhile(turns: seq<Turn>, spurious: bool)

  const Undisturbed := Meanwhile([], false)

  /** A stretch of a run: the turns taken, the states of the sequential queue, what an observer saw. */
  datatype History = History(sched: seq<Turn>, states: seq<Spec>, tr: seq<Entry>)

  function Noted(h: History, t: nat, a: Action, ev: Event, now: Spec): History {
    History(h.sched + [MsQueue.Turn(t, a)], h.states + [now], h.tr + [Entry(t, ev)])
  }

  /** The turns lead from one state to the other and show the observer the trace. */
  ghost predicate Plays(from: State, h: History, to: State) {
    && ValidSchedule(|from.threads|, h.sched) && Run(from, h.sched) == to
    && |h.tr| == |h.sched|
    && forall i :: 0 <= i < |h.sched| ==>
         h.tr[i] == Entry(h.sched[i].t, EventOf(Run(from, h.sched[..i]), h.sched[i].t, h.sched[i].a))
  }

  /** The sequential queue can have gone the same way. */
  ghost predicate Explains(first: Spec, h: History, last: Spec) {
    SpecRun(h.states, h.tr) && h.states[0] == first && h.states[|h.tr|] == last
  }

  lemma NothingYet(from: State, first: Spec)
    ensures Plays(from, History([], [first], []), from) && Explains(first, History([], [first], []), first)
  {
  }

  lemma PlayedOn(from: State, h: History, s: State, t: nat, a: Action, now: Spec)
    requires Plays(from, h, s) && t < |s.threads|
    ensures Plays(from, Noted(h, t, a, EventOf(s, t, a), now), Step(s, t, a))
  {
    hide EventOf, Step;
    var longer, n := Noted(h, t, a, EventOf(s, t, a), now), |h.sched|;
    assert longer.sched[..n] == h.sched;
    LastTurn(from, h.sched, MsQueue.Turn(t, a));
    hide Run;
    forall i | 0 <= i < n ensures longer.sched[..i] == h.sched[..i] && longer.tr[i] == h.tr[i] {
    }
  }

  lemma LastTurn(from: State, sched: seq<Turn>, last: Turn)
    requires ValidSchedule(|from.threads|, sched) && last.t < |from.threads|
    ensures Run(from, sched + [last]) == Step(Run(from, sched), last.t, last.a)
  {
    assert (sched + [last])[..|sched|] == sched;
  }

  lemma ExplainedOn(first: Spec, h: History, now: Spec, next: Spec, t: nat, a: Action, ev: Event)
    requires Explains(first, h, now) && SpecStep(now, next, t, ev)
    ensures Explains(first, Noted(h, t, a, ev, next), next)
  {
    hide SpecStep;
  }

  /** The trace goes on, with nothing by thread t. */
  predicate Extends(tr: seq<Entry>, longer: seq<Entry>, t: nat) {
    tr <= longer && forall i :: |tr| <= i < |longer| ==> longer[i].t != t
  }

  predicate OnlyBy(tr: seq<Entry>, t: nat) {
    forall i :: 0 <= i < |tr| ==> tr[i].t == t
  }

  predicate CallsOrReturns(ev: Event) {
    ev.CallEnqueue? || ev.CallDequeue? || ev.ReturnEnqueue? || ev.ReturnValue? || ev.ReturnEmpty?
  }

  /** Thread t has made this call at the start of the trace and has not returned. */
  predicate InCall(tr: seq<Entry>, t: nat, call: Event) {
    && tr != [] && tr[0] == Entry(t, call)
    && forall i :: 1 <= i < |tr| && tr[i].t == t ==> !CallsOrReturns(tr[i].ev)
  }

  /** How far its own operation has come before and after a round of thread t, which ends with this event. */
  predicate Moves(c: Status, c': Status, ev: Event) {
    && (Enqueuing(c) ==> Enqueuing(c') && (c' == Ready ==> ev.ReturnEnqueue?))
    && (Dequeuing(c) ==> Dequeuing(c') && (c' == Ready ==> ev.ReturnValue? || ev.ReturnEmpty?))
  }

  predicate Enqueuing(c: Status) {
    c.EnqPending? || c.EnqDone? || c.Ready?
  }

  predicate Dequeuing(c: Status) {
    c.DeqPending? || c.DeqSawEmpty? || c.Ready?
  }

  lemma {:induction false} SilentUntilReturn(tr: seq<Entry>, t: nat, arg: int)
    requires tr != [] && forall i :: 0 <= i < |tr| - 1 && tr[i].t == t ==> !CallsOrReturns(tr[i].ev)
    ensures Completed(tr, t, arg) == Returned(tr[|tr| - 1], t, arg)
    decreases |tr|
  {
    if |tr| > 1 { SilentUntilReturn(tr[1..], t, arg); }
  }

  /** A call, nothing else of its own, and a return: one operation. */
  lemma OneOperation(tr: seq<Entry>, t: nat, call: Event, ret: Event)
    requires InCall(tr, t, call) && (call.CallEnqueue? || call.CallDequeue?)
    ensures Completed(tr + [Entry(t, ret)], t, 0)
         == Returned(Entry(t, ret), t, if call.CallEnqueue? then call.v else 0)
  {
    var whole := tr + [Entry(t, ret)];
    SilentUntilReturn(whole[1..], t, if call.CallEnqueue? then call.v else 0);
  }

  /** From rest to rest: what took effect is what was completed, and it replays. */
  lemma Accounted(first: Spec, h: History, last: Spec, t: nat)
    requires Explains(first, h, last) && t < |first.status| && first.status[t] == Ready
    requires t < |last.status| && last.status[t] == Ready
    ensures Replay(first.queue, Linearize(h.tr)) == Some(last.queue)
    ensures Completed(h.tr, t, 0) == OpsOf(Linearize(h.tr), t)
  {
    LinearizationIsLegal(h.states, h.tr);
    LinearizationAgreesFrom(h.states, h.tr, t, 0);
    var none, done, ops := InFlight(Ready, t, h.tr), Completed(h.tr, t, 0), OpsOf(Linearize(h.tr), t);
    assert none == InFlight(Ready, t, []) == [];
    assert none + ops == ops && done + none == done;
  }

  lemma {:induction false} OnlyOwnEffects(tr: seq<Entry>, t: nat)
    requires OnlyBy(tr, t)
    ensures forall i :: 0 <= i < |Linearize(tr)| ==> Linearize(tr)[i].t == t
    decreases |tr|
  {
    if tr != [] { OnlyOwnEffects(tr[1..], t); }
  }

  lemma {:induction false} OwnOps(lin: seq<LinOp>, t: nat)
    requires forall i :: 0 <= i < |lin| ==> lin[i].t == t
    ensures |OpsOf(lin, t)| == |lin| && forall i :: 0 <= i < |lin| ==> OpsOf(lin, t)[i] == lin[i].op
    decreases |lin|
  {
    if lin != [] { OwnOps(lin[1..], t); }
  }

  /** With nobody else acting, the operation alone takes the queue from one state to the other. */
  lemma AloneIn(tr: seq<Entry>, t: nat, q: seq<int>, op: Op)
    requires OnlyBy(tr, t) && OpsOf(Linearize(tr), t) == [op]
    ensures Linearize(tr) == [LinOp(t, op)] && Replay(q, Linearize(tr)) == Replay(q, [LinOp(t, op)])
  {
    OnlyOwnEffects(tr, t);
    OwnOps(Linearize(tr), t);
  }

  lemma OneReplayed(t: nat, q: seq<int>, op: Op)
    ensures op.Enqueued? ==> Replay(q, [LinOp(t, op)]) == Some(q + [op.v])
    ensures op.Dequeued? && Replay(q, [LinOp(t, op)]) != None ==>
              q != [] && q[0] == op.v && Replay(q, [LinOp(t, op)]) == Some(q[1..])
    ensures op.FoundEmpty? && Replay(q, [LinOp(t, op)]) != None ==> q == [] && Replay(q, [LinOp(t, op)]) == Some(q)
  {
    var ops := [LinOp(t, op)];
    assert ops[1..] == [];
  }

  class LockFreeQueue {
    var heap: seq<Node>
    var head: Tagged
    var tail: Tagged
    var retired: seq<Ptr>
    var threads: seq<Local>
    ghost var order: seq<nat>

    ghost function Cells(): Shared
      reads this
    {
      Shared(heap, head, tail, retired)
    }

    ghost function View(): State
      reads this
    {
      State(Cells(), threads)
    }

    ghost predicate Valid()
      reads this
    {
      Inv(View(), order)
    }

    constructor (n: nat)
      ensures Valid() && View() == Create(n) && order == [0]
    {
      heap := [Node(0, Unlinked)];
      head, tail := Tagged(To(0), 0), Tagged(To(0), 0);
      retired := [];
      threads := seq(n, _ => Idle);
      order := [0];
      new;
      RunKeepsInv(n, []);
    }

    /** The strong compare-and-swap on tail, in place. */
    method SwapTail(expected: Tagged, desired: Tagged)
      modifies this`tail
      ensures Cells() == CasTail(old(Cells()), expected, desired)
    {
      if tail == expected {
        tail := desired;
      }
    }

    method EnqueueTurn(l: Local, spurious: bool) returns (l': Local, ev: Event)
      requires l.EnqLoadTail? || l.EnqLoadNext? || l.EnqRecheck? || l.EnqLink? || l.EnqSwing? || l.EnqHelp?
      modifies this`heap, this`tail
      ensures var o := EnqueueStep(old(Cells()), l, spurious);
              Cells() == o.sh && l' == o.local && ev == o.ev
    {
      l', ev := l, Tau;
      match l {
        case EnqLoadTail(n) =>
          l' := EnqLoadNext(n, tail);
        case EnqLoadNext(n, t) =>
          if t.ptr.To? && t.ptr.addr < |heap| {
            l' := EnqRecheck(n, t, heap[t.ptr.addr].next);
          } else {
            l', ev := Crashed, Crash;
          }
        case EnqRecheck(n, t, next) =>
          if t.ptr != tail.ptr {
            l', ev := EnqLoadTail(n), Retry(false);
          } else if next.ptr.Null? {
            l' := EnqLink(n, t, next);
          } else {
            l' := EnqHelp(n, t, next);
          }
        case EnqLink(n, t, next) =>
          if !(t.ptr.To? && t.ptr.addr < |heap|) || n >= |heap| {
            l', ev := Crashed, Crash;
          } else if heap[t.ptr.addr].next == next && !spurious {
            l', ev := EnqSwing(n, t), Linked(heap[n].value);
            heap := heap[t.ptr.addr := heap[t.ptr.addr].(next := Tagged(To(n), next.count + 1))];
          } else {
            l', ev := EnqLoadTail(n), Retry(heap[t.ptr.addr].next == next);
          }
        case EnqSwing(n, t) =>
          SwapTail(t, Tagged(To(n), t.count + 1));
          l', ev := Idle, ReturnEnqueue;
        case EnqHelp(n, t, next) =>
          SwapTail(t, Tagged(next.ptr, t.count + 1));
          l', ev := EnqLoadTail(n), Retry(false);
      }
    }

    method DequeueTurn(l: Local) returns (l': Local, ev: Event)
      requires || l.DeqLoadHead? || l.DeqLoadTail? || l.DeqLoadNext? || l.DeqRecheck?
               || l.DeqHelp? || l.DeqRead? || l.DeqSwing?
      modifies this`head, this`tail, this`retired
      ensures var o := DequeueStep(old(Cells()), l);
              Cells() == o.sh && l' == o.local && ev == o.ev
    {
      l', ev := l, Tau;
      match l {
        case DeqLoadHead =>
          l' := DeqLoadTail(head);
        case DeqLoadTail(h) =>
          l' := DeqLoadNext(h, tail);
        case DeqLoadNext(h, t) =>
          if h.ptr.To? && h.ptr.addr < |heap| {
            var next := heap[h.ptr.addr].next;
            l' := DeqRecheck(h, t, next);
            if next.ptr.Null? { ev := SawNull; }
          } else {
            l', ev := Crashed, Crash;
          }
        case DeqRecheck(h, t, next) =>
          if h.ptr != head.ptr {
            l', ev := DeqLoadHead, Retry(false);
          } else if h.ptr == t.ptr {
            if next.ptr.Null? {
              l', ev := Idle, ReturnEmpty;
            } else {
              l' := DeqHelp(t, next);
            }
          } else {
            l' := DeqRead(h, next);
          }
        case DeqHelp(t, next) =>
          SwapTail(t, Tagged(next.ptr, t.count + 1));
          l', ev := DeqLoadHead, Retry(false);
        case DeqRead(h, next) =>
          if next.ptr.To? && next.ptr.addr < |heap| {
            l' := DeqSwing(h, next, heap[next.ptr.addr].value);
          } else {
            l', ev := Crashed, Crash;
          }
        case DeqSwing(h, next, val) =>
          if head == h {
            head := Tagged(next.ptr, h.count + 1);
            retired := retired + [h.ptr];
            l', ev := Idle, ReturnValue(val);
          } else {
            l', ev := DeqLoadHead, Retry(false);
          }
      }
    }

    /** One step of one thread, in place. */
    method Turn(t: nat, a: Action) returns (ev: Event)
      requires Valid() && t < |threads|
      modifies this
      ensures Valid()
      ensures View() == Step(old(View()), t, a) && ev == EventOf(old(View()), t, a)
      ensures order == NextOrder(old(order), old(threads)[t], ev)
      ensures SpecStep(Abstract(old(View()), old(order)), Abstract(View(), order), t, ev)
    {
      ghost var s, before := View(), order;
      hide Inv, SharedInv, LocalInv, EnqueueStep, DequeueStep, SpecStep, Abstract;
      var l := threads[t];
      var l';
      StepRefines(s, order, t, a);
      ev, l' := Tau, l;
      if l.Idle? {
        if a.StartEnqueue? {
          l', ev := EnqLoadTail(|heap|), CallEnqueue(a.v);
          heap := heap + [Node(a.v, Unlinked)];
        } else if a.StartEnqueueNoMemory? {
          ev := EnqueueNoMemory;
        } else if a.StartDequeue? {
          l', ev := DeqLoadHead, CallDequeue;
        }
      } else if a.Go? {
        if l.EnqLoadTail? || l.EnqLoadNext? || l.EnqRecheck? || l.EnqLink? || l.EnqSwing? || l.EnqHelp? {
          l', ev := EnqueueTurn(l, a.spurious);
        } else if !l.Crashed? {
          EnqueueElse(Cells(), l, a.spurious);
          l', ev := DequeueTurn(l);
        } else {
          EnqueueElse(Cells(), l, a.spurious);
          CrashedStays(Cells());
        }
      }
      threads := threads[t := l'];
      order := NextOrder(order, l, ev);
      assert View() == Step(s, t, a);
    }

    /** A turn, written down. */
    method Play(t: nat, a: Action, ghost from: State, ghost first: Spec, ghost h: History)
      returns (ev: Event, ghost longer: History)
      requires Valid() && t < |threads|
      requires Plays(from, h, View()) && Explains(first, h, Abstract(View(), order))
      modifies this
      ensures Valid() && View() == Step(old(View()), t, a) && ev == EventOf(old(View()), t, a)
      ensures SpecStep(old(Abstract(View(), order)), Abstract(View(), order), t, ev)
      ensures Plays(from, longer, View()) && Explains(first, longer, Abstract(View(), order))
      ensures longer.tr == h.tr + [Entry(t, ev)]
    {
      ghost var s, abs := View(), Abstract(View(), order);
      ev := Turn(t, a);
      hide Inv, SpecStep, Abstract, Plays, Explains;
      longer := Noted(h, t, a, ev, Abstract(View(), order));
      PlayedOn(from, h, s, t, a, Abstract(View(), order));
      ExplainedOn(first, h, abs, Abstract(View(), order), t, a, ev);
    }

    /** What the other threads do between two steps of thread t. */
    method Others(t: nat, turns: seq<Turn>, ghost from: State, ghost first: Spec, ghost h: History)
      returns (ghost longer: History)
      requires Valid() && t < |threads|
      requires Plays(from, h, View()) && Explains(first, h, Abstract(View(), order))
      modifies this
      ensures Valid() && |threads| == old(|threads|) && threads[t] == old(threads[t])
      ensures Plays(from, longer, View()) && Explains(first, longer, Abstract(View(), order))
      ensures Abstract(View(), order).status[t] == old(Abstract(View(), order)).status[t]
      ensures Extends(h.tr, longer.tr, t)
      ensures turns == [] ==> longer == h && View() == old(View()) && order == old(order)
    {
      longer := h;
      hide SharedInv, LocalInv, LocalStep, Plays, Explains;
      for i := 0 to |turns|
        invariant Valid() && |threads| == old(|threads|) && threads[t] == old(threads[t])
        invariant Plays(from, longer, View()) && Explains(first, longer, Abstract(View(), order))
        invariant Abstract(View(), order).status[t] == old(Abstract(View(), order)).status[t]
        invariant Extends(h.tr, longer.tr, t)
        invariant i == 0 ==> longer == h && View() == old(View()) && order == old(order)
      {
        if turns[i].t != t && turns[i].t < |threads| {
          var ev;
          ev, longer := Play(turns[i].t, turns[i].a, from, first, longer);
        }
      }
    }

    /** One round of a retry loop: what the others do, then one step of thread t. */
    method Proceed(t: nat, m: Meanwhile, ghost from: State, ghost first: Spec, ghost h: History)
      returns (ev: Event, ghost longer: History, ghost during: seq<Entry>)
      requires Valid() && t < |threads| && !threads[t].Idle?
      requires Plays(from, h, View()) && Explains(first, h, Abstract(View(), order))
      modifies this
      ensures Valid() && |threads| == old(|threads|)
      ensures Plays(from, longer, View()) && Explains(first, longer, Abstract(View(), order))
      ensures Extends(h.tr, during, t) && longer.tr == during + [Entry(t, ev)]
      ensures !ev.CallEnqueue? && !ev.CallDequeue? && (threads[t].Idle? <==> CallsOrReturns(ev))
      ensures threads[t].Idle? <==> Abstract(View(), order).status[t] == Ready
      ensures Moves(old(Abstract(View(), order)).status[t], Abstract(View(), order).status[t], ev)
      ensures m == Undisturbed ==>
                && during == h.tr && StepsLeft(Cells(), threads[t]) < old(StepsLeft(Cells(), threads[t]))
                && forall u :: 0 <= u < |threads| && u != t ==> threads[u] == old(threads[u])
    {
      hide LocalInv, SharedInv, Contents, LocalStep, Plays, Explains, StatusOf;
      longer := Others(t, m.turns, from, first, h);
      during := longer.tr;
      NotStarting(Cells(), order, threads[t], Go(m.spurious));
      if m == Undisturbed { SoloStep(Cells(), order, threads[t]); }
      ev, longer := Play(t, Go(m.spurious), from, first, longer);
      if !threads[t].Idle? { NotStarting(Cells(), order, threads[t], Go(false)); } else { IdleIsReady(Cells()); }
    }

    /**
     msq_enqueue's loop, with the other threads acting as `script` says between its steps and
     standing still once it is used up.  It ends, and in the sequential history of all that
     took effect meanwhile this thread has enqueued the value once and done nothing else.
     */
    method Enqueue(t: nat, v: int, script: seq<Meanwhile>) returns (ghost h: History)
      requires Valid() && t < |threads| && threads[t].Idle?
      modifies this
      ensures Valid() && |threads| == old(|threads|) && threads[t].Idle?
      ensures Plays(old(View()), h, View())
      ensures Replay(old(Contents(Cells(), order)), Linearize(h.tr)) == Some(Contents(Cells(), order))
      ensures Completed(h.tr, t, 0) == [Enqueued(v)] == OpsOf(Linearize(h.tr), t)
      ensures script == [] ==>
                && Contents(Cells(), order) == old(Contents(Cells(), order)) + [v]
                && forall u :: 0 <= u < |threads| && u != t ==> threads[u] == old(threads[u])
    {
      hide LocalInv, SharedInv, Contents, LocalStep, Plays, Explains, Replay, Linearize, Completed, OpsOf;
      ghost var from, first := View(), Abstract(View(), order);
      h := History([], [first], []);
      NothingYet(from, first);
      Starts(Cells(), StartEnqueue(v));
      var ev;
      ev, h := Play(t, StartEnqueue(v), from, first, h);
      ghost var during := h.tr;
      var k := 0;
      while !threads[t].Idle?
        invariant Valid() && |threads| == old(|threads|)
        invariant Plays(from, h, View()) && Explains(first, h, Abstract(View(), order))
        invariant 0 <= k <= |script| && (script == [] ==> OnlyBy(h.tr, t))
        invariant if threads[t].Idle? then h.tr == during + [Entry(t, ReturnEnqueue)] else h.tr == during
        invariant InCall(during, t, CallEnqueue(v))
        invariant script == [] ==> forall u :: 0 <= u < |threads| && u != t ==> threads[u] == old(threads[u])
        invariant Abstract(View(), order).status[t] == Ready <==> threads[t].Idle?
        invariant Enqueuing(Abstract(View(), order).status[t])
        decreases |script| - k, StepsLeft(Cells(), threads[t])
      {
        ev, h, during := Proceed(t, if k < |script| then script[k] else Undisturbed, from, first, h);
        if k < |script| { k := k + 1; }
        if !threads[t].Idle? { during := h.tr; }
      }
      OneOperation(during, t, CallEnqueue(v), ReturnEnqueue);
      Accounted(first, h, Abstract(View(), order), t);
      if script == [] { AloneIn(h.tr, t, first.queue, Enqueued(v)); OneReplayed(t, first.queue, Enqueued(v)); }
    }

    /** The event with which a dequeue answers. */
    static function Answer(r: Option<int>): Event {
      match r
      case Some(v) => ReturnValue(v)
      case None => ReturnEmpty
    }

    static function Answered(r: Option<int>): Op {
      match r
      case Some(v) => Dequeued(v)
      case None => FoundEmpty
    }

    /**
     msq_dequeue's loop, among others as in `Enqueue`: in the sequential history of all that took
     effect meanwhile this thread has taken the oldest value once, or found the queue empty once.
     */
    method Dequeue(t: nat, script: seq<Meanwhile>) returns (r: Option<int>, ghost h: History)
      requires Valid() && t < |threads| && threads[t].Idle?
      modifies this
      ensures Valid() && |threads| == old(|threads|) && threads[t].Idle?
      ensures Plays(old(View()), h, View())
      ensures Replay(old(Contents(Cells(), order)), Linearize(h.tr)) == Some(Contents(Cells(), order))
      ensures Completed(h.tr, t, 0) == [Answered(r)] == OpsOf(Linearize(h.tr), t)
      ensures script == [] ==>
                match r
                case Some(v) => old(Contents(Cells(), order)) == [v] + Contents(Cells(), order)
                case None => old(Contents(Cells(), order)) == [] == Contents(Cells(), order)
      ensures script == [] ==> forall u :: 0 <= u < |threads| && u != t ==> threads[u] == old(threads[u])
    {
      hide LocalInv, SharedInv, Contents, LocalStep, Plays, Explains, Replay, Linearize, Completed, OpsOf;
      ghost var from, first := View(), Abstract(View(), order);
      h := History([], [first], []);
      NothingYet(from, first);
      Starts(Cells(), StartDequeue);
      var ev;
      ev, h := Play(t, StartDequeue, from, first, h);
      ghost var during := h.tr;
      var k := 0;
      r := None;
      while !threads[t].Idle?
        invariant Valid() && |threads| == old(|threads|)
        invariant Plays(from, h, View()) && Explains(first, h, Abstract(View(), order))
        invariant 0 <= k <= |script| && (script == [] ==> OnlyBy(h.tr, t))
        invariant if threads[t].Idle? then h.tr == during + [Entry(t, Answer(r))] else h.tr == during
        invariant InCall(during, t, CallDequeue)
        invariant script == [] ==> forall u :: 0 <= u < |threads| && u != t ==> threads[u] == old(threads[u])
        invariant Abstract(View(), order).status[t] == Ready <==> threads[t].Idle?
        invariant Dequeuing(Abstract(View(), order).status[t])
        decreases |script| - k, StepsLeft(Cells(), threads[t])
      {
        ev, h, during := Proceed(t, if k < |script| then script[k] else Undisturbed, from, first, h);
        if k < |script| { k := k + 1; }
        if !threads[t].Idle? { during := h.tr; }
        r := if ev.ReturnValue? then Some(ev.v) else None;
      }
      OneOperation(during, t, CallDequeue, Answer(r));
      Accounted(first, h, Abstract(View(), order), t);
      if script == [] {
        AloneIn(h.tr, t, first.queue, Answered(r));
        OneReplayed(t, first.queue, Answered(r));
      }
    }
  }

  lemma IdleIsReady(sh: Shared)
    ensures StatusOf(sh, Idle) == Ready
  {
  }

  lemma EnqueueElse(sh: Shared, l: Local, spurious: bool)
    requires !l.EnqLoadTail? && !l.EnqLoadNext? && !l.EnqRecheck? && !l.EnqLink? && !l.EnqSwing? && !l.EnqHelp?
    ensures EnqueueStep(sh, l, spurious) == DequeueStep(sh, l)
  {
  }

  lemma CrashedStays(sh: Shared)
    ensures DequeueStep(sh, Crashed) == Outcome(sh, Crashed, Tau)
  {
  }

  lemma Starts(sh: Shared, a: Action)
    ensures a.StartEnqueue? ==> LocalStep(sh, Idle, a).ev == CallEnqueue(a.v)
    ensures a.StartDequeue? ==> LocalStep(sh, Idle, a).ev == CallDequeue
  {
  }

  /** In the middle of an operation the status says which one, and no step begins another. */
  lemma NotStarting(sh: Shared, order: seq<nat>, l: Local, a: Action)
    requires SharedInv(sh, order) && LocalInv(sh, order, l) && !l.Idle? && a.Go?
    ensures StatusOf(sh, l) != Ready
    ensures !LocalStep(sh, l, a).ev.CallEnqueue? && !LocalStep(sh, l, a).ev.CallDequeue?
    ensures LocalStep(sh, l, a).local.Idle? <==>
              var ev := LocalStep(sh, l, a).ev; ev.ReturnEnqueue? || ev.ReturnValue? || ev.ReturnEmpty?
  {
  }

  /** Any schedule, played on the object, is a linearizable run. */
  method Drive(n: nat, sched: seq<Turn>) returns (q: LockFreeQueue, tr: seq<Entry>)
    requires ValidSchedule(n, sched)
    ensures fresh(q) && q.Valid()
    ensures q.View() == Run(Create(n), sched) && tr == Trace(n, sched)
    ensures Replay([], Linearize(tr)) == Some(Contents(q.Cells(), q.order))
  {
    hide Inv, SharedInv, LocalInv, LocalStep, Contents, Linearize, Replay, SpecStep;
    q := new LockFreeQueue(n);
    tr := [];
    for i := 0 to |sched|
      invariant q.Valid() && fresh(q)
      invariant q.View() == Run(Create(n), sched[..i]) && q.order == LinkOrder(n, sched[..i])
      invariant tr == Trace(n, sched[..i])
    {
      assert sched[..i + 1][..|sched[..i + 1]| - 1] == sched[..i];
      var ev := q.Turn(sched[i].t, sched[i].a);
      tr := tr + [Entry(sched[i].t, ev)];
    }
    assert sched[..|sched|] == sched;
    QueueIsLinearizable(n, sched);
    LastSpecState(n, sched);
  }
}
