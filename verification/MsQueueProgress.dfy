/**
 Lock-freedom with numbers.  A retry needs a cause: since the thread's iteration began
 some thread linked a node or moved head or tail.  Charging each retry to such a change
 bounds them all; and a thread left alone finishes within a fixed number of steps.
 */
module MsQueueProgress {
  import opened MsQueue
  import opened MsQueueInvariant

  /** Did a step of the run change what the other threads' checks look at? */
  predicate Changes(sh: Shared, o: Outcome) {
    o.ev.Linked? || o.sh.head != sh.head || o.sh.tail != sh.tail
  }

  /** What the thread has loaded in this iteration is still what is there. */
  predicate UpToDate(sh: Shared, l: Local) {
    match l
    case EnqLoadNext(_, tail) => tail == sh.tail
    case EnqRecheck(_, tail, next) => tail == sh.tail && Readable(sh, tail.ptr) && sh.heap[tail.ptr.addr].next == next
    case EnqLink(_, tail, next) => Readable(sh, tail.ptr) && sh.heap[tail.ptr.addr].next == next
    case EnqHelp(_, tail, _) => tail == sh.tail
    case DeqLoadTail(head) => head == sh.head
    case DeqLoadNext(head, tail) => head == sh.head && tail == sh.tail
    case DeqRecheck(head, tail, _) => head == sh.head && tail == sh.tail
    case DeqHelp(tail, _) => tail == sh.tail
    case DeqRead(head, _) => head == sh.head
    case DeqSwing(head, _, _) => head == sh.head
    case _ => true
  }

  /** A step that changes nothing shared keeps everyone else up to date, and the thread itself
      retries only if it was out of date. */
  lemma QuietStep(sh: Shared, order: seq<nat>, l: Local, a: Action, other: Local)
    requires SharedInv(sh, order) && LocalInv(sh, order, l) && !Changes(sh, LocalStep(sh, l, a))
    ensures var o := LocalStep(sh, l, a);
            && (UpToDate(sh, other) ==> UpToDate(o.sh, other))
            && (UpToDate(sh, l) ==> UpToDate(o.sh, o.local) && o.ev != Retry(false))
  {
  }

  /** After a retry, or once an operation is over, there is nothing loaded that could be stale. */
  lemma RetryStartsAfresh(sh: Shared, l: Local, a: Action)
    ensures var o := LocalStep(sh, l, a);
            o.ev.Retry? ==> UpToDate(o.sh, o.local)
  {
  }

  /** What counts as a retry: going back to the top of the loop, from anywhere but the top; and it is put
      down to a spurious failure exactly when the compare-and-swap at the link found what it expected. */
  lemma RetryIsAnotherRound(sh: Shared, l: Local, a: Action)
    ensures var o := LocalStep(sh, l, a);
            && (o.ev.Retry? <==> !l.Idle? && o.local != l && (o.local.EnqLoadTail? || o.local.DeqLoadHead?))
            && (o.ev == Retry(true) <==>
                  && l.EnqLink? && a == Go(true) && Readable(sh, l.tail.ptr) && l.n < |sh.heap|
                  && sh.heap[l.tail.ptr.addr].next == l.next)
            && (o.ev == Retry(true) ==> o.sh == sh)
  {
  }

  /** Which threads may be out of date.  A change makes everyone suspect; a retry clears one. */
  function Suspects(threads: nat, sched: seq<Turn>): (b: seq<bool>)
    requires ValidSchedule(threads, sched)
    ensures |b| == threads
    decreases |sched|
  {
    if sched == [] then seq(threads, _ => false)
    else
      var before := sched[..|sched| - 1];
      var last := sched[|sched| - 1];
      var s := Run(Create(threads), before);
      var o := LocalStep(s.sh, s.threads[last.t], last.a);
      var b := if Changes(s.sh, o) then seq(threads, _ => true) else Suspects(threads, before);
      if o.ev.Retry? then b[last.t := false] else b
  }

  function CountTrue(b: seq<bool>): nat {
    if b == [] then 0 else CountTrue(b[1..]) + if b[0] then 1 else 0
  }

  lemma {:induction false} CountBound(b: seq<bool>)
    ensures CountTrue(b) <= |b|
  {
    if b != [] { CountBound(b[1..]); }
  }

  lemma {:induction false} CountClear(b: seq<bool>, t: nat)
    requires t < |b|
    ensures CountTrue(b[t := false]) == CountTrue(b) - if b[t] then 1 else 0
  {
    if t > 0 {
      CountClear(b[1..], t - 1);
      assert b[t := false][1..] == b[1..][t - 1 := false];
    } else {
      assert b[0 := false][1..] == b[1..];
    }
  }

  lemma {:induction false} CountNone(n: nat)
    ensures CountTrue(seq(n, _ => false)) == 0
  {
    if n > 0 {
      CountNone(n - 1);
      assert seq(n, _ => false)[1..] == seq(n - 1, _ => false);
    }
  }

  /** How often something happened in a run. */
  datatype Tally = Tally(retries: nat, spurious: nat, links: nat, tailSwings: nat, headMoves: nat)

  function Tallied(threads: nat, sched: seq<Turn>): Tally
    requires ValidSchedule(threads, sched)
    decreases |sched|
  {
    if sched == [] then Tally(0, 0, 0, 0, 0)
    else
      var before := sched[..|sched| - 1];
      var last := sched[|sched| - 1];
      var s := Run(Create(threads), before);
      var o := LocalStep(s.sh, s.threads[last.t], last.a);
      var y := Tallied(threads, before);
      Tally(y.retries + (if o.ev.Retry? then 1 else 0),
            y.spurious + (if o.ev == Retry(true) then 1 else 0),
            y.links + (if o.ev.Linked? then 1 else 0),
            y.tailSwings + (if o.sh.tail != s.sh.tail then 1 else 0),
            y.headMoves + (if o.sh.head != s.sh.head then 1 else 0))
  }

  lemma StepMoves(sh: Shared, order: seq<nat>, l: Local, a: Action)
    requires SharedInv(sh, order) && LocalInv(sh, order, l)
    ensures var o := LocalStep(sh, l, a);
            && o.sh.tail.count == sh.tail.count + (if o.sh.tail != sh.tail then 1 else 0)
            && o.sh.head.count == sh.head.count + (if o.sh.head != sh.head then 1 else 0)
            && |NextOrder(order, l, o.ev)| == |order| + (if o.ev.Linked? then 1 else 0)
  {
  }

  /** The counts in the tags count the successful compare-and-swaps. */
  lemma {:induction false} TagsCountSwings(threads: nat, sched: seq<Turn>)
    requires ValidSchedule(threads, sched)
    ensures var y := Tallied(threads, sched);
            var s := Run(Create(threads), sched);
            && y.tailSwings == s.sh.tail.count && y.headMoves == s.sh.head.count
            && y.links == |LinkOrder(threads, sched)| - 1
            && y.headMoves <= y.tailSwings <= y.links <= y.tailSwings + 1
    decreases |sched|
  {
    RunKeepsInv(threads, sched);
    if sched != [] {
      hide SharedInv, LocalInv, LocalStep;
      var before := sched[..|sched| - 1];
      var last := sched[|sched| - 1];
      TagsCountSwings(threads, before);
      RunKeepsInv(threads, before);
      var s := Run(Create(threads), before);
      StepMoves(s.sh, LinkOrder(threads, before), s.threads[last.t], last.a);
    }
    TagsArePositions(threads, sched);
  }

  /** Threads not under suspicion are up to date. */
  lemma {:induction false} SuspectsSound(threads: nat, sched: seq<Turn>)
    requires ValidSchedule(threads, sched)
    ensures var s := Run(Create(threads), sched);
            forall t :: 0 <= t < threads && !Suspects(threads, sched)[t] ==> UpToDate(s.sh, s.threads[t])
    decreases |sched|
  {
    if sched != [] {
      hide SharedInv, LocalInv, LocalStep, UpToDate;
      var before := sched[..|sched| - 1];
      var last := sched[|sched| - 1];
      var s := Run(Create(threads), before);
      var o := LocalStep(s.sh, s.threads[last.t], last.a);
      SuspectsSound(threads, before);
      RunKeepsInv(threads, before);
      RetryStartsAfresh(s.sh, s.threads[last.t], last.a);
      var s' := Run(Create(threads), sched);
      assert s' == State(o.sh, s.threads[last.t := o.local]);
      forall t | 0 <= t < threads && !Suspects(threads, sched)[t] ensures UpToDate(s'.sh, s'.threads[t]) {
        if t == last.t && o.ev.Retry? {
          assert s'.threads[t] == o.local;
        } else {
          assert !Changes(s.sh, o) && !Suspects(threads, before)[t];
          QuietStep(s.sh, LinkOrder(threads, before), s.threads[last.t], last.a, s.threads[t]);
        }
      }
    } else {
      assert forall t :: 0 <= t < threads ==> Create(threads).threads[t] == Idle;
    }
  }

  /** What the changes so far can pay for. */
  function Budget(threads: nat, y: Tally): nat {
    threads * (y.links + y.tailSwings + y.headMoves) + y.spurious
  }

  lemma MultipleGrows(n: nat, c: nat, d: nat)
    ensures n * (c + d) >= n * c && (d > 0 ==> n * (c + d) >= n * c + n)
  {
    assert n * (c + d) == n * c + n * d;
    if d > 0 {
      assert n * d == n * (d - 1) + n;
      assert n * (d - 1) >= 0;
    }
  }

  lemma BudgetGrows(threads: nat, y: Tally, y': Tally)
    requires y'.links + y'.tailSwings + y'.headMoves >= y.links + y.tailSwings + y.headMoves
    ensures Budget(threads, y') - y'.spurious >= Budget(threads, y) - y.spurious
    ensures y'.links + y'.tailSwings + y'.headMoves > y.links + y.tailSwings + y.headMoves ==>
              Budget(threads, y') - y'.spurious >= Budget(threads, y) - y.spurious + threads
  {
    var c, c' := y.links + y.tailSwings + y.headMoves, y'.links + y'.tailSwings + y'.headMoves;
    MultipleGrows(threads, c, c' - c);
  }

  /** Retries are paid for: every genuine one clears a suspect, and only changes make suspects. */
  lemma {:induction false} RetriesPaidFor(threads: nat, sched: seq<Turn>)
    requires ValidSchedule(threads, sched)
    ensures var y := Tallied(threads, sched);
            y.retries + CountTrue(Suspects(threads, sched)) <= Budget(threads, y)
    decreases |sched|
  {
    hide Budget, CountTrue;
    if sched == [] {
      CountNone(threads);
    } else {
      hide SharedInv, LocalInv, LocalStep, UpToDate;
      var before := sched[..|sched| - 1];
      var last := sched[|sched| - 1];
      var s := Run(Create(threads), before);
      var o := LocalStep(s.sh, s.threads[last.t], last.a);
      RetriesPaidFor(threads, before);
      SuspectsSound(threads, before);
      RunKeepsInv(threads, before);
      BudgetGrows(threads, Tallied(threads, before), Tallied(threads, sched));
      if Changes(s.sh, o) {
        var all := seq(threads, _ => true);
        CountBound(all);
        CountClear(all, last.t);
      } else {
        CountClear(Suspects(threads, before), last.t);
        QuietStep(s.sh, LinkOrder(threads, before), s.threads[last.t], last.a, Idle);
      }
    }
  }

  /** In any finite run of T threads the completed retries number at most T for each link,
      tail swing and head move, plus the spurious link failures; and since tail never
      passes the last node, nor head tail, that is at most 3 T per enqueued value. */
  lemma RetriesAreBounded(threads: nat, sched: seq<Turn>)
    requires ValidSchedule(threads, sched)
    ensures var y := Tallied(threads, sched);
            && y.retries <= threads * (y.links + y.tailSwings + y.headMoves) + y.spurious
            && y.headMoves <= y.tailSwings <= y.links
            && y.retries <= threads * (3 * y.links) + y.spurious
  {
    RetriesPaidFor(threads, sched);
    TagsCountSwings(threads, sched);
    ThreeTimes(threads, Tallied(threads, sched));
  }

  lemma ThreeTimes(threads: nat, y: Tally)
    requires y.headMoves <= y.tailSwings <= y.links
    ensures threads * (y.links + y.tailSwings + y.headMoves) <= threads * (3 * y.links)
  {
    var c := y.links + y.tailSwings + y.headMoves;
    assert threads * (3 * y.links) - threads * c == threads * (3 * y.links - c) >= 0;
  }

  predicate Lagging(sh: Shared) {
    Readable(sh, sh.tail.ptr) && sh.heap[sh.tail.ptr.addr].next.ptr.To?
  }

  /** Steps a whole enqueue needs from the top of its loop when nobody interferes. */
  function EnqueueTop(sh: Shared): nat {
    if Lagging(sh) then 9 else 5
  }

  function DequeueTop(sh: Shared): nat {
    if sh.head.ptr != sh.tail.ptr then 6 else if Lagging(sh) then 11 else 4
  }

  /** Steps left until the thread returns if it runs alone. */
  function StepsLeft(sh: Shared, l: Local): (r: nat)
    ensures r <= 14
    ensures l.Idle? || l.Crashed? <==> r == 0
  {
    match l
    case Idle | Crashed => 0
    case EnqLoadTail(_) => EnqueueTop(sh)
    case EnqLoadNext(_, tail) => if tail == sh.tail then EnqueueTop(sh) - 1 else EnqueueTop(sh) + 2
    case EnqRecheck(_, tail, next) =>
      if tail.ptr != sh.tail.ptr then EnqueueTop(sh) + 1
      else if UpToDate(sh, l) then EnqueueTop(sh) - 2
      else EnqueueTop(sh) + 2
    case EnqLink(_, _, _) => if UpToDate(sh, l) then 2 else EnqueueTop(sh) + 1
    case EnqSwing(_, _) => 1
    case EnqHelp(_, tail, _) => if tail == sh.tail then 6 else EnqueueTop(sh) + 1
    case DeqLoadHead => DequeueTop(sh)
    case DeqLoadTail(head) => if head == sh.head then DequeueTop(sh) - 1 else DequeueTop(sh) + 3
    case DeqLoadNext(head, tail) =>
      if head.ptr != sh.head.ptr then DequeueTop(sh) + 2
      else if tail == sh.tail then DequeueTop(sh) - 2
      else DequeueTop(sh) + 3
    case DeqRecheck(head, tail, next) =>
      if head.ptr != sh.head.ptr then DequeueTop(sh) + 1
      else if head.ptr != tail.ptr then 3
      else if next.ptr.Null? then 1
      else if tail == sh.tail then 8
      else DequeueTop(sh) + 2
    case DeqHelp(tail, _) => if tail == sh.tail then 7 else DequeueTop(sh) + 1
    case DeqRead(head, _) => if head == sh.head then 2 else DequeueTop(sh) + 2
    case DeqSwing(head, _, _) => if head == sh.head then 1 else DequeueTop(sh) + 1
  }

  lemma HelpedTail(sh: Shared, order: seq<nat>, tail: Tagged, next: Tagged)
    requires SharedInv(sh, order) && sh.tail == tail && Successor(order, tail.count, next)
    ensures var sh' := CasTail(sh, tail, Tagged(next.ptr, tail.count + 1));
            !Lagging(sh') && (sh.head.ptr == tail.ptr ==> sh'.head.ptr != sh'.tail.ptr)
  {
    SwingTailKeeps(sh, order, tail, next, Idle);
    var sh' := CasTail(sh, tail, Tagged(next.ptr, tail.count + 1));
    LoadedNext(sh', order, sh'.tail);
    SamePosition(sh', order, sh'.head, sh'.tail);
    SamePosition(sh, order, sh.head, tail);
  }

  lemma SoloEnqueueStep(sh: Shared, order: seq<nat>, l: Local)
    requires SharedInv(sh, order) && LocalInv(sh, order, l)
    requires l.EnqLoadTail? || l.EnqLoadNext? || l.EnqRecheck? || l.EnqLink? || l.EnqSwing? || l.EnqHelp?
    ensures var o := EnqueueStep(sh, l, false); StepsLeft(o.sh, o.local) < StepsLeft(sh, l)
  {
    hide SharedInv;
    SharedFacts(sh, order);
    if !l.EnqLoadTail? {
      LoadedNext(sh, order, l.tail);
      SamePosition(sh, order, l.tail, sh.tail);
    }
    LoadedNext(sh, order, sh.tail);
    if l.EnqHelp? && sh.tail == l.tail { HelpedTail(sh, order, l.tail, l.next); }
  }

  lemma SoloDequeueLoadStep(sh: Shared, order: seq<nat>, l: Local)
    requires SharedInv(sh, order) && LocalInv(sh, order, l)
    requires l.DeqLoadHead? || l.DeqLoadTail? || l.DeqLoadNext?
    ensures var o := DequeueStep(sh, l); StepsLeft(o.sh, o.local) < StepsLeft(sh, l)
  {
    hide SharedInv;
    SharedFacts(sh, order);
    LoadedNext(sh, order, sh.tail);
    if !l.DeqLoadHead? {
      LoadedNext(sh, order, l.head);
      SamePosition(sh, order, l.head, sh.head);
    }
    if l.DeqLoadNext? { SamePosition(sh, order, l.head, l.tail); }
  }

  lemma SoloDequeueStep(sh: Shared, order: seq<nat>, l: Local)
    requires SharedInv(sh, order) && LocalInv(sh, order, l)
    requires l.DeqRecheck? || l.DeqHelp? || l.DeqRead? || l.DeqSwing?
    ensures var o := DequeueStep(sh, l); StepsLeft(o.sh, o.local) < StepsLeft(sh, l)
  {
    hide SharedInv;
    SharedFacts(sh, order);
    if !l.DeqHelp? { SamePosition(sh, order, l.head, sh.head); }
    if l.DeqHelp? && sh.tail == l.tail { HelpedTail(sh, order, l.tail, l.next); }
    if l.DeqRead? { SuccessorReadable(sh, order, l.head.count, l.next); }
  }

  function RunAlone(s: State, t: nat, k: nat): (s': State)
    requires t < |s.threads|
    ensures |s'.threads| == |s.threads|
    decreases k
  {
    if k == 0 then s else RunAlone(Step(s, t, Go(false)), t, k - 1)
  }

  lemma {:induction false} SoloFrom(s: State, order: seq<nat>, t: nat)
    requires Inv(s, order) && t < |s.threads|
    ensures exists k :: 0 <= k <= StepsLeft(s.sh, s.threads[t]) && RunAlone(s, t, k).threads[t].Idle?
    decreases StepsLeft(s.sh, s.threads[t])
  {
    var l := s.threads[t];
    if l.Idle? {
      assert RunAlone(s, t, 0).threads[t].Idle?;
    } else {
      var s' := Step(s, t, Go(false));
      SoloStep(s.sh, order, l);
      StepKeeps(s, order, t, Go(false));
      SoloFrom(s', NextOrder(order, l, EventOf(s, t, Go(false))), t);
      var k :| 0 <= k <= StepsLeft(s'.sh, s'.threads[t]) && RunAlone(s', t, k).threads[t].Idle?;
      assert RunAlone(s, t, k + 1) == RunAlone(s', t, k);
    }
  }

  lemma SoloStep(sh: Shared, order: seq<nat>, l: Local)
    requires SharedInv(sh, order) && LocalInv(sh, order, l) && !l.Idle?
    ensures var o := LocalStep(sh, l, Go(false)); StepsLeft(o.sh, o.local) < StepsLeft(sh, l)
  {
    hide SharedInv;
    if l.EnqLoadTail? || l.EnqLoadNext? || l.EnqRecheck? || l.EnqLink? || l.EnqSwing? || l.EnqHelp? {
      SoloEnqueueStep(sh, order, l);
    } else if l.DeqLoadHead? || l.DeqLoadTail? || l.DeqLoadNext? {
      SoloDequeueLoadStep(sh, order, l);
    } else {
      SoloDequeueStep(sh, order, l);
    }
  }

  /** From any reachable state, a thread that runs alone and suffers no spurious failure
      returns from its operation within 14 steps, wherever the others were stopped. */
  lemma LoneThreadFinishes(threads: nat, sched: seq<Turn>, t: nat)
    requires ValidSchedule(threads, sched) && t < threads
    ensures exists k :: 0 <= k <= 14 && RunAlone(Run(Create(threads), sched), t, k).threads[t].Idle?
  {
    RunKeepsInv(threads, sched);
    var s := Run(Create(threads), sched);
    SoloFrom(s, LinkOrder(threads, sched), t);
    var k :| 0 <= k <= StepsLeft(s.sh, s.threads[t]) && RunAlone(s, t, k).threads[t].Idle?;
  }
}
