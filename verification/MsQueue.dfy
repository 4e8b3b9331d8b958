/**
 The Michael & Scott queue of week 3 as a step machine.

 Any number of threads run enqueue and dequeue.  One step is one atomic load, one
 compare-and-swap, or one private action (taking a node, reading a node's value).
 Steps of different threads interleave in every possible way.  A node handed back
 with free() is retired: it stays readable and its address is never handed out again.
 */
module MsQueue {

  datatype Ptr = Null | To(addr: nat)

  /** A pointer with the count that defends the compare-and-swaps. */
  datatype Tagged = Tagged(ptr: Ptr, count: nat)

  datatype Node = Node(value: int, next: Tagged)

  /** Everything the threads share.  `retired` lists the freed nodes, oldest first. */
  datatype Shared = Shared(heap: seq<Node>, head: Tagged, tail: Tagged, retired: seq<Ptr>)

  const Unlinked := Tagged(Null, 0)

  /** Where a thread stands, with the local variables that are live there. */
  datatype Local =
    | Idle
    | EnqLoadTail(n: nat)
    | EnqLoadNext(n: nat, tail: Tagged)
    | EnqRecheck(n: nat, tail: Tagged, next: Tagged)
    | EnqLink(n: nat, tail: Tagged, next: Tagged)
    | EnqSwing(n: nat, tail: Tagged)
    | EnqHelp(n: nat, tail: Tagged, next: Tagged)
    | DeqLoadHead
    | DeqLoadTail(head: Tagged)
    | DeqLoadNext(head: Tagged, tail: Tagged)
    | DeqRecheck(head: Tagged, tail: Tagged, next: Tagged)
    | DeqHelp(tail: Tagged, next: Tagged)
    | DeqRead(head: Tagged, next: Tagged)
    | DeqSwing(head: Tagged, next: Tagged, val: int)
    | Crashed

  /** What the scheduler asks of a thread: begin an operation, or take its next step.
      A weak compare-and-swap may fail although the comparison would succeed. */
  datatype Action =
    | StartEnqueue(v: int)
    | StartEnqueueNoMemory
    | StartDequeue
    | Go(spurious: bool)

  /** What an observer sees of one step. */
  datatype Event =
    | Tau
    | Retry(spurious: bool)
    | CallEnqueue(v: int)
    | EnqueueNoMemory
    | Linked(v: int)
    | ReturnEnqueue
    | CallDequeue
    | SawNull
    | ReturnValue(v: int)
    | ReturnEmpty
    | Crash

  datatype Outcome = Outcome(sh: Shared, local: Local, ev: Event)

  datatype State = State(sh: Shared, threads: seq<Local>)

  /** msq_create: one dummy node, both ends on it, nobody running. */
  function Create(threads: nat): State {
    State(Shared([Node(0, Unlinked)], Tagged(To(0), 0), Tagged(To(0), 0), []), seq(threads, _ => Idle))
  }

  /** Following a null pointer, or one that was never handed out, crashes. */
  predicate Readable(sh: Shared, p: Ptr) {
    p.To? && p.addr < |sh.heap|
  }

  /** The strong compare-and-swap on q->tail: pointer and count must both match. */
  function CasTail(sh: Shared, expected: Tagged, desired: Tagged): Shared {
    if sh.tail == expected then sh.(tail := desired) else sh
  }

  function StartStep(sh: Shared, a: Action): Outcome {
    match a
    case StartEnqueue(v) =>
      Outcome(sh.(heap := sh.heap + [Node(v, Unlinked)]), EnqLoadTail(|sh.heap|), CallEnqueue(v))
    case StartEnqueueNoMemory => Outcome(sh, Idle, EnqueueNoMemory)
    case StartDequeue => Outcome(sh, DeqLoadHead, CallDequeue)
    case Go(_) => Outcome(sh, Idle, Tau)
  }

  function DequeueStep(sh: Shared, l: Local): Outcome {
    match l
    case DeqLoadHead => Outcome(sh, DeqLoadTail(sh.head), Tau)
    case DeqLoadTail(head) => Outcome(sh, DeqLoadNext(head, sh.tail), Tau)
    case DeqLoadNext(head, tail) =>
      if Readable(sh, head.ptr)
      then
        var next := sh.heap[head.ptr.addr].next;
        Outcome(sh, DeqRecheck(head, tail, next), if next.ptr.Null? then SawNull else Tau)
      else Outcome(sh, Crashed, Crash)
    case DeqRecheck(head, tail, next) =>
      if head.ptr != sh.head.ptr then Outcome(sh, DeqLoadHead, Retry(false))
      else if head.ptr != tail.ptr then Outcome(sh, DeqRead(head, next), Tau)
      else if next.ptr.Null? then Outcome(sh, Idle, ReturnEmpty)
      else Outcome(sh, DeqHelp(tail, next), Tau)
    case DeqHelp(tail, next) =>
      Outcome(CasTail(sh, tail, Tagged(next.ptr, tail.count + 1)), DeqLoadHead, Retry(false))
    case DeqRead(head, next) =>
      if Readable(sh, next.ptr)
      then Outcome(sh, DeqSwing(head, next, sh.heap[next.ptr.addr].value), Tau)
      else Outcome(sh, Crashed, Crash)
    case DeqSwing(head, next, val) =>
      if sh.head == head
      then Outcome(sh.(head := Tagged(next.ptr, head.count + 1), retired := sh.retired + [head.ptr]),
                   Idle, ReturnValue(val))
      else Outcome(sh, DeqLoadHead, Retry(false))
    case _ => Outcome(sh, l, Tau)
  }

  function EnqueueStep(sh: Shared, l: Local, spurious: bool): Outcome {
    match l
    case EnqLoadTail(n) => Outcome(sh, EnqLoadNext(n, sh.tail), Tau)
    case EnqLoadNext(n, tail) =>
      if Readable(sh, tail.ptr)
      then Outcome(sh, EnqRecheck(n, tail, sh.heap[tail.ptr.addr].next), Tau)
      else Outcome(sh, Crashed, Crash)
    case EnqRecheck(n, tail, next) =>
      if tail.ptr != sh.tail.ptr then Outcome(sh, EnqLoadTail(n), Retry(false))
      else if next.ptr.Null? then Outcome(sh, EnqLink(n, tail, next), Tau)
      else Outcome(sh, EnqHelp(n, tail, next), Tau)
    case EnqLink(n, tail, next) =>
      if !Readable(sh, tail.ptr) || n >= |sh.heap| then Outcome(sh, Crashed, Crash)
      else
        var last := sh.heap[tail.ptr.addr];
        if last.next != next then Outcome(sh, EnqLoadTail(n), Retry(false))
        else if spurious then Outcome(sh, EnqLoadTail(n), Retry(true))
        else
          Outcome(sh.(heap := sh.heap[tail.ptr.addr := last.(next := Tagged(To(n), next.count + 1))]),
                  EnqSwing(n, tail), Linked(sh.heap[n].value))
    case EnqSwing(n, tail) =>
      Outcome(CasTail(sh, tail, Tagged(To(n), tail.count + 1)), Idle, ReturnEnqueue)
    case EnqHelp(n, tail, next) =>
      Outcome(CasTail(sh, tail, Tagged(next.ptr, tail.count + 1)), EnqLoadTail(n), Retry(false))
    case _ => DequeueStep(sh, l)
  }

  /** One step of one thread.  An action that does not fit the thread's place does nothing. */
  function LocalStep(sh: Shared, l: Local, a: Action): Outcome {
    if l.Idle? then StartStep(sh, a)
    else if a.Go? then EnqueueStep(sh, l, a.spurious)
    else Outcome(sh, l, Tau)
  }

  function EventOf(s: State, t: nat, a: Action): Event
    requires t < |s.threads|
  {
    LocalStep(s.sh, s.threads[t], a).ev
  }

  function Step(s: State, t: nat, a: Action): (s': State)
    requires t < |s.threads|
    ensures |s'.threads| == |s.threads|
  {
    var o := LocalStep(s.sh, s.threads[t], a);
    State(o.sh, s.threads[t := o.local])
  }

  /** A schedule: which thread is asked to do what, in order. */
  datatype Turn = Turn(t: nat, a: Action)

  predicate ValidSchedule(threads: nat, sched: seq<Turn>) {
    forall i :: 0 <= i < |sched| ==> sched[i].t < threads
  }

  /** The state after the whole schedule. */
  function Run(s: State, sched: seq<Turn>): (s': State)
    requires ValidSchedule(|s.threads|, sched)
    ensures |s'.threads| == |s.threads|
    decreases |sched|
  {
    if sched == [] then s
    else
      var last := sched[|sched| - 1];
      Step(Run(s, sched[..|sched| - 1]), last.t, last.a)
  }
}

/**
 Tags are absolute positions.  Number every node ever linked; then the counts of
 head and tail are the positions of the nodes they name, tail lags by at most one,
 and no thread ever follows a null pointer.
 */
module MsQueueInvariant {
  import opened MsQueue

  /** Position `p.count` in the link order holds the node `p` names. */
  ghost predicate Names(order: seq<nat>, p: Tagged) {
    p.count < |order| && p.ptr == To(order[p.count])
  }

  ghost predicate SharedInv(sh: Shared, order: seq<nat>) {
    && (forall i :: 0 <= i < |order| ==> order[i] < |sh.heap|)
    && (forall i, j :: 0 <= i < j < |order| ==> order[i] != order[j])
    && (forall i :: 0 <= i < |order| - 1 ==> sh.heap[order[i]].next == Tagged(To(order[i + 1]), 1))
    && 0 < |order|
    && sh.heap[order[|order| - 1]].next == Unlinked
    && Names(order, sh.head) && Names(order, sh.tail)
    && sh.head.count <= sh.tail.count
    && |order| <= sh.tail.count + 2
    && sh.retired == seq(sh.head.count, i requires 0 <= i < |order| => To(order[i]))
  }

  /** A node its enqueuer has not linked yet. */
  ghost predicate Fresh(sh: Shared, order: seq<nat>, n: nat) {
    n < |sh.heap| && sh.heap[n].next == Unlinked && n !in order
  }

  /** The only non-null next a reader of position `pos` can have loaded. */
  ghost predicate Successor(order: seq<nat>, pos: nat, next: Tagged) {
    pos + 1 < |order| && next == Tagged(To(order[pos + 1]), 1)
  }

  ghost predicate LocalInv(sh: Shared, order: seq<nat>, l: Local) {
    match l
    case Idle | DeqLoadHead => true
    case EnqLoadTail(n) => Fresh(sh, order, n)
    case EnqLoadNext(n, tail) => Fresh(sh, order, n) && Names(order, tail) && tail.count <= sh.tail.count
    case EnqRecheck(n, tail, next) =>
      && Fresh(sh, order, n) && Names(order, tail) && tail.count <= sh.tail.count
      && (next == Unlinked || Successor(order, tail.count, next))
    case EnqLink(n, tail, next) =>
      Fresh(sh, order, n) && Names(order, tail) && tail.count <= sh.tail.count && next == Unlinked
    case EnqSwing(n, tail) =>
      && Names(order, tail) && tail.count <= sh.tail.count
      && Successor(order, tail.count, Tagged(To(n), 1)) && n < |sh.heap|
    case EnqHelp(n, tail, next) =>
      Fresh(sh, order, n) && Names(order, tail) && tail.count <= sh.tail.count && Successor(order, tail.count, next)
    case DeqLoadTail(head) => Names(order, head) && head.count <= sh.head.count
    case DeqLoadNext(head, tail) =>
      && Names(order, head) && head.count <= sh.head.count
      && Names(order, tail) && head.count <= tail.count <= sh.tail.count
    case DeqRecheck(head, tail, next) =>
      && Names(order, head) && head.count <= sh.head.count
      && Names(order, tail) && head.count <= tail.count <= sh.tail.count
      && (Successor(order, head.count, next) || (next == Unlinked && head.count == tail.count))
    case DeqHelp(tail, next) => Names(order, tail) && tail.count <= sh.tail.count && Successor(order, tail.count, next)
    case DeqRead(head, next) =>
      && Names(order, head) && head.count <= sh.head.count
      && head.count < sh.tail.count && Successor(order, head.count, next)
    case DeqSwing(head, next, val) =>
      && Names(order, head) && head.count <= sh.head.count
      && head.count < sh.tail.count && Successor(order, head.count, next)
      && order[head.count + 1] < |sh.heap| && val == sh.heap[order[head.count + 1]].value
    case Crashed => false
  }

  ghost predicate Owns(l: Local, n: nat) {
    match l
    case EnqLoadTail(m) => m == n
    case EnqLoadNext(m, _) => m == n
    case EnqRecheck(m, _, _) => m == n
    case EnqLink(m, _, _) => m == n
    case EnqHelp(m, _, _) => m == n
    case _ => false
  }

  ghost predicate Inv(s: State, order: seq<nat>) {
    && SharedInv(s.sh, order)
    && (forall t :: 0 <= t < |s.threads| ==> LocalInv(s.sh, order, s.threads[t]))
    && (forall t, u, n :: 0 <= t < u < |s.threads| && Owns(s.threads[t], n) ==> !Owns(s.threads[u], n))
  }

  /** The link order after a step: a successful link CAS appends the linker's node. */
  function NextOrder(order: seq<nat>, l: Local, ev: Event): seq<nat> {
    if l.EnqLink? && ev.Linked? then order + [l.n] else order
  }

  /** What a step of one thread may do to the others. */
  ghost predicate Evolves(sh: Shared, order: seq<nat>, sh': Shared, order': seq<nat>, owner: Local) {
    && order <= order'
    && sh.head.count <= sh'.head.count && sh.tail.count <= sh'.tail.count
    && |sh.heap| <= |sh'.heap|
    && (forall n :: 0 <= n < |sh.heap| ==> sh'.heap[n].value == sh.heap[n].value)
    && (forall n :: Fresh(sh, order, n) && !Owns(owner, n) ==> Fresh(sh', order', n))
  }

  lemma AllocateKeeps(sh: Shared, order: seq<nat>, v: int)
    requires SharedInv(sh, order)
    ensures var sh' := sh.(heap := sh.heap + [Node(v, Unlinked)]);
            SharedInv(sh', order) && Fresh(sh', order, |sh.heap|) && Evolves(sh, order, sh', order, Idle)
  {
  }

  /** A successful link CAS can only hit the last node, so the new node is the next position. */
  lemma LinkKeeps(sh: Shared, order: seq<nat>, n: nat, tail: Tagged)
    requires SharedInv(sh, order) && LocalInv(sh, order, EnqLink(n, tail, Unlinked))
    requires sh.heap[tail.ptr.addr].next == Unlinked
    ensures var last := sh.heap[tail.ptr.addr];
            var sh' := sh.(heap := sh.heap[tail.ptr.addr := last.(next := Tagged(To(n), 1))]);
            && SharedInv(sh', order + [n]) && LocalInv(sh', order + [n], EnqSwing(n, tail))
            && Evolves(sh, order, sh', order + [n], EnqLink(n, tail, Unlinked))
  {
    assert tail.count == |order| - 1;
  }

  lemma SwingTailKeeps(sh: Shared, order: seq<nat>, tail: Tagged, next: Tagged, owner: Local)
    requires SharedInv(sh, order) && Names(order, tail) && tail.count <= sh.tail.count
    requires Successor(order, tail.count, next)
    ensures var sh' := CasTail(sh, tail, Tagged(next.ptr, tail.count + 1));
            SharedInv(sh', order) && Evolves(sh, order, sh', order, owner)
  {
  }

  lemma SwingHeadKeeps(sh: Shared, order: seq<nat>, head: Tagged, next: Tagged, owner: Local)
    requires SharedInv(sh, order) && head == sh.head && head.count < sh.tail.count
    requires Successor(order, head.count, next)
    ensures var sh' := sh.(head := Tagged(next.ptr, head.count + 1), retired := sh.retired + [head.ptr]);
            SharedInv(sh', order) && Evolves(sh, order, sh', order, owner)
  {
  }

  /** What a step of thread `l` promises: the invariants hold again and the others are undisturbed. */
  ghost predicate GoodStep(sh: Shared, order: seq<nat>, l: Local, o: Outcome) {
    var order' := NextOrder(order, l, o.ev);
    && SharedInv(o.sh, order') && LocalInv(o.sh, order', o.local)
    && Evolves(sh, order, o.sh, order', l)
    && !o.ev.Crash?
  }

  lemma SharedFacts(sh: Shared, order: seq<nat>)
    requires SharedInv(sh, order)
    ensures Names(order, sh.head) && Names(order, sh.tail) && sh.head.count <= sh.tail.count
  {
  }

  /** Loading the next of a linked node yields null only at the last position. */
  lemma LoadedNext(sh: Shared, order: seq<nat>, p: Tagged)
    requires SharedInv(sh, order) && Names(order, p)
    ensures Readable(sh, p.ptr)
    ensures var next := sh.heap[p.ptr.addr].next;
            Successor(order, p.count, next) || (next == Unlinked && p.count == |order| - 1)
  {
  }

  lemma SuccessorReadable(sh: Shared, order: seq<nat>, pos: nat, next: Tagged)
    requires SharedInv(sh, order) && Successor(order, pos, next)
    ensures Readable(sh, next.ptr)
  {
  }

  lemma EnqueueLoadKeeps(sh: Shared, order: seq<nat>, l: Local, spurious: bool)
    requires SharedInv(sh, order) && LocalInv(sh, order, l)
    requires l.EnqLoadTail? || l.EnqLoadNext? || l.EnqRecheck?
    ensures GoodStep(sh, order, l, EnqueueStep(sh, l, spurious))
  {
    hide SharedInv;
    SharedFacts(sh, order);
    if l.EnqLoadNext? { LoadedNext(sh, order, l.tail); }
  }

  lemma EnqueueLinkKeeps(sh: Shared, order: seq<nat>, l: Local, spurious: bool)
    requires SharedInv(sh, order) && LocalInv(sh, order, l) && l.EnqLink?
    ensures GoodStep(sh, order, l, EnqueueStep(sh, l, spurious))
  {
    hide SharedInv;
    LoadedNext(sh, order, l.tail);
    if sh.heap[l.tail.ptr.addr].next == l.next && !spurious {
      LinkKeeps(sh, order, l.n, l.tail);
    }
  }

  lemma EnqueueSwingKeeps(sh: Shared, order: seq<nat>, l: Local, spurious: bool)
    requires SharedInv(sh, order) && LocalInv(sh, order, l) && (l.EnqSwing? || l.EnqHelp?)
    ensures GoodStep(sh, order, l, EnqueueStep(sh, l, spurious))
  {
    hide SharedInv;
    SwingTailKeeps(sh, order, l.tail, if l.EnqSwing? then Tagged(To(l.n), 1) else l.next, l);
  }

  lemma DequeueLoadKeeps(sh: Shared, order: seq<nat>, l: Local)
    requires SharedInv(sh, order) && LocalInv(sh, order, l)
    requires !l.DeqHelp? && !l.DeqSwing? && !l.DeqRecheck?
    ensures GoodStep(sh, order, l, DequeueStep(sh, l))
  {
    hide SharedInv;
    SharedFacts(sh, order);
    if l.DeqLoadNext? { LoadedNext(sh, order, l.head); }
    if l.DeqRead? { SuccessorReadable(sh, order, l.head.count, l.next); }
  }

  lemma DequeueRecheckKeeps(sh: Shared, order: seq<nat>, l: Local)
    requires SharedInv(sh, order) && LocalInv(sh, order, l) && l.DeqRecheck?
    ensures GoodStep(sh, order, l, DequeueStep(sh, l))
  {
    hide SharedInv;
    SamePosition(sh, order, l.head, l.tail);
  }

  lemma SamePosition(sh: Shared, order: seq<nat>, p: Tagged, q: Tagged)
    requires SharedInv(sh, order) && Names(order, p) && Names(order, q)
    ensures p.ptr == q.ptr <==> p.count == q.count
  {
  }

  lemma DequeueCasKeeps(sh: Shared, order: seq<nat>, l: Local)
    requires SharedInv(sh, order) && LocalInv(sh, order, l)
    requires l.DeqHelp? || l.DeqSwing?
    ensures GoodStep(sh, order, l, DequeueStep(sh, l))
  {
    hide SharedInv;
    if l.DeqHelp? {
      SwingTailKeeps(sh, order, l.tail, l.next, l);
    } else if sh.head == l.head {
      SwingHeadKeeps(sh, order, l.head, l.next, l);
    }
  }

  lemma LocalStepKeeps(sh: Shared, order: seq<nat>, l: Local, a: Action)
    requires SharedInv(sh, order) && LocalInv(sh, order, l)
    ensures GoodStep(sh, order, l, LocalStep(sh, l, a))
  {
    if l.Idle? {
      if a.StartEnqueue? { AllocateKeeps(sh, order, a.v); }
    } else if a.Go? {
      if l.EnqLoadTail? || l.EnqLoadNext? || l.EnqRecheck? {
        EnqueueLoadKeeps(sh, order, l, a.spurious);
      } else if l.EnqLink? {
        EnqueueLinkKeeps(sh, order, l, a.spurious);
      } else if l.EnqSwing? || l.EnqHelp? {
        EnqueueSwingKeeps(sh, order, l, a.spurious);
      } else if l.DeqHelp? || l.DeqSwing? {
        DequeueCasKeeps(sh, order, l);
      } else if l.DeqRecheck? {
        DequeueRecheckKeeps(sh, order, l);
      } else {
        DequeueLoadKeeps(sh, order, l);
      }
    }
  }

  lemma OthersKeep(sh: Shared, order: seq<nat>, sh': Shared, order': seq<nat>, owner: Local, l: Local)
    requires Evolves(sh, order, sh', order', owner) && LocalInv(sh, order, l)
    requires SharedInv(sh, order)
    requires forall n :: Owns(owner, n) ==> !Owns(l, n)
    ensures LocalInv(sh', order', l)
  {
  }

  lemma {:induction false} StepKeeps(s: State, order: seq<nat>, t: nat, a: Action)
    requires Inv(s, order) && t < |s.threads|
    ensures Inv(Step(s, t, a), NextOrder(order, s.threads[t], EventOf(s, t, a)))
    ensures !EventOf(s, t, a).Crash?
  {
    hide SharedInv, LocalInv, Evolves, Fresh;
    var l := s.threads[t];
    var o := LocalStep(s.sh, l, a);
    var order' := NextOrder(order, l, o.ev);
    LocalStepKeeps(s.sh, order, l, a);
    var s' := Step(s, t, a);
    forall u | 0 <= u < |s'.threads| ensures LocalInv(s'.sh, order', s'.threads[u]) {
      if u != t { OthersKeep(s.sh, order, s'.sh, order', l, s.threads[u]); }
    }
    forall u, w, n | 0 <= u < w < |s'.threads| && Owns(s'.threads[u], n) ensures !Owns(s'.threads[w], n) {
      OwnershipStep(s, order, t, a, n);
    }
  }

  lemma OwnsAllocated(sh: Shared, order: seq<nat>, l: Local, n: nat)
    requires LocalInv(sh, order, l) && Owns(l, n)
    ensures n < |sh.heap|
  {
  }

  lemma LocalOwnership(sh: Shared, l: Local, a: Action, n: nat)
    requires Owns(LocalStep(sh, l, a).local, n)
    ensures Owns(l, n) || n == |sh.heap|
  {
  }

  /** A step gives a thread only the node it already had, or one nobody has heard of. */
  lemma OwnershipStep(s: State, order: seq<nat>, t: nat, a: Action, n: nat)
    requires Inv(s, order) && t < |s.threads|
    ensures Owns(LocalStep(s.sh, s.threads[t], a).local, n) ==>
              Owns(s.threads[t], n) || forall u :: 0 <= u < |s.threads| ==> !Owns(s.threads[u], n)
  {
    hide SharedInv, LocalInv, LocalStep;
    if Owns(LocalStep(s.sh, s.threads[t], a).local, n) && !Owns(s.threads[t], n) {
      LocalOwnership(s.sh, s.threads[t], a, n);
      forall u | 0 <= u < |s.threads| ensures !Owns(s.threads[u], n) {
        if Owns(s.threads[u], n) { OwnsAllocated(s.sh, order, s.threads[u], n); }
      }
    }
  }

  /** Every node linked so far, the dummy first, in the order they were linked. */
  function LinkOrder(threads: nat, sched: seq<Turn>): seq<nat>
    requires ValidSchedule(threads, sched)
    decreases |sched|
  {
    if sched == [] then [0]
    else
      var before := sched[..|sched| - 1];
      var last := sched[|sched| - 1];
      var s := Run(Create(threads), before);
      NextOrder(LinkOrder(threads, before), s.threads[last.t], EventOf(s, last.t, last.a))
  }

  lemma {:induction false} RunKeepsInv(threads: nat, sched: seq<Turn>)
    requires ValidSchedule(threads, sched)
    ensures Inv(Run(Create(threads), sched), LinkOrder(threads, sched))
    decreases |sched|
  {
    if sched != [] {
      var before := sched[..|sched| - 1];
      var last := sched[|sched| - 1];
      RunKeepsInv(threads, before);
      StepKeeps(Run(Create(threads), before), LinkOrder(threads, before), last.t, last.a);
    }
  }

  /** In every reachable state the counts are the absolute positions of head and tail,
      head has not passed tail, tail lags the last node by at most one, no thread has
      followed a null pointer, and the nodes freed so far are exactly those before
      head, each freed once. */
  lemma {:induction false} TagsArePositions(threads: nat, sched: seq<Turn>)
    requires ValidSchedule(threads, sched)
    ensures var s := Run(Create(threads), sched);
            var order := LinkOrder(threads, sched);
            && s.sh.head.count <= s.sh.tail.count < |order| <= s.sh.tail.count + 2
            && s.sh.head.ptr == To(order[s.sh.head.count]) && s.sh.tail.ptr == To(order[s.sh.tail.count])
            && (forall t :: 0 <= t < threads ==> s.threads[t] != Crashed)
            && |s.sh.retired| == s.sh.head.count
            && (forall i :: 0 <= i < s.sh.head.count ==> s.sh.retired[i] == To(order[i]))
            && (forall i, j :: 0 <= i < j < |s.sh.retired| ==> s.sh.retired[i] != s.sh.retired[j])
  {
    hide SharedInv, LocalInv, Run;
    RunKeepsInv(threads, sched);
    var s := Run(Create(threads), sched);
    SharedPositions(s.sh, LinkOrder(threads, sched));
    forall t | 0 <= t < threads ensures s.threads[t] != Crashed {
      NeverCrashed(s.sh, LinkOrder(threads, sched), s.threads[t]);
    }
  }

  /** The tail is one behind the last node linked. */
  predicate Lags(sh: Shared, order: seq<nat>) {
    sh.tail.count + 2 == |order|
  }

  /** Thread `l` has linked the last node and has not tried yet to swing the tail to it. */
  predicate AboutToSwing(sh: Shared, order: seq<nat>, l: Local) {
    order != [] && l == EnqSwing(order[|order| - 1], sh.tail)
  }

  /** A step leaves the tail behind only by linking a node, and never while its own swing is due. */
  predicate LagKept(sh: Shared, order: seq<nat>, l: Local, o: Outcome) {
    var order' := NextOrder(order, l, o.ev);
    Lags(o.sh, order') ==>
      || AboutToSwing(o.sh, order', o.local)
      || (Lags(sh, order) && o.sh.tail == sh.tail && order' == order && !AboutToSwing(sh, order, l))
  }

  /** Only linking a node makes the order longer, and the tail only ever moves on by one. */
  lemma TailMoves(sh: Shared, order: seq<nat>, l: Local, a: Action)
    requires !l.EnqLink?
    ensures var o := LocalStep(sh, l, a);
            && NextOrder(order, l, o.ev) == order
            && (o.sh.tail == sh.tail || o.sh.tail.count == sh.tail.count + 1)
            && (l.EnqSwing? && l.tail == sh.tail ==> o == Outcome(sh, l, Tau) || o.sh.tail != sh.tail)
  {
  }

  lemma LagLinks(sh: Shared, order: seq<nat>, l: Local, a: Action)
    requires SharedInv(sh, order) && LocalInv(sh, order, l) && l.EnqLink?
    ensures LagKept(sh, order, l, LocalStep(sh, l, a))
  {
    LoadedNext(sh, order, l.tail);
  }

  lemma LagStep(sh: Shared, order: seq<nat>, l: Local, a: Action)
    requires SharedInv(sh, order) && LocalInv(sh, order, l)
    ensures LagKept(sh, order, l, LocalStep(sh, l, a))
  {
    hide LocalStep, LocalInv;
    if l.EnqLink? { LagLinks(sh, order, l, a); } else { TailMoves(sh, order, l, a); }
  }

  /** The tail lags only while an enqueue stands between its two compare-and-swaps: in every reachable
      state in which it does, the thread that linked the last node is about to swing it.  So when
      nobody is in the middle of an operation, the tail is the last node. */
  lemma {:induction false} TailLagsOnlyMidEnqueue(threads: nat, sched: seq<Turn>)
    requires ValidSchedule(threads, sched)
    ensures var s, order := Run(Create(threads), sched), LinkOrder(threads, sched);
            && (Lags(s.sh, order) ==> exists t :: 0 <= t < threads && AboutToSwing(s.sh, order, s.threads[t]))
            && ((forall t :: 0 <= t < threads ==> s.threads[t].Idle?) ==> s.sh.tail.count == |order| - 1)
    decreases |sched|
  {
    hide SharedInv, LocalInv, LocalStep;
    TagsArePositions(threads, sched);
    if sched != [] {
      var before, last := sched[..|sched| - 1], sched[|sched| - 1];
      TailLagsOnlyMidEnqueue(threads, before);
      RunKeepsInv(threads, before);
      var s, order := Run(Create(threads), before), LinkOrder(threads, before);
      LagStep(s.sh, order, s.threads[last.t], last.a);
      var s', order' := Run(Create(threads), sched), LinkOrder(threads, sched);
      if Lags(s'.sh, order') && !AboutToSwing(s'.sh, order', s'.threads[last.t]) {
        var t :| 0 <= t < threads && AboutToSwing(s.sh, order, s.threads[t]);
        assert AboutToSwing(s'.sh, order', s'.threads[t]);
      }
    }
  }

  lemma NeverCrashed(sh: Shared, order: seq<nat>, l: Local)
    requires LocalInv(sh, order, l)
    ensures l != Crashed
  {
  }

  lemma SharedPositions(sh: Shared, order: seq<nat>)
    requires SharedInv(sh, order)
    ensures sh.head.count <= sh.tail.count < |order| <= sh.tail.count + 2
    ensures sh.head.ptr == To(order[sh.head.count]) && sh.tail.ptr == To(order[sh.tail.count])
    ensures |sh.retired| == sh.head.count
    ensures forall i :: 0 <= i < sh.head.count ==> sh.retired[i] == To(order[i])
    ensures forall i, j :: 0 <= i < j < |sh.retired| ==> sh.retired[i] != sh.retired[j]
  {
  }

  /** A dequeue that read a null next had loaded the same node as head and tail, so
      the branch that reads a value never follows null. */
  lemma {:induction false} NullNextMeansHeadIsTail(threads: nat, sched: seq<Turn>, t: nat)
    requires ValidSchedule(threads, sched) && t < threads
    ensures var l := Run(Create(threads), sched).threads[t];
            && (l.DeqRecheck? && l.next.ptr.Null? ==> l.head == l.tail)
            && (l.DeqRead? ==> l.next.ptr.To?)
  {
    RunKeepsInv(threads, sched);
  }
}

/**
 Refinement to a sequential FIFO.  The specification is a queue of values and, for
 each thread, how far its current operation has come.
 */
module MsQueueFifo {
  import opened MsQueue
  import opened MsQueueInvariant

  datatype Status = Ready | EnqPending(v: int) | EnqDone(v: int) | DeqPending | DeqSawEmpty

  datatype Spec = Spec(queue: seq<int>, status: seq<Status>)

  /** One step of the sequential queue as thread `t` performs it.  Each operation takes
      effect once, between its call and its return; an empty answer needs an earlier
      look, during the same call, at a queue that was then empty. */
  ghost predicate SpecStep(a: Spec, a': Spec, t: nat, ev: Event) {
    && t < |a.status|
    && |a'.status| == |a.status|
    && a'.status == a.status[t := a'.status[t]]
    && match ev
       case CallEnqueue(v) => a.status[t] == Ready && a'.status[t] == EnqPending(v) && a'.queue == a.queue
       case EnqueueNoMemory => a.status[t] == Ready && a' == a
       case Linked(v) => a.status[t] == EnqPending(v) && a'.status[t] == EnqDone(v) && a'.queue == a.queue + [v]
       case ReturnEnqueue => a.status[t].EnqDone? && a'.status[t] == Ready && a'.queue == a.queue
       case CallDequeue => a.status[t] == Ready && a'.status[t] == DeqPending && a'.queue == a.queue
       case SawNull => a.status[t] == DeqPending && a'.status[t] == DeqSawEmpty && a'.queue == a.queue == []
       case ReturnValue(v) => a.status[t] == DeqPending && a'.status[t] == Ready && a.queue == [v] + a'.queue
       case ReturnEmpty => a.status[t] == DeqSawEmpty && a'.status[t] == Ready && a'.queue == a.queue
       case Retry(_) =>
         && a'.queue == a.queue
         && a'.status[t] == (if a.status[t] == DeqSawEmpty then DeqPending else a.status[t])
       case Tau => a' == a
       case Crash => false
  }

  /** The values behind head, oldest first. */
  ghost function Contents(sh: Shared, order: seq<nat>): (q: seq<int>)
    requires SharedInv(sh, order)
    ensures |q| == |order| - 1 - sh.head.count
  {
    seq(|order| - 1 - sh.head.count,
        i requires 0 <= i < |order| - 1 - sh.head.count => sh.heap[order[sh.head.count + 1 + i]].value)
  }

  function StatusOf(sh: Shared, l: Local): Status {
    match l
    case Idle => Ready
    case EnqSwing(n, _) => if n < |sh.heap| then EnqDone(sh.heap[n].value) else Ready
    case EnqLoadTail(n) => PendingNode(sh, n)
    case EnqLoadNext(n, _) => PendingNode(sh, n)
    case EnqRecheck(n, _, _) => PendingNode(sh, n)
    case EnqLink(n, _, _) => PendingNode(sh, n)
    case EnqHelp(n, _, _) => PendingNode(sh, n)
    case DeqRecheck(_, _, next) => if next.ptr.Null? then DeqSawEmpty else DeqPending
    case _ => DeqPending
  }

  function PendingNode(sh: Shared, n: nat): Status {
    if n < |sh.heap| then EnqPending(sh.heap[n].value) else Ready
  }

  ghost function Abstract(s: State, order: seq<nat>): Spec
    requires SharedInv(s.sh, order)
  {
    Spec(Contents(s.sh, order), seq(|s.threads|, t requires 0 <= t < |s.threads| => StatusOf(s.sh, s.threads[t])))
  }

  /** The queue gains the linked value, loses the returned one, and is otherwise untouched. */
  lemma ContentsStep(sh: Shared, order: seq<nat>, l: Local, a: Action)
    requires SharedInv(sh, order) && LocalInv(sh, order, l)
    requires GoodStep(sh, order, l, LocalStep(sh, l, a))
    ensures var o := LocalStep(sh, l, a);
            var q, q' := Contents(sh, order), Contents(o.sh, NextOrder(order, l, o.ev));
            match o.ev
            case Linked(v) => q' == q + [v]
            case ReturnValue(v) => q == [v] + q'
            case SawNull => q' == q == []
            case _ => q' == q
  {
    hide LocalStep, SharedInv, Contents;
    var o := LocalStep(sh, l, a);
    SharedChanges(sh, l, a);
    if o.ev.Linked? {
      LinkedContents(sh, order, l, o);
    } else if o.ev.ReturnValue? {
      ReturnedContents(sh, order, l, o);
    } else {
      SameContents(sh, order, l, o);
      if o.ev.SawNull? { NothingBehind(sh, order, l.head); }
    }
  }

  lemma ReturnedContents(sh: Shared, order: seq<nat>, l: Local, o: Outcome)
    requires SharedInv(sh, order) && LocalInv(sh, order, l) && SharedInv(o.sh, order)
    requires l.DeqSwing? && l.head == sh.head && o.sh.heap == sh.heap
    requires o.sh.head.count == sh.head.count + 1 && o.ev == ReturnValue(l.val)
    ensures Contents(sh, order) == [l.val] + Contents(o.sh, order)
  {
  }

  lemma SameContents(sh: Shared, order: seq<nat>, l: Local, o: Outcome)
    requires SharedInv(sh, order) && SharedInv(o.sh, order) && Evolves(sh, order, o.sh, order, l)
    requires o.sh.head == sh.head
    ensures Contents(o.sh, order) == Contents(sh, order)
  {
  }

  lemma NothingBehind(sh: Shared, order: seq<nat>, head: Tagged)
    requires SharedInv(sh, order) && Names(order, head) && head.count <= sh.head.count
    requires Readable(sh, head.ptr) && sh.heap[head.ptr.addr].next.ptr.Null?
    ensures Contents(sh, order) == []
  {
    LastIffNull(sh, order, head.count);
  }

  lemma LastIffNull(sh: Shared, order: seq<nat>, pos: nat)
    requires SharedInv(sh, order) && pos < |order|
    ensures sh.heap[order[pos]].next.ptr.Null? <==> pos == |order| - 1
  {
    if pos < |order| - 1 {
      assert sh.heap[order[pos]].next == Tagged(To(order[pos + 1]), 1);
    }
  }

  lemma LinkedContents(sh: Shared, order: seq<nat>, l: Local, o: Outcome)
    requires SharedInv(sh, order) && LocalInv(sh, order, l) && l.EnqLink? && o.ev.Linked?
    requires SharedInv(o.sh, order + [l.n]) && Evolves(sh, order, o.sh, order + [l.n], l)
    requires o.sh.head == sh.head && l.n < |sh.heap| && o.ev.v == sh.heap[l.n].value
    ensures Contents(o.sh, order + [l.n]) == Contents(sh, order) + [o.ev.v]
  {
  }

  lemma SharedChanges(sh: Shared, l: Local, a: Action)
    ensures var o := LocalStep(sh, l, a);
            && (o.ev.Linked? ==> l.EnqLink? && o.sh.head == sh.head && l.n < |sh.heap| && o.ev.v == sh.heap[l.n].value)
            && (o.ev.ReturnValue? ==>
                  l.DeqSwing? && l.head == sh.head && o.sh.heap == sh.heap
                  && o.sh.head.count == sh.head.count + 1 && o.ev.v == l.val)
            && (o.ev.SawNull? ==>
                  l.DeqLoadNext? && Readable(sh, l.head.ptr) && sh.heap[l.head.ptr.addr].next.ptr.Null? && o.sh == sh)
            && (!o.ev.Linked? && !o.ev.ReturnValue? ==> o.sh.head == sh.head)
  {
  }

  /** What the step does to the thread's own operation. */
  lemma StatusStep(sh: Shared, order: seq<nat>, l: Local, a: Action)
    requires LocalInv(sh, order, l)
    requires var o := LocalStep(sh, l, a); LocalInv(o.sh, NextOrder(order, l, o.ev), o.local)
    ensures var o := LocalStep(sh, l, a);
            var c, c' := StatusOf(sh, l), StatusOf(o.sh, o.local);
            match o.ev
            case CallEnqueue(v) => c == Ready && c' == EnqPending(v)
            case EnqueueNoMemory => c == c' == Ready
            case Linked(v) => c == EnqPending(v) && c' == EnqDone(v)
            case ReturnEnqueue => c.EnqDone? && c' == Ready
            case CallDequeue => c == Ready && c' == DeqPending
            case SawNull => c == DeqPending && c' == DeqSawEmpty
            case ReturnValue(v) => c == DeqPending && c' == Ready
            case ReturnEmpty => c == DeqSawEmpty && c' == Ready
            case Crash => l == Crashed
            case Retry(_) => c' == if c == DeqSawEmpty then DeqPending else c
            case Tau => c' == c
  {
  }

  lemma OtherStatusKept(sh: Shared, order: seq<nat>, sh': Shared, order': seq<nat>, owner: Local, l: Local)
    requires LocalInv(sh, order, l) && Evolves(sh, order, sh', order', owner)
    ensures StatusOf(sh', l) == StatusOf(sh, l)
  {
  }

  /** Every atomic step of every thread is a step of the sequential queue. */
  lemma {:induction false} StepRefines(s: State, order: seq<nat>, t: nat, a: Action)
    requires Inv(s, order) && t < |s.threads|
    ensures var ev := EventOf(s, t, a);
            var order' := NextOrder(order, s.threads[t], ev);
            && Inv(Step(s, t, a), order')
            && SpecStep(Abstract(s, order), Abstract(Step(s, t, a), order'), t, ev)
  {
    hide SharedInv, LocalInv, Evolves, Contents;
    var l := s.threads[t];
    LocalStepKeeps(s.sh, order, l, a);
    ContentsStep(s.sh, order, l, a);
    StatusStep(s.sh, order, l, a);
    StepKeeps(s, order, t, a);
    var o := LocalStep(s.sh, l, a);
    var order' := NextOrder(order, l, o.ev);
    forall u | 0 <= u < |s.threads| && u != t ensures StatusOf(o.sh, s.threads[u]) == StatusOf(s.sh, s.threads[u]) {
      OtherStatusKept(s.sh, order, o.sh, order', l, s.threads[u]);
    }
    var abs, abs' := Abstract(s, order), Abstract(Step(s, t, a), order');
    assert abs'.status == abs.status[t := abs'.status[t]];
  }

  datatype Entry = Entry(t: nat, ev: Event)

  /** What an observer sees of a run. */
  function Trace(threads: nat, sched: seq<Turn>): (tr: seq<Entry>)
    requires ValidSchedule(threads, sched)
    ensures |tr| == |sched|
    decreases |sched|
  {
    if sched == [] then []
    else
      var before := sched[..|sched| - 1];
      var last := sched[|sched| - 1];
      Trace(threads, before) + [Entry(last.t, EventOf(Run(Create(threads), before), last.t, last.a))]
  }

  /** `states` is a run of the sequential queue that shows the observer `tr`. */
  ghost predicate SpecRun(states: seq<Spec>, tr: seq<Entry>) {
    && |states| == |tr| + 1
    && forall i :: 0 <= i < |tr| ==> SpecStep(states[i], states[i + 1], tr[i].t, tr[i].ev)
  }

  ghost function SpecStates(threads: nat, sched: seq<Turn>): (states: seq<Spec>)
    requires ValidSchedule(threads, sched)
    ensures |states| == |sched| + 1
    decreases |sched|
  {
    RunKeepsInv(threads, sched);
    var now := Abstract(Run(Create(threads), sched), LinkOrder(threads, sched));
    if sched == [] then [now] else SpecStates(threads, sched[..|sched| - 1]) + [now]
  }

  /** Every run of the lock-free queue, by any number of threads, is a run of the
      sequential queue from empty and shows the observer the same events. */
  lemma {:induction false} RunRefinesFifo(threads: nat, sched: seq<Turn>)
    requires ValidSchedule(threads, sched)
    ensures SpecRun(SpecStates(threads, sched), Trace(threads, sched))
    ensures SpecStates(threads, sched)[0] == Spec([], seq(threads, _ => Ready))
    decreases |sched|
  {
    RunKeepsInv(threads, sched);
    if sched != [] {
      var before := sched[..|sched| - 1];
      var last := sched[|sched| - 1];
      RunRefinesFifo(threads, before);
      RunKeepsInv(threads, before);
      StepRefines(Run(Create(threads), before), LinkOrder(threads, before), last.t, last.a);
      LastSpecState(threads, before);
    }
  }

  lemma {:induction false} LastSpecState(threads: nat, sched: seq<Turn>)
    requires ValidSchedule(threads, sched)
    ensures SharedInv(Run(Create(threads), sched).sh, LinkOrder(threads, sched))
    ensures SpecStates(threads, sched)[|sched|] == Abstract(Run(Create(threads), sched), LinkOrder(threads, sched))
  {
    RunKeepsInv(threads, sched);
  }
}

/**
 Linearizability.  From what an observer saw we write down one sequential history:
 an enqueue at its link, a successful dequeue at its head swing, an empty answer at
 the last look at a null next before it.
 */
module Linearizability {
  import opened Wrappers
  import opened MsQueue
  import opened MsQueueFifo

  datatype Op = Enqueued(v: int) | Dequeued(v: int) | FoundEmpty

  datatype LinOp = LinOp(t: nat, op: Op)

  /** Does the call in which `t` just saw null go on to answer "empty"?  Only a retry
      can take the observation back. */
  function ConfirmsEmpty(t: nat, rest: seq<Entry>): bool {
    if rest == [] then false
    else if rest[0].t == t && !rest[0].ev.Tau? then rest[0].ev.ReturnEmpty?
    else ConfirmsEmpty(t, rest[1..])
  }

  function EffectOf(e: Entry, rest: seq<Entry>): seq<LinOp> {
    match e.ev
    case Linked(v) => [LinOp(e.t, Enqueued(v))]
    case ReturnValue(v) => [LinOp(e.t, Dequeued(v))]
    case SawNull => if ConfirmsEmpty(e.t, rest) then [LinOp(e.t, FoundEmpty)] else []
    case _ => []
  }

  function Linearize(tr: seq<Entry>): seq<LinOp> {
    if tr == [] then [] else EffectOf(tr[0], tr[1..]) + Linearize(tr[1..])
  }

  /** What a sequential queue makes of a history: None when it could not have answered so. */
  function Replay(q: seq<int>, ops: seq<LinOp>): Option<seq<int>>
    decreases ops
  {
    if ops == [] then Some(q)
    else
      match ops[0].op
      case Enqueued(v) => Replay(q + [v], ops[1..])
      case Dequeued(v) => if q != [] && q[0] == v then Replay(q[1..], ops[1..]) else None
      case FoundEmpty => if q == [] then Replay(q, ops[1..]) else None
  }

  lemma {:induction false} LinearizationIsLegal(states: seq<Spec>, tr: seq<Entry>)
    requires SpecRun(states, tr)
    ensures Replay(states[0].queue, Linearize(tr)) == Some(states[|tr|].queue)
    decreases |tr|
  {
    if tr != [] {
      TailOfRun(states, tr);
      LinearizationIsLegal(states[1..], tr[1..]);
      var now := EffectOf(tr[0], tr[1..]);
      if now != [] { assert (now + Linearize(tr[1..]))[1..] == Linearize(tr[1..]); }
      else { assert now + Linearize(tr[1..]) == Linearize(tr[1..]); }
    }
  }

  /** The operation of `t` that returns with this entry, given the argument of its call. */
  function Returned(e: Entry, t: nat, arg: int): seq<Op> {
    if e.t != t then []
    else
      match e.ev
      case ReturnEnqueue => [Enqueued(arg)]
      case ReturnValue(v) => [Dequeued(v)]
      case ReturnEmpty => [FoundEmpty]
      case _ => []
  }

  function ArgAfter(e: Entry, t: nat, arg: int): int {
    if e.t == t && e.ev.CallEnqueue? then e.ev.v else arg
  }

  /** The operations thread `t` completed, with their arguments and answers, in its own order. */
  function Completed(tr: seq<Entry>, t: nat, arg: int): seq<Op> {
    if tr == [] then [] else Returned(tr[0], t, arg) + Completed(tr[1..], t, ArgAfter(tr[0], t, arg))
  }

  function OpsOf(lin: seq<LinOp>, t: nat): seq<Op> {
    if lin == [] then []
    else (if lin[0].t == t then [lin[0].op] else []) + OpsOf(lin[1..], t)
  }

  /** An operation that took effect but has not returned. */
  function InFlight(c: Status, t: nat, rest: seq<Entry>): seq<Op> {
    match c
    case EnqDone(v) => [Enqueued(v)]
    case DeqSawEmpty => if ConfirmsEmpty(t, rest) then [FoundEmpty] else []
    case _ => []
  }

  predicate ArgFits(c: Status, arg: int) {
    match c
    case EnqPending(v) => v == arg
    case EnqDone(v) => v == arg
    case _ => true
  }

  lemma {:induction false} OpsOfConcat(a: seq<LinOp>, b: seq<LinOp>, t: nat)
    requires |a| <= 1
    ensures OpsOf(a + b, t) == OpsOf(a, t) + OpsOf(b, t)
  {
    if a == [] { assert a + b == b; } else { assert (a + b)[1..] == b; }
  }

  lemma AgreesStep(a: Spec, a': Spec, e: Entry, rest: seq<Entry>, t: nat, arg: int)
    requires SpecStep(a, a', e.t, e.ev) && t < |a.status| && ArgFits(a.status[t], arg)
    ensures ArgFits(a'.status[t], ArgAfter(e, t, arg))
    ensures InFlight(a.status[t], t, [e] + rest) + OpsOf(EffectOf(e, rest), t)
         == Returned(e, t, arg) + InFlight(a'.status[t], t, rest)
  {
    assert ([e] + rest)[1..] == rest;
    if e.t != t {
      hide SpecStep;
      assert a'.status[t] == a.status[t] by { StatusOfOthers(a, a', e, t); }
      OthersConfirm(t, e, rest);
    }
  }

  lemma StatusOfOthers(a: Spec, a': Spec, e: Entry, t: nat)
    requires SpecStep(a, a', e.t, e.ev) && t < |a.status| && t != e.t
    ensures |a'.status| == |a.status| && a'.status[t] == a.status[t]
  {
    assert a'.status == a.status[e.t := a'.status[e.t]];
  }

  lemma OthersConfirm(t: nat, e: Entry, rest: seq<Entry>)
    requires e.t != t
    ensures ConfirmsEmpty(t, [e] + rest) == ConfirmsEmpty(t, rest)
  {
    assert ([e] + rest)[1..] == rest;
  }

  lemma TailOfRun(states: seq<Spec>, tr: seq<Entry>)
    requires SpecRun(states, tr) && tr != []
    ensures SpecRun(states[1..], tr[1..]) && SpecStep(states[0], states[1], tr[0].t, tr[0].ev)
  {
    forall i | 0 <= i < |tr| - 1 ensures SpecStep(states[1..][i], states[1..][i + 1], tr[1..][i].t, tr[1..][i].ev) {
      assert SpecStep(states[i + 1], states[i + 2], tr[i + 1].t, tr[i + 1].ev);
    }
  }

  lemma {:induction false} LinearizationAgreesFrom(states: seq<Spec>, tr: seq<Entry>, t: nat, arg: int)
    requires SpecRun(states, tr) && t < |states[0].status| && ArgFits(states[0].status[t], arg)
    ensures |states[|tr|].status| == |states[0].status|
    ensures InFlight(states[0].status[t], t, tr) + OpsOf(Linearize(tr), t)
         == Completed(tr, t, arg) + InFlight(states[|tr|].status[t], t, [])
    decreases |tr|
  {
    if tr != [] {
      hide SpecRun, SpecStep, InFlight, EffectOf, Returned, ArgFits;
      var e, rest := tr[0], tr[1..];
      TailOfRun(states, tr);
      StatusLength(states[0], states[1], e);
      AgreesStep(states[0], states[1], e, rest, t, arg);
      LinearizationAgreesFrom(states[1..], rest, t, ArgAfter(e, t, arg));
      OpsOfConcat(EffectOf(e, rest), Linearize(rest), t);
      assert [e] + rest == tr;
      Regroup(InFlight(states[0].status[t], t, tr), OpsOf(EffectOf(e, rest), t), OpsOf(Linearize(rest), t),
              Returned(e, t, arg), InFlight(states[1].status[t], t, rest),
              Completed(rest, t, ArgAfter(e, t, arg)), InFlight(states[|tr|].status[t], t, []));
    }
  }

  lemma Regroup(before: seq<Op>, effect: seq<Op>, lin: seq<Op>, ret: seq<Op>, after: seq<Op>,
                completed: seq<Op>, end: seq<Op>)
    requires before + effect == ret + after && after + lin == completed + end
    ensures before + (effect + lin) == (ret + completed) + end
  {
    assert before + (effect + lin) == (before + effect) + lin;
    assert (ret + after) + lin == ret + (after + lin);
    assert ret + (completed + end) == (ret + completed) + end;
  }

  lemma StatusLength(a: Spec, a': Spec, e: Entry)
    requires SpecStep(a, a', e.t, e.ev)
    ensures |a'.status| == |a.status|
  {
  }

  /** The part of the linearization that took effect before instant `k`. */
  function EffectsBefore(tr: seq<Entry>, k: nat): seq<LinOp>
    requires k <= |tr|
  {
    if k == 0 then [] else EffectsBefore(tr, k - 1) + EffectOf(tr[k - 1], tr[k..])
  }

  function CallsBefore(tr: seq<Entry>, k: nat, t: nat): nat
    requires k <= |tr|
  {
    if k == 0 then 0
    else
      CallsBefore(tr, k - 1, t)
      + if tr[k - 1].t == t && (tr[k - 1].ev.CallEnqueue? || tr[k - 1].ev.CallDequeue?) then 1 else 0
  }

  function ReturnsBefore(tr: seq<Entry>, k: nat, t: nat): nat
    requires k <= |tr|
  {
    if k == 0 then 0
    else
      ReturnsBefore(tr, k - 1, t)
      + if tr[k - 1].t == t && (tr[k - 1].ev.ReturnEnqueue? || tr[k - 1].ev.ReturnValue? || tr[k - 1].ev.ReturnEmpty?)
        then 1 else 0
  }

  lemma {:induction false} EffectsSplit(tr: seq<Entry>, k: nat)
    requires k <= |tr|
    ensures Linearize(tr) == EffectsBefore(tr, k) + Linearize(tr[k..])
  {
    if k == 0 {
      assert tr[0..] == tr;
    } else {
      EffectsSplit(tr, k - 1);
      assert tr[k - 1..][1..] == tr[k..];
    }
  }

  lemma {:induction false} OpsOfSnoc(a: seq<LinOp>, b: seq<LinOp>, t: nat)
    requires |b| <= 1
    ensures OpsOf(a + b, t) == OpsOf(a, t) + OpsOf(b, t)
    decreases |a|
  {
    if a == [] {
      assert a + b == b;
    } else {
      OpsOfFirst(a, t);
      OpsOfFirst(a + b, t);
      OpsOfSnoc(a[1..], b, t);
      hide OpsOf;
      assert (a + b)[1..] == a[1..] + b;
      var own, rest := if a[0].t == t then [a[0].op] else [], OpsOf(a[1..], t);
      assert own + (rest + OpsOf(b, t)) == (own + rest) + OpsOf(b, t);
    }
  }

  lemma OpsOfFirst(lin: seq<LinOp>, t: nat)
    requires lin != []
    ensures OpsOf(lin, t) == (if lin[0].t == t then [lin[0].op] else []) + OpsOf(lin[1..], t)
  {
  }

  lemma {:induction false} CountsAt(states: seq<Spec>, tr: seq<Entry>, t: nat, k: nat)
    requires SpecRun(states, tr) && t < |states[0].status| && states[0].status[t] == Ready && k <= |tr|
    ensures |states[k].status| == |states[0].status|
    ensures |OpsOf(EffectsBefore(tr, k), t)| == ReturnsBefore(tr, k, t) + |InFlight(states[k].status[t], t, tr[k..])|
    ensures CallsBefore(tr, k, t) == ReturnsBefore(tr, k, t) + if states[k].status[t] == Ready then 0 else 1
  {
    hide EffectOf, OpsOf, SpecStep, SpecRun;
    if k == 0 {
      NoOps(t);
    } else {
      hide InFlight;
      CountsAt(states, tr, t, k - 1);
      StepOfRun(states, tr, k - 1);
      CountsStep(states[k - 1], states[k], tr[k - 1], tr[k..], t);
      BusyStep(states[k - 1], states[k], tr[k - 1], t);
      assert [tr[k - 1]] + tr[k..] == tr[k - 1..];
      OpsOfSnoc(EffectsBefore(tr, k - 1), EffectOf(tr[k - 1], tr[k..]), t);
    }
  }

  lemma NoOps(t: nat)
    ensures OpsOf([], t) == []
  {
  }

  lemma StepOfRun(states: seq<Spec>, tr: seq<Entry>, k: nat)
    requires SpecRun(states, tr) && k < |tr|
    ensures |states| == |tr| + 1 && SpecStep(states[k], states[k + 1], tr[k].t, tr[k].ev)
  {
  }

  /** A thread leaves rest with a call and returns to it with a return. */
  lemma BusyStep(a: Spec, a': Spec, e: Entry, t: nat)
    requires SpecStep(a, a', e.t, e.ev) && t < |a.status|
    ensures |a'.status| == |a.status|
    ensures (if e.t == t && (e.ev.CallEnqueue? || e.ev.CallDequeue?) then 1 else 0)
          + (if a.status[t] == Ready then 0 else 1)
         == (if e.t == t && (e.ev.ReturnEnqueue? || e.ev.ReturnValue? || e.ev.ReturnEmpty?) then 1 else 0)
          + (if a'.status[t] == Ready then 0 else 1)
  {
  }

  lemma CountsStep(a: Spec, a': Spec, e: Entry, rest: seq<Entry>, t: nat)
    requires SpecStep(a, a', e.t, e.ev) && t < |a.status|
    ensures |EffectOf(e, rest)| <= 1
    ensures |OpsOf(EffectOf(e, rest), t)| + |InFlight(a.status[t], t, [e] + rest)|
         == |InFlight(a'.status[t], t, rest)|
          + if e.t == t && (e.ev.ReturnEnqueue? || e.ev.ReturnValue? || e.ev.ReturnEmpty?) then 1 else 0
  {
    assert ([e] + rest)[1..] == rest;
  }

  /** Real-time order: cut the run anywhere.  The part of the sequential history before
      the cut holds every operation that has returned and none that has not been called. */
  predicate CutKeepsOrder(tr: seq<Entry>, t: nat, k: nat)
    requires k <= |tr|
  {
    && Linearize(tr) == EffectsBefore(tr, k) + Linearize(tr[k..])
    && ReturnsBefore(tr, k, t) <= |OpsOf(EffectsBefore(tr, k), t)| <= CallsBefore(tr, k, t)
  }

  lemma LinearizationKeepsRealTime(states: seq<Spec>, tr: seq<Entry>, t: nat, k: nat)
    requires SpecRun(states, tr) && t < |states[0].status| && states[0].status[t] == Ready && k <= |tr|
    ensures CutKeepsOrder(tr, t, k) && CallsBefore(tr, k, t) <= ReturnsBefore(tr, k, t) + 1
  {
    EffectsSplit(tr, k);
    CountsAt(states, tr, t, k);
  }

  /** The queue is linearizable: whatever the threads and the scheduler do, what they saw
      has one sequential history.  A sequential FIFO answers every operation in it as the
      lock-free queue did and ends with the values behind head; each thread's part of it is
      what that thread completed, in order, plus at most one linked but unreturned enqueue;
      and it keeps the order of operations that do not overlap. */
  lemma {:induction false} QueueIsLinearizable(threads: nat, sched: seq<Turn>)
    requires ValidSchedule(threads, sched)
    ensures var tr := Trace(threads, sched);
            var states := SpecStates(threads, sched);
            && Replay([], Linearize(tr)) == Some(states[|tr|].queue)
            && |states[|tr|].status| == threads
            && (forall t :: 0 <= t < threads ==>
                  OpsOf(Linearize(tr), t) == Completed(tr, t, 0) + InFlight(states[|tr|].status[t], t, []))
            && (forall t, k :: 0 <= t < threads && 0 <= k <= |tr| ==> CutKeepsOrder(tr, t, k))
  {
    var tr := Trace(threads, sched);
    var states := SpecStates(threads, sched);
    RunRefinesFifo(threads, sched);
    LinearizationIsLegal(states, tr);
    forall t | 0 <= t < threads
      ensures OpsOf(Linearize(tr), t) == Completed(tr, t, 0) + InFlight(states[|tr|].status[t], t, [])
    {
      LinearizationAgreesFrom(states, tr, t, 0);
    }
    LastSpecState(threads, sched);
    forall t, k | 0 <= t < threads && 0 <= k <= |tr| ensures CutKeepsOrder(tr, t, k)
    {
      LinearizationKeepsRealTime(states, tr, t, k);
    }
  }

  function LinkedValues(tr: seq<Entry>): seq<int> {
    if tr == [] then []
    else LinkedValues(tr[..|tr| - 1]) + if tr[|tr| - 1].ev.Linked? then [tr[|tr| - 1].ev.v] else []
  }

  function ReturnedValues(tr: seq<Entry>): seq<int> {
    if tr == [] then []
    else ReturnedValues(tr[..|tr| - 1]) + if tr[|tr| - 1].ev.ReturnValue? then [tr[|tr| - 1].ev.v] else []
  }

  lemma {:induction false} ValuesOfRun(states: seq<Spec>, tr: seq<Entry>)
    requires SpecRun(states, tr) && states[0].queue == []
    ensures LinkedValues(tr) == ReturnedValues(tr) + states[|tr|].queue
    decreases |tr|
  {
    hide SpecStep;
    if tr != [] {
      var n := |tr| - 1;
      FrontOfRun(states, tr);
      ValuesOfRun(states[..|tr|], tr[..n]);
      ValuesStep(LinkedValues(tr[..n]), ReturnedValues(tr[..n]), states[n], states[n + 1], tr[n].t, tr[n].ev);
    }
  }

  lemma FrontOfRun(states: seq<Spec>, tr: seq<Entry>)
    requires SpecRun(states, tr) && tr != []
    ensures var n := |tr| - 1;
            && SpecRun(states[..|tr|], tr[..n])
            && SpecStep(states[n], states[n + 1], tr[n].t, tr[n].ev)
  {
    hide SpecStep;
    var n := |tr| - 1;
    forall i | 0 <= i < n
      ensures SpecStep(states[..|tr|][i], states[..|tr|][i + 1], tr[..n][i].t, tr[..n][i].ev)
    {
      assert SpecStep(states[i], states[i + 1], tr[i].t, tr[i].ev);
    }
  }

  lemma ValuesStep(linked: seq<int>, returned: seq<int>, a: Spec, a': Spec, t: nat, ev: Event)
    requires SpecStep(a, a', t, ev) && linked == returned + a.queue
    ensures linked + (if ev.Linked? then [ev.v] else [])
         == (returned + if ev.ReturnValue? then [ev.v] else []) + a'.queue
  {
    if ev.ReturnValue? {
      assert returned + ([ev.v] + a'.queue) == (returned + [ev.v]) + a'.queue;
    } else if ev.Linked? {
      assert (returned + a.queue) + [ev.v] == returned + (a.queue + [ev.v]);
    }
  }

  /** Nothing is lost, duplicated or reordered: the values linked, in link order, are the
      values returned, in the order they were taken, followed by what is still queued. */
  lemma NothingLostOrReordered(threads: nat, sched: seq<Turn>)
    requires ValidSchedule(threads, sched)
    ensures var tr := Trace(threads, sched);
            LinkedValues(tr) == ReturnedValues(tr) + SpecStates(threads, sched)[|tr|].queue
  {
    RunRefinesFifo(threads, sched);
    ValuesOfRun(SpecStates(threads, sched), Trace(threads, sched));
  }
}
