/**
 The RCU table on weak memory: any number of registered readers and one updater thread,
 unboundedly many sections and updates, each thread with the store buffer of the
 handshake checker and its load, store and commit rules.
 */
module WeakRcu {
  import opened Handshake
  import Rcu

  /** `mem` is the reader's counter in memory, `counter` the private copy it stores from. */
  datatype BufferedReader = BufferedReader(mem: nat, buf: seq<Entry>, counter: nat, inside: bool, held: Rcu.Held)

  datatype Waited = Waited(slot: nat, counter: int)

  datatype Updater =
    | Resting
    | Publishing(prev: nat)
    | Locking(prev: nat)
    | Scanning(prev: nat, i: nat, waiting: seq<Waited>)
    | Waiting(prev: nat, j: nat, waiting: seq<Waited>)
    | Freeing(prev: nat)
    | Counting

  datatype WState = WState(
    readers: seq<BufferedReader>,
    versions: seq<Rcu.Version>, memCur: int, bufW: seq<Entry>, latest: nat,
    retired: seq<nat>, freed: nat,
    upd: Updater, usedFreed: bool)

  function WStart(n: nat): WState {
    WState(seq(n, _ => BufferedReader(0, [], 0, false, Rcu.Nothing)), [Rcu.Filled(0)], 0, [], 0, [], 0, Resting, false)
  }

  datatype WAction =
    | ReadLock(r: nat)
    | Dereference(r: nat)
    | ReadValue(r: nat, key: nat)
    | CheckGen(r: nat)
    | ReadUnlock(r: nat)
    | CommitReader(r: nat, i: nat)
    | BeginUpdate
    | Publish
    | LockRegistry
    | ScanSlot
    | EndScan
    | WaitSlot
    | EndWait
    | FreeOld
    | EndUpdate
    | CommitUpdater(i: nat)

  /** A store that goes straight to memory. */
  predicate Direct(m: Model, o: Order) {
    m.Sequential? || (m.Tso? && o.SeqCst?)
  }

  function Issued(m: Model, o: Order, b: seq<Entry>, v: Var, val: int): seq<Entry> {
    if Direct(m, o) then b else b + [Entry(v, val, m.Arm? && !o.Relaxed?)]
  }

  /** What a thread with buffer `b` loads. */
  function Loaded(m: Model, b: seq<Entry>, v: Var, mem: int): int {
    if m.Sequential? then mem else ReadFrom(b, v, mem)
  }

  predicate ByReader(a: WAction) {
    a.ReadLock? || a.Dereference? || a.ReadValue? || a.CheckGen? || a.ReadUnlock? || a.CommitReader?
  }

  predicate WReaderEnabled(m: Model, o: Orders, k: BufferedReader, a: WAction) {
    match a
    case ReadLock(_) => !k.inside && StoreEnabled(m, o.announce, k.buf)
    case Dereference(_) => k.inside && LoadEnabled(m, o.deref, k.buf)
    case ReadValue(_, key) => k.inside && k.held.Pointer? && key < Rcu.TABLE_KEYS
    case CheckGen(_) => k.inside && k.held.Value?
    case ReadUnlock(_) => k.inside && StoreEnabled(m, o.exit, k.buf)
    case CommitReader(_, i) => i < |k.buf| && FlushEnabled(m, k.buf, i) && k.buf[i].val >= 0
    case _ => false
  }

  predicate WEnabled(m: Model, o: Orders, w: WState, a: WAction) {
    match a
    case BeginUpdate => w.upd.Resting?
    case Publish => w.upd.Publishing? && StoreEnabled(m, o.publish, w.bufW)
    case LockRegistry => w.upd.Locking?
    case ScanSlot => w.upd.Scanning? && w.upd.i < |w.readers| && LoadEnabled(m, o.scan, w.bufW)
    case EndScan => w.upd.Scanning? && w.upd.i >= |w.readers|
    case WaitSlot =>
      w.upd.Waiting? && w.upd.j < |w.upd.waiting| && w.upd.waiting[w.upd.j].slot < |w.readers|
      && LoadEnabled(m, o.scan, w.bufW)
    case EndWait => w.upd.Waiting? && w.upd.j >= |w.upd.waiting|
    case FreeOld => w.upd.Freeing?
    case EndUpdate => w.upd.Counting?
    case CommitUpdater(i) => i < |w.bufW| && FlushEnabled(m, w.bufW, i)
    case _ => a.r < |w.readers| && WReaderEnabled(m, o, w.readers[a.r], a)
  }

  predicate WLive(w: WState, v: nat) {
    v < |w.versions| && v !in w.retired
  }

  function WLoad(w: WState, v: nat, key: nat): int {
    if WLive(w, v) && key < |w.versions[v].val| then w.versions[v].val[key] else 0
  }

  function WLoadGen(w: WState, v: nat): int {
    if WLive(w, v) then w.versions[v].gen else 0
  }

  function WReaderStep(m: Model, o: Orders, w: WState, k: BufferedReader, a: WAction): BufferedReader
    requires WReaderEnabled(m, o, k, a)
  {
    match a
    case ReadLock(_) =>
      var next := k.counter + 1;
      k.(counter := next, inside := true, held := Rcu.Nothing,
         mem := if Direct(m, o.announce) then next else k.mem,
         buf := Issued(m, o.announce, k.buf, Seq, next))
    case Dereference(_) =>
      var v := Loaded(m, k.buf, Head, w.memCur);
      k.(held := if v >= 0 then Rcu.Pointer(v) else Rcu.Nothing)
    case ReadValue(_, key) => k.(held := Rcu.Value(k.held.v, key, WLoad(w, k.held.v, key)))
    case CheckGen(_) =>
      var h := k.held;
      k.(held := Rcu.Checked(h.v, h.key, h.x, h.x == WLoadGen(w, h.v) * Rcu.TABLE_KEYS + h.key))
    case ReadUnlock(_) =>
      var next := k.counter + 1;
      k.(counter := next, inside := false, held := Rcu.Nothing,
         mem := if Direct(m, o.exit) then next else k.mem,
         buf := Issued(m, o.exit, k.buf, Seq, next))
    case CommitReader(_, i) => k.(mem := k.buf[i].val, buf := k.buf[..i] + k.buf[i + 1..])
  }

  predicate TouchesFreed(w: WState, a: WAction) {
    (a.ReadValue? || a.CheckGen?) && a.r < |w.readers|
    && (w.readers[a.r].held.Pointer? || w.readers[a.r].held.Value?) && !WLive(w, w.readers[a.r].held.v)
  }

  function WUpdaterStep(m: Model, o: Orders, w: WState, a: WAction): WState
    requires WEnabled(m, o, w, a) && !ByReader(a)
  {
    match a
    case BeginUpdate =>
      if w.latest < |w.versions|
      then w.(versions := w.versions + [Rcu.Filled(w.versions[w.latest].gen + 1)], upd := Publishing(w.latest))
      else w
    case Publish =>
      if |w.versions| > 0
      then
        var nv := |w.versions| - 1;
        w.(memCur := if Direct(m, o.publish) then nv else w.memCur,
           bufW := Issued(m, o.publish, w.bufW, Head, nv), latest := nv, upd := Locking(w.upd.prev))
      else w
    case LockRegistry => w.(upd := Scanning(w.upd.prev, 0, []))
    case ScanSlot =>
      var c := Loaded(m, w.bufW, Seq, w.readers[w.upd.i].mem);
      w.(upd := w.upd.(i := w.upd.i + 1,
                       waiting := if c % 2 == 1 then w.upd.waiting + [Waited(w.upd.i, c)] else w.upd.waiting))
    case EndScan => w.(upd := Waiting(w.upd.prev, 0, w.upd.waiting))
    case WaitSlot =>
      var e := w.upd.waiting[w.upd.j];
      if Loaded(m, w.bufW, Seq, w.readers[e.slot].mem) == e.counter then w else w.(upd := w.upd.(j := w.upd.j + 1))
    case EndWait => w.(upd := Freeing(w.upd.prev))
    case FreeOld => w.(retired := w.retired + [w.upd.prev], upd := Counting)
    case EndUpdate => w.(freed := w.freed + 1, upd := Resting)
    case CommitUpdater(i) => w.(memCur := w.bufW[i].val, bufW := w.bufW[..i] + w.bufW[i + 1..])
  }

  function WStep(m: Model, o: Orders, w: WState, a: WAction): WState
    requires WEnabled(m, o, w, a)
  {
    if ByReader(a)
    then w.(readers := w.readers[a.r := WReaderStep(m, o, w, w.readers[a.r], a)],
            usedFreed := w.usedFreed || TouchesFreed(w, a))
    else WUpdaterStep(m, o, w, a)
  }

  predicate WRuns(m: Model, o: Orders, w: WState, run: seq<WAction>)
    decreases |run|, 0
  {
    run == [] ||
    (WRuns(m, o, w, run[..|run| - 1]) && WEnabled(m, o, WAfter(m, o, w, run[..|run| - 1]), run[|run| - 1]))
  }

  function WAfter(m: Model, o: Orders, w: WState, run: seq<WAction>): WState
    requires WRuns(m, o, w, run)
    decreases |run|, 1
  {
    if run == [] then w else WStep(m, o, WAfter(m, o, w, run[..|run| - 1]), run[|run| - 1])
  }

  /** The orderings the program was submitted with. */
  const CHOSEN := Orders(SeqCst, SeqCst, Release, SeqCst, SeqCst)
}

/**
 Forward simulation onto the sequential machine: a buffered store takes effect when it
 commits, everything else when it happens.
 */
module WeakRcuSimulation {
  import opened Handshake
  import opened WeakRcu
  import Rcu
  import RcuInvariant
  import RcuTheorems

  /** A reader's buffer holds its next counters, in order; and with safe orderings a reader
      that holds a version has its announcement in memory. */
  ghost predicate ReaderInv(m: Model, k: BufferedReader) {
    && k.counter == k.mem + |k.buf|
    && (forall i :: 0 <= i < |k.buf| ==> k.buf[i].v == Seq && k.buf[i].val == k.mem + i + 1)
    && (k.inside <==> k.counter % 2 == 1)
    && (!k.held.Nothing? ==> k.inside && k.buf == [])
    && (m.Sequential? ==> k.buf == [])
    && (m.Tso? && k.inside ==> k.buf == [])
    && (m.Arm? ==> forall i :: 0 <= i < |k.buf| && k.buf[i].val % 2 == 1 ==> k.buf[i].stlr)
  }

  /** The slot of the sequential machine behind a reader. */
  ghost predicate SlotRel(slot: Rcu.Slot, k: BufferedReader) {
    && slot.inUse && slot.counter == k.mem
    && (if k.mem % 2 == 0 then slot.stage == Rcu.Outside
        else slot.stage.Inside? && (k.buf == [] ==> slot.stage.held == k.held))
  }

  predicate SameWaiting(a: seq<Rcu.Snapshot>, b: seq<Waited>) {
    |a| == |b| && forall k :: 0 <= k < |a| ==> a[k].slot == b[k].slot && a[k].counter == b[k].counter
  }

  predicate UpdaterRel(u: Rcu.Updater, x: Updater) {
    match x
    case Resting => u.Resting?
    case Publishing(prev) => u == Rcu.Publishing(prev)
    case Locking(prev) => u.Locking? && u.prev == prev
    case Scanning(prev, i, waiting) => u.Scanning? && u.prev == prev && u.i == i && SameWaiting(u.waiting, waiting)
    case Waiting(prev, j, waiting) => u.Waiting? && u.prev == prev && u.j == j && SameWaiting(u.waiting, waiting)
    case Freeing(prev) => u.Freeing? && u.prev == prev
    case Counting => u.Counting?
  }

  /** While the publication sits in the buffer the sequential updater has not published yet. */
  predicate PublicationPending(m: Model, s: Rcu.State, w: WState) {
    && m.Arm? && |w.versions| > 0
    && w.bufW == [Entry(Head, |w.versions| - 1, true)]
    && w.latest == |w.versions| - 1
    && (w.upd.Locking? || (w.upd.Scanning? && w.upd.i == 0 && w.upd.waiting == []))
    && s.upd == Rcu.Publishing(w.upd.prev)
  }

  ghost predicate Rel(m: Model, s: Rcu.State, w: WState) {
    && |s.slots| == |w.readers| > 0
    && s.versions == w.versions && s.cur == w.memCur && s.retired == w.retired && s.freed == w.freed
    && s.usedFreed == w.usedFreed
    && (forall r :: 0 <= r < |w.readers| ==> ReaderInv(m, w.readers[r]) && SlotRel(s.slots[r], w.readers[r]))
    && (if w.bufW == [] then UpdaterRel(s.upd, w.upd) && s.latest == w.latest else PublicationPending(m, s, w))
  }

  /** What a step of the weak machine is on the sequential one. */
  function Image(m: Model, o: Orders, w: WState, a: WAction): seq<Rcu.Action>
    requires WEnabled(m, o, w, a)
  {
    match a
    case ReadLock(r) => if Direct(m, o.announce) then [Rcu.ReadLock(r)] else []
    case Dereference(r) => [Rcu.Dereference(r)]
    case ReadValue(r, key) => [Rcu.ReadValue(r, key)]
    case CheckGen(r) => [Rcu.CheckGen(r)]
    case ReadUnlock(r) => if Direct(m, o.exit) then [Rcu.ReadUnlock(r), Rcu.CountRead(r)] else []
    case CommitReader(r, i) =>
      if w.readers[r].buf[i].val % 2 == 1 then [Rcu.ReadLock(r)] else [Rcu.ReadUnlock(r), Rcu.CountRead(r)]
    case BeginUpdate => [Rcu.BeginUpdate]
    case Publish => if Direct(m, o.publish) then [Rcu.Publish] else []
    case LockRegistry => if w.bufW == [] then [Rcu.LockRegistry] else []
    case ScanSlot => [Rcu.ScanSlot]
    case EndScan => [Rcu.EndScan]
    case WaitSlot => [Rcu.WaitSlot]
    case EndWait => [Rcu.EndWait]
    case FreeOld => [Rcu.FreeOld]
    case EndUpdate => [Rcu.EndUpdate]
    case CommitUpdater(_) => if w.upd.Scanning? then [Rcu.Publish, Rcu.LockRegistry] else [Rcu.Publish]
  }

  lemma One(s: Rcu.State, a: Rcu.Action)
    requires Rcu.Enabled(s, a)
    ensures Rcu.Runs(s, [a]) && Rcu.After(s, [a]) == Rcu.Step(s, a)
  {
    assert [a][..0] == [];
  }

  lemma Zero(s: Rcu.State)
    ensures Rcu.Runs(s, []) && Rcu.After(s, []) == s
  {
  }

  lemma Two(s: Rcu.State, a: Rcu.Action, b: Rcu.Action)
    requires Rcu.Enabled(s, a) && Rcu.Enabled(Rcu.Step(s, a), b)
    ensures Rcu.Runs(s, [a, b]) && Rcu.After(s, [a, b]) == Rcu.Step(Rcu.Step(s, a), b)
  {
    One(s, a);
    assert [a, b][..1] == [a];
  }

  /** With safe orderings, a reader that may dereference has nothing left in its buffer. */
  lemma DerefAfterAnnounce(m: Model, o: Orders, k: BufferedReader)
    requires SafeOrders(m, o) && ReaderInv(m, k) && k.inside && LoadEnabled(m, o.deref, k.buf)
    ensures k.buf == []
  {
    if m.Arm? && k.buf != [] {
      AnnouncementBlocksLdar(m, o.deref, k);
    }
  }

  /** Inside a section, the newest buffered store is the announcement. */
  lemma AnnouncementBlocksLdar(m: Model, o: Order, k: BufferedReader)
    requires m.Arm? && o.SeqCst? && ReaderInv(m, k) && k.inside && k.buf != []
    ensures !LoadEnabled(m, o, k.buf)
  {
    var i := |k.buf| - 1;
    assert k.buf[i].val % 2 == 1;
    StlrBlocksLdar(m, o, k.buf, i);
  }

  lemma StlrBlocksLdar(m: Model, o: Order, b: seq<Entry>, i: nat)
    requires m.Arm? && o.SeqCst? && i < |b| && b[i].stlr
    ensures !LoadEnabled(m, o, b)
  {
  }

  lemma CommitsInOrder(m: Model, k: BufferedReader, i: nat)
    requires ReaderInv(m, k) && i < |k.buf| && FlushEnabled(m, k.buf, i)
    ensures i == 0
  {
    assert k.buf[0].v == k.buf[i].v;
  }

  lemma StoreKeepsInv(m: Model, o: Orders, w: WState, k: BufferedReader, a: WAction)
    requires SafeOrders(m, o) && ReaderInv(m, k) && WReaderEnabled(m, o, k, a) && (a.ReadLock? || a.ReadUnlock?)
    ensures ReaderInv(m, WReaderStep(m, o, w, k, a))
  {
  }

  lemma CommitKeepsInv(m: Model, o: Orders, w: WState, k: BufferedReader, a: WAction)
    requires ReaderInv(m, k) && WReaderEnabled(m, o, k, a) && a.CommitReader?
    ensures ReaderInv(m, WReaderStep(m, o, w, k, a))
  {
    CommitsInOrder(m, k, a.i);
    assert k.buf[..0] + k.buf[1..] == k.buf[1..];
    assert WReaderStep(m, o, w, k, a) == k.(mem := k.mem + 1, buf := k.buf[1..]);
  }

  lemma ReaderStepKeepsInv(m: Model, o: Orders, w: WState, k: BufferedReader, a: WAction)
    requires SafeOrders(m, o) && ReaderInv(m, k) && WReaderEnabled(m, o, k, a)
    ensures ReaderInv(m, WReaderStep(m, o, w, k, a))
  {
    if a.ReadLock? || a.ReadUnlock? {
      StoreKeepsInv(m, o, w, k, a);
    } else if a.CommitReader? {
      CommitKeepsInv(m, o, w, k, a);
    } else if a.Dereference? {
      DerefAfterAnnounce(m, o, k);
    }
  }

  lemma LoadsAgree(m: Model, s: Rcu.State, w: WState)
    requires Rel(m, s, w)
    ensures forall v, key :: WLoad(w, v, key) == Rcu.Load(s, v, key)
    ensures forall v :: WLive(w, v) == Rcu.Live(s, v) && WLoadGen(w, v) == Rcu.LoadGen(s, v)
  {
  }

  /** Only slot `r` changed, on both sides, and still matches. */
  lemma SlotReplaced(m: Model, s: Rcu.State, w: WState, r: nat, s': Rcu.State, k': BufferedReader, used: bool)
    requires Rel(m, s, w) && r < |w.readers|
    requires s' == s.(slots := s'.slots, now := s'.now, usedFreed := s'.usedFreed)
    requires |s'.slots| == |s.slots| && s'.slots == s.slots[r := s'.slots[r]]
    requires ReaderInv(m, k') && SlotRel(s'.slots[r], k') && s'.usedFreed == used
    ensures Rel(m, s', w.(readers := w.readers[r := k'], usedFreed := used))
  {
    hide ReaderInv, SlotRel, UpdaterRel;
  }

  lemma ReaderLooksSimulates(m: Model, o: Orders, s: Rcu.State, w: WState, a: WAction)
    requires SafeOrders(m, o) && Rel(m, s, w) && WEnabled(m, o, w, a)
    requires a.Dereference? || a.ReadValue? || a.CheckGen?
    ensures Rcu.Runs(s, Image(m, o, w, a))
    ensures Rel(m, Rcu.After(s, Image(m, o, w, a)), WStep(m, o, w, a))
  {
    hide Rcu.Runs, Rcu.After;
    var k := w.readers[a.r];
    assert ReaderInv(m, k) && SlotRel(s.slots[a.r], k);
    ReaderStepKeepsInv(m, o, w, k, a);
    LoadsAgree(m, s, w);
    if a.Dereference? {
      DerefAfterAnnounce(m, o, k);
      OtherVariable(k.buf, Head, w.memCur);
    }
    hide Rel;
    var b := Image(m, o, w, a)[0];
    One(s, b);
    SlotReplaced(m, s, w, a.r, Rcu.Step(s, b), WReaderStep(m, o, w, k, a), w.usedFreed || TouchesFreed(w, a));
  }

  /** The two sequential steps of leaving a section: the counter store and the statistics. */
  lemma LeavesSection(s: Rcu.State, r: nat)
    requires Rcu.InSection(s, r)
    ensures Rcu.Runs(s, [Rcu.ReadUnlock(r), Rcu.CountRead(r)])
    ensures var s' := Rcu.After(s, [Rcu.ReadUnlock(r), Rcu.CountRead(r)]);
            && s' == s.(slots := s'.slots, now := s'.now)
            && |s'.slots| == |s.slots|
            && s'.slots == s.slots[r := s.slots[r].(counter := s.slots[r].counter + 1,
                                                    stage := Rcu.Outside, finished := s.slots[r].finished + 1)]
  {
    Two(s, Rcu.ReadUnlock(r), Rcu.CountRead(r));
  }

  lemma EntersSection(s: Rcu.State, r: nat)
    requires r < |s.slots| && s.slots[r].inUse && s.slots[r].stage == Rcu.Outside
    ensures Rcu.Runs(s, [Rcu.ReadLock(r)])
    ensures var s' := Rcu.After(s, [Rcu.ReadLock(r)]);
            && s' == s.(slots := s'.slots, now := s'.now)
            && |s'.slots| == |s.slots|
            && s'.slots == s.slots[r := s.slots[r].(counter := s.slots[r].counter + 1,
                                                    stage := Rcu.Inside(Rcu.Nothing, s.now, s.cur))]
  {
    One(s, Rcu.ReadLock(r));
  }

  lemma ReaderStoresSimulates(m: Model, o: Orders, s: Rcu.State, w: WState, a: WAction)
    requires SafeOrders(m, o) && Rel(m, s, w) && WEnabled(m, o, w, a)
    requires a.ReadLock? || a.ReadUnlock?
    ensures Rcu.Runs(s, Image(m, o, w, a))
    ensures Rel(m, Rcu.After(s, Image(m, o, w, a)), WStep(m, o, w, a))
  {
    hide Rcu.Runs, Rcu.After;
    Zero(s);
    var k := w.readers[a.r];
    assert ReaderInv(m, k) && SlotRel(s.slots[a.r], k);
    ReaderStepKeepsInv(m, o, w, k, a);
    var image := Image(m, o, w, a);
    if image != [] {
      if a.ReadLock? { EntersSection(s, a.r); } else { LeavesSection(s, a.r); }
    }
    hide Rel;
    SlotReplaced(m, s, w, a.r, Rcu.After(s, image), WReaderStep(m, o, w, k, a), w.usedFreed);
  }

  lemma ReaderCommitSimulates(m: Model, o: Orders, s: Rcu.State, w: WState, a: WAction)
    requires SafeOrders(m, o) && Rel(m, s, w) && WEnabled(m, o, w, a) && a.CommitReader?
    ensures Rcu.Runs(s, Image(m, o, w, a))
    ensures Rel(m, Rcu.After(s, Image(m, o, w, a)), WStep(m, o, w, a))
  {
    hide Rcu.Runs, Rcu.After;
    var k := w.readers[a.r];
    assert ReaderInv(m, k) && SlotRel(s.slots[a.r], k);
    CommitsInOrder(m, k, a.i);
    ReaderStepKeepsInv(m, o, w, k, a);
    var image := Image(m, o, w, a);
    if k.mem % 2 == 0 { EntersSection(s, a.r); } else { LeavesSection(s, a.r); }
    hide Rel;
    SlotReplaced(m, s, w, a.r, Rcu.After(s, image), WReaderStep(m, o, w, k, a), w.usedFreed);
  }

  /** A publication still buffered keeps an LDAR scan from running. */
  lemma ScanAfterPublication(m: Model, o: Orders, s: Rcu.State, w: WState)
    requires SafeOrders(m, o) && Rel(m, s, w) && LoadEnabled(m, o.scan, w.bufW)
    ensures w.bufW == []
  {
    if w.bufW != [] { StlrBlocksLdar(m, o.scan, w.bufW, 0); }
  }

  /** What the simulation needs to know of the sequential state. */
  lemma SequentialFacts(s: Rcu.State)
    requires RcuInvariant.Inv(s)
    ensures s.latest == s.cur < |s.versions|
    ensures s.upd.Publishing? ==> |s.versions| == s.cur + 2
    ensures s.upd.Waiting? ==> forall k :: 0 <= k < |s.upd.waiting| ==> s.upd.waiting[k].slot < |s.slots|
  {
    if s.upd.Waiting? {
      forall k | 0 <= k < |s.upd.waiting| ensures s.upd.waiting[k].slot < |s.slots| {
        assert RcuInvariant.SnapshotFits(s, s.upd.waiting[k]);
      }
    }
  }

  lemma UpdaterKeepsReaders(m: Model, o: Orders, s: Rcu.State, w: WState, s': Rcu.State, w': WState)
    requires Rel(m, s, w) && s'.slots == s.slots && w'.readers == w.readers
    requires s'.usedFreed == s.usedFreed && w'.usedFreed == w.usedFreed
    requires s'.versions == w'.versions && s'.cur == w'.memCur && s'.retired == w'.retired && s'.freed == w'.freed
    requires if w'.bufW == [] then UpdaterRel(s'.upd, w'.upd) && s'.latest == w'.latest
             else PublicationPending(m, s', w')
    ensures Rel(m, s', w')
  {
  }

  lemma PublishSimulates(m: Model, o: Orders, s: Rcu.State, w: WState)
    requires SafeOrders(m, o) && Rel(m, s, w) && WEnabled(m, o, w, Publish) && RcuInvariant.Inv(s)
    ensures Rcu.Runs(s, Image(m, o, w, Publish))
    ensures Rel(m, Rcu.After(s, Image(m, o, w, Publish)), WStep(m, o, w, Publish))
  {
    hide RcuInvariant.Inv, RcuInvariant.VersionsInv, RcuInvariant.SnapshotsInv;
    hide Rcu.Runs, Rcu.After, ReaderInv, SlotRel;
    Zero(s);
    SequentialFacts(s);
    var image := Image(m, o, w, Publish);
    if image != [] { One(s, Rcu.Publish); }
    UpdaterKeepsReaders(m, o, s, w, Rcu.After(s, image), WStep(m, o, w, Publish));
  }

  lemma PublicationCommitSimulates(m: Model, o: Orders, s: Rcu.State, w: WState, i: nat)
    requires SafeOrders(m, o) && Rel(m, s, w) && WEnabled(m, o, w, CommitUpdater(i)) && RcuInvariant.Inv(s)
    ensures Rcu.Runs(s, Image(m, o, w, CommitUpdater(i)))
    ensures Rel(m, Rcu.After(s, Image(m, o, w, CommitUpdater(i))), WStep(m, o, w, CommitUpdater(i)))
  {
    hide RcuInvariant.Inv, RcuInvariant.VersionsInv, RcuInvariant.SnapshotsInv;
    hide Rcu.Runs, Rcu.After, ReaderInv, SlotRel;
    SequentialFacts(s);
    var image := Image(m, o, w, CommitUpdater(i));
    if w.upd.Scanning? { Two(s, Rcu.Publish, Rcu.LockRegistry); } else { One(s, Rcu.Publish); }
    assert w.bufW[..0] + w.bufW[1..] == [];
    UpdaterKeepsReaders(m, o, s, w, Rcu.After(s, image), WStep(m, o, w, CommitUpdater(i)));
  }

  lemma ScanSimulates(m: Model, o: Orders, s: Rcu.State, w: WState)
    requires SafeOrders(m, o) && Rel(m, s, w) && WEnabled(m, o, w, ScanSlot)
    ensures Rcu.Runs(s, Image(m, o, w, ScanSlot))
    ensures Rel(m, Rcu.After(s, Image(m, o, w, ScanSlot)), WStep(m, o, w, ScanSlot))
  {
    hide Rcu.Runs, Rcu.After;
    ScanAfterPublication(m, o, s, w);
    var r := w.upd.i;
    assert ReaderInv(m, w.readers[r]) && SlotRel(s.slots[r], w.readers[r]);
    One(s, Rcu.ScanSlot);
    UpdaterKeepsReaders(m, o, s, w, Rcu.Step(s, Rcu.ScanSlot), WStep(m, o, w, ScanSlot));
  }

  lemma WaitSimulates(m: Model, o: Orders, s: Rcu.State, w: WState)
    requires SafeOrders(m, o) && Rel(m, s, w) && WEnabled(m, o, w, WaitSlot)
    ensures Rcu.Runs(s, Image(m, o, w, WaitSlot))
    ensures Rel(m, Rcu.After(s, Image(m, o, w, WaitSlot)), WStep(m, o, w, WaitSlot))
  {
    hide Rcu.Runs, Rcu.After;
    ScanAfterPublication(m, o, s, w);
    var r := w.upd.waiting[w.upd.j].slot;
    assert ReaderInv(m, w.readers[r]) && SlotRel(s.slots[r], w.readers[r]);
    One(s, Rcu.WaitSlot);
    UpdaterKeepsReaders(m, o, s, w, Rcu.Step(s, Rcu.WaitSlot), WStep(m, o, w, WaitSlot));
  }

  lemma UpdaterSimulates(m: Model, o: Orders, s: Rcu.State, w: WState, a: WAction)
    requires SafeOrders(m, o) && Rel(m, s, w) && WEnabled(m, o, w, a) && RcuInvariant.Inv(s)
    requires !ByReader(a) && !a.Publish? && !a.CommitUpdater? && !a.ScanSlot? && !a.WaitSlot?
    ensures Rcu.Runs(s, Image(m, o, w, a))
    ensures Rel(m, Rcu.After(s, Image(m, o, w, a)), WStep(m, o, w, a))
  {
    hide RcuInvariant.Inv, RcuInvariant.VersionsInv, RcuInvariant.SnapshotsInv;
    hide Rcu.Runs, Rcu.After, ReaderInv, SlotRel;
    Zero(s);
    SequentialFacts(s);
    var image := Image(m, o, w, a);
    if image != [] { One(s, image[0]); }
    UpdaterKeepsReaders(m, o, s, w, Rcu.After(s, image), WStep(m, o, w, a));
  }

  /** Every step of the weak machine is a short run of the sequential one. */
  lemma StepSimulates(m: Model, o: Orders, s: Rcu.State, w: WState, a: WAction)
    requires SafeOrders(m, o) && Rel(m, s, w) && WEnabled(m, o, w, a) && RcuInvariant.Inv(s)
    ensures Rcu.Runs(s, Image(m, o, w, a))
    ensures Rel(m, Rcu.After(s, Image(m, o, w, a)), WStep(m, o, w, a))
  {
    hide Rel, Image, WStep, WEnabled, SafeOrders;
    if a.Dereference? || a.ReadValue? || a.CheckGen? {
      ReaderLooksSimulates(m, o, s, w, a);
    } else if a.ReadLock? || a.ReadUnlock? {
      ReaderStoresSimulates(m, o, s, w, a);
    } else if a.CommitReader? {
      ReaderCommitSimulates(m, o, s, w, a);
    } else if a.Publish? {
      PublishSimulates(m, o, s, w);
    } else if a.CommitUpdater? {
      PublicationCommitSimulates(m, o, s, w, a.i);
    } else if a.ScanSlot? {
      ScanSimulates(m, o, s, w);
    } else if a.WaitSlot? {
      WaitSimulates(m, o, s, w);
    } else {
      UpdaterSimulates(m, o, s, w, a);
    }
  }

  /** The sequential machine with all its slots registered. */
  lemma {:induction false} AllRegistered(n: nat, k: nat) returns (run: seq<Rcu.Action>)
    requires k <= n
    ensures Rcu.Runs(Rcu.Start(n), run)
    ensures var s := Rcu.After(Rcu.Start(n), run);
            && s == Rcu.Start(n).(slots := s.slots, now := s.now)
            && |s.slots| == n
            && (forall r :: 0 <= r < n ==>
                  s.slots[r] == if r < k then Rcu.Slot(true, 0, 0, Rcu.Outside, 1, 0) else Rcu.Unused)
  {
    if k == 0 {
      run := [];
    } else {
      run := AllRegistered(n, k - 1);
      var s', run' := RcuTheorems.Extend(Rcu.Start(n), run, Rcu.Register(k - 1));
      run := run';
    }
  }

  lemma {:induction false} RunsConcat(s: Rcu.State, a: seq<Rcu.Action>, b: seq<Rcu.Action>)
    requires Rcu.Runs(s, a) && Rcu.Runs(Rcu.After(s, a), b)
    ensures Rcu.Runs(s, a + b) && Rcu.After(s, a + b) == Rcu.After(Rcu.After(s, a), b)
    decreases |b|
  {
    hide Rcu.Step, Rcu.Enabled;
    if b == [] {
      assert a + b == a;
    } else {
      var n := |b| - 1;
      RunsConcat(s, a, b[..n]);
      assert (a + b)[..|a + b| - 1] == a + b[..n];
    }
  }

  /** Every run of the weak machine is matched, state for state, by a run of the sequential one. */
  lemma {:induction false} WeakRunSimulates(m: Model, o: Orders, n: nat, run: seq<WAction>)
    returns (sc: seq<Rcu.Action>)
    requires SafeOrders(m, o) && n > 0 && WRuns(m, o, WStart(n), run)
    ensures Rcu.Runs(Rcu.Start(n), sc)
    ensures Rel(m, Rcu.After(Rcu.Start(n), sc), WAfter(m, o, WStart(n), run))
    decreases |run|
  {
    if run == [] {
      sc := AllRegistered(n, n);
    } else {
      hide Rel, SafeOrders, WEnabled, WStep, Image, Rcu.Runs, Rcu.After, RcuInvariant.Inv;
      var before, a := run[..|run| - 1], run[|run| - 1];
      sc := WeakRunSimulates(m, o, n, before);
      var s, w := Rcu.After(Rcu.Start(n), sc), WAfter(m, o, WStart(n), before);
      RcuTheorems.Reachable(n, sc);
      StepSimulates(m, o, s, w, a);
      RunsConcat(Rcu.Start(n), sc, Image(m, o, w, a));
      sc := sc + Image(m, o, w, a);
    }
  }

  lemma {:induction false} NobodyThere(m: Model, o: Orders, run: seq<WAction>)
    requires WRuns(m, o, WStart(0), run)
    ensures |WAfter(m, o, WStart(0), run).readers| == 0 && !WAfter(m, o, WStart(0), run).usedFreed
    decreases |run|
  {
    if run != [] { NobodyThere(m, o, run[..|run| - 1]); }
  }

  /** With safe orderings no run of the weak machine - any number of readers, sections and
      updates - reads a freed version, and every lookup that checked its value found
      gen * 64 + key of the version it held. */
  lemma WeakRcuIsSafe(m: Model, o: Orders, n: nat, run: seq<WAction>)
    requires SafeOrders(m, o) && WRuns(m, o, WStart(n), run)
    ensures var w := WAfter(m, o, WStart(n), run);
            && !w.usedFreed
            && (forall r :: 0 <= r < |w.readers| && w.readers[r].held.Checked? ==> CheckedRight(w.readers[r].held))
  {
    if n == 0 {
      NobodyThere(m, o, run);
    } else {
      var sc := WeakRunSimulates(m, o, n, run);
      RcuTheorems.TableIsRight(n, sc);
      RcuTheorems.SlotCount(n, sc);
      var s, w := Rcu.After(Rcu.Start(n), sc), WAfter(m, o, WStart(n), run);
      assert forall r :: 0 <= r < n && Rcu.InSection(s, r) && s.slots[r].stage.held.Checked? ==>
                           CheckedRight(s.slots[r].stage.held);
      hide Rcu.After, WAfter, Rcu.Runs, WRuns, Rel;
      forall r | 0 <= r < |w.readers| && w.readers[r].held.Checked? ensures CheckedRight(w.readers[r].held) {
        SameHeld(m, s, w, r);
      }
    }
  }

  predicate CheckedRight(h: Rcu.Held)
    requires h.Checked?
  {
    h.ok && h.x == h.v * Rcu.TABLE_KEYS + h.key
  }

  lemma SameHeld(m: Model, s: Rcu.State, w: WState, r: nat)
    requires Rel(m, s, w) && r < |w.readers| && !w.readers[r].held.Nothing?
    ensures Rcu.InSection(s, r) && s.slots[r].stage.held == w.readers[r].held
    ensures |s.slots| == |w.readers|
  {
    assert ReaderInv(m, w.readers[r]) && SlotRel(s.slots[r], w.readers[r]);
  }

  /** The orderings in orders.h are safe on all three memory models. */
  lemma ChosenOrdersAreSafe(m: Model, n: nat, run: seq<WAction>)
    requires WRuns(m, CHOSEN, WStart(n), run)
    ensures !WAfter(m, CHOSEN, WStart(n), run).usedFreed
  {
    WeakRcuIsSafe(m, CHOSEN, n, run);
  }

  lemma WEmpty(m: Model, o: Orders, w: WState)
    ensures WRuns(m, o, w, []) && WAfter(m, o, w, []) == w
  {
  }

  lemma WExtend(m: Model, o: Orders, run: seq<WAction>, a: WAction) returns (w': WState, run': seq<WAction>)
    requires WRuns(m, o, WStart(1), run) && WEnabled(m, o, WAfter(m, o, WStart(1), run), a)
    ensures WRuns(m, o, WStart(1), run')
    ensures w' == WAfter(m, o, WStart(1), run') == WStep(m, o, WAfter(m, o, WStart(1), run), a)
  {
    run' := run + [a];
    assert run'[..|run|] == run;
    w' := WAfter(m, o, WStart(1), run');
  }

  /** An updater whose scan finds the reader outside goes straight on to free. */
  lemma {:induction false} ScanFindsNobody(m: Model, o: Orders, run: seq<WAction>) returns (run': seq<WAction>)
    requires WRuns(m, o, WStart(1), run)
    requires var w := WAfter(m, o, WStart(1), run);
             && w.upd == Locking(0) && |w.readers| == 1 && w.readers[0].mem == 0
             && LoadEnabled(m, o.scan, w.bufW)
             && forall i :: 0 <= i < |w.bufW| ==> w.bufW[i].v == Head
    ensures WRuns(m, o, WStart(1), run')
    ensures WAfter(m, o, WStart(1), run') == WAfter(m, o, WStart(1), run).(upd := Freeing(0))
  {
    hide WRuns, WAfter, LoadEnabled;
    var w0 := WAfter(m, o, WStart(1), run);
    var w;
    w, run' := WExtend(m, o, run, LockRegistry);
    OtherVariable(w.bufW, Seq, 0);
    w, run' := WExtend(m, o, run', ScanSlot);
    assert w == w0.(upd := Scanning(0, 1, []));
    w, run' := WExtend(m, o, run', EndScan);
    w, run' := WExtend(m, o, run', EndWait);
  }

  /** The freed version is then read. */
  lemma {:induction false} FreeThenRead(m: Model, o: Orders, run: seq<WAction>) returns (run': seq<WAction>)
    requires WRuns(m, o, WStart(1), run)
    requires var w := WAfter(m, o, WStart(1), run);
             w.upd == Freeing(0) && |w.readers| == 1 && w.readers[0].inside && w.readers[0].held == Rcu.Pointer(0)
    ensures WRuns(m, o, WStart(1), run') && WAfter(m, o, WStart(1), run').usedFreed
  {
    hide WRuns, WAfter;
    var w;
    w, run' := WExtend(m, o, run, FreeOld);
    assert w.retired[|w.retired| - 1] == 0;
    w, run' := WExtend(m, o, run', ReadValue(0, 0));
  }

  /** Reader first: the announcement is in its buffer when it loads and the updater scans. */
  lemma {:induction false} ReaderFirst(m: Model, o: Orders) returns (run: seq<WAction>)
    requires (m.Tso? && !o.announce.SeqCst?) || (m.Arm? && (!o.deref.SeqCst? || o.announce.Relaxed?))
    ensures WRuns(m, o, WStart(1), run) && WAfter(m, o, WStart(1), run).usedFreed
  {
    hide WRuns, WAfter;
    WEmpty(m, o, WStart(1));
    var w;
    w, run := WExtend(m, o, [], ReadLock(0));
    var b := [Entry(Seq, 1, m.Arm? && !o.announce.Relaxed?)];
    assert w.readers[0] == BufferedReader(0, b, 1, true, Rcu.Nothing);
    OtherVariable(b, Head, 0);
    w, run := WExtend(m, o, run, Dereference(0));
    var k := BufferedReader(0, b, 1, true, Rcu.Pointer(0));
    assert w == WStart(1).(readers := w.readers) && w.readers == [k];
    run := UpdateCommitted(m, o, run, k);
    run := ScanFindsNobody(m, o, run);
    run := FreeThenRead(m, o, run);
  }

  lemma {:induction false} UpdateCommitted(m: Model, o: Orders, run: seq<WAction>, k: BufferedReader)
    returns (run': seq<WAction>)
    requires WRuns(m, o, WStart(1), run)
    requires WAfter(m, o, WStart(1), run) == WStart(1).(readers := [k])
    ensures WRuns(m, o, WStart(1), run')
    ensures var w := WAfter(m, o, WStart(1), run'); w.bufW == [] && w.upd == Locking(0) && w.readers == [k]
  {
    hide WRuns, WAfter;
    var w;
    w, run' := WExtend(m, o, run, BeginUpdate);
    w, run' := WExtend(m, o, run', Publish);
    assert w.upd == Locking(0) && w.readers == [k];
    if w.bufW != [] { w, run' := WExtend(m, o, run', CommitUpdater(0)); }
  }

  /** Updater first: the publication is in its buffer when it scans and the reader loads. */
  lemma {:induction false} UpdaterFirst(m: Model, o: Orders) returns (run: seq<WAction>)
    requires (m.Tso? && !o.publish.SeqCst?) || (m.Arm? && (!o.scan.SeqCst? || o.publish.Relaxed?))
    ensures WRuns(m, o, WStart(1), run) && WAfter(m, o, WStart(1), run).usedFreed
  {
    hide WRuns, WAfter;
    WEmpty(m, o, WStart(1));
    var w;
    w, run := WExtend(m, o, [], BeginUpdate);
    w, run := WExtend(m, o, run, Publish);
    var b := [Entry(Head, 1, m.Arm? && !o.publish.Relaxed?)];
    assert w.bufW == b && w.upd == Locking(0) && w.memCur == 0 && w.readers == WStart(1).readers;
    run := ScanFindsNobody(m, o, run);
    run := EnterCommitted(m, o, run);
    run := FreeThenRead(m, o, run);
  }

  lemma {:induction false} EnterCommitted(m: Model, o: Orders, run: seq<WAction>) returns (run': seq<WAction>)
    requires WRuns(m, o, WStart(1), run)
    requires var w := WAfter(m, o, WStart(1), run);
             w.upd == Freeing(0) && w.memCur == 0 && w.readers == WStart(1).readers
    ensures WRuns(m, o, WStart(1), run')
    ensures var w := WAfter(m, o, WStart(1), run');
            w.upd == Freeing(0) && |w.readers| == 1 && w.readers[0].inside && w.readers[0].held == Rcu.Pointer(0)
  {
    hide WRuns, WAfter;
    var w;
    w, run' := WExtend(m, o, run, ReadLock(0));
    if w.readers[0].buf != [] { w, run' := WExtend(m, o, run', CommitReader(0, 0)); }
    assert w.readers[0] == BufferedReader(1, [], 1, true, Rcu.Nothing) && w.memCur == 0 && w.upd == Freeing(0);
    w, run' := WExtend(m, o, run', Dereference(0));
  }

  /** Exactly the orderings that are safe for the one-reader handshake are safe for the whole
      protocol: if and only if they are, no run of any number of readers uses a freed version. */
  lemma ExactForTheProtocol(m: Model, o: Orders)
    ensures SafeOrders(m, o) <==>
              forall n: nat, run :: WRuns(m, o, WStart(n), run) ==> !WAfter(m, o, WStart(n), run).usedFreed
  {
    if SafeOrders(m, o) {
      forall n: nat, run | WRuns(m, o, WStart(n), run) ensures !WAfter(m, o, WStart(n), run).usedFreed {
        WeakRcuIsSafe(m, o, n, run);
      }
    } else if (m.Tso? && !o.announce.SeqCst?) || (m.Arm? && (!o.deref.SeqCst? || o.announce.Relaxed?)) {
      var run := ReaderFirst(m, o);
    } else {
      var run := UpdaterFirst(m, o);
    }
  }
}
