/**
 The user-space RCU and its table as a sequentially consistent step machine: any number
 of reader slots, registered, used, given back and registered again, and updaters that
 take turns under a mutex.  One step is one atomic load or store, or what a thread does
 between two of them.  A register or unregister is one step, taken when no scan holds the
 registry lock.
 */
module Rcu {

  const TABLE_KEYS := 64
  const RCU_MAX_READERS := 64

  datatype Version = Version(gen: int, val: seq<int>)

  /** A version every one of whose values is gen * TABLE_KEYS + key. */
  function Filled(gen: int): Version {
    Version(gen, seq(TABLE_KEYS, k => gen * TABLE_KEYS + k))
  }

  /** What a reader has got hold of inside its section.  Versions are numbered as they are allocated. */
  datatype Held =
    | Nothing
    | Pointer(v: nat)
    | Value(v: nat, key: nat, x: int)
    | Checked(v: nat, key: nat, x: int, ok: bool)

  /** `since` is the instant the section began and `entry` the version current then. */
  datatype Stage = Outside | Inside(held: Held, since: nat, entry: nat) | Leaving

  /** A registry slot.  `epoch` counts registrations, `seen` is the newest version dereferenced
      through it; the program has neither, they are there to be talked about. */
  datatype Slot = Slot(inUse: bool, counter: nat, finished: nat, stage: Stage, epoch: nat, seen: nat)

  const Unused := Slot(false, 0, 0, Outside, 0, 0)

  /** An entry of the waiting array: the slot and the odd counter seen there. */
  datatype Snapshot = Snapshot(slot: nat, counter: nat, epoch: nat)

  /** The updater that holds the mutex.  `called` is the instant it called synchronize_rcu. */
  datatype Updater =
    | Resting
    | Publishing(prev: nat)
    | Locking(prev: nat, called: nat)
    | Scanning(prev: nat, called: nat, i: nat, waiting: seq<Snapshot>)
    | Waiting(prev: nat, called: nat, j: nat, waiting: seq<Snapshot>)
    | Freeing(prev: nat, called: nat)
    | Counting

  datatype State = State(
    now: nat, slots: seq<Slot>,
    versions: seq<Version>, cur: nat, latest: nat,
    retired: seq<nat>, freed: nat,
    upd: Updater, usedFreed: bool)

  /** rt_init, with `n` registry slots. */
  function Start(n: nat): State {
    State(0, seq(n, _ => Unused), [Filled(0)], 0, 0, [], 0, Resting, false)
  }

  datatype Action =
    | Register(r: nat)
    | Unregister(r: nat)
    | ReadLock(r: nat)
    | Dereference(r: nat)
    | ReadValue(r: nat, key: nat)
    | CheckGen(r: nat)
    | ReadUnlock(r: nat)
    | CountRead(r: nat)
    | BeginUpdate
    | Publish
    | LockRegistry
    | ScanSlot
    | EndScan
    | WaitSlot
    | EndWait
    | FreeOld
    | EndUpdate

  predicate RegistryFree(s: State) {
    !s.upd.Scanning?
  }

  predicate InSection(s: State, r: nat) {
    r < |s.slots| && s.slots[r].stage.Inside?
  }

  predicate Enabled(s: State, a: Action) {
    match a
    case Register(r) =>
      RegistryFree(s) && r < |s.slots| && !s.slots[r].inUse && forall q :: 0 <= q < r ==> s.slots[q].inUse
    case Unregister(r) => RegistryFree(s) && r < |s.slots| && s.slots[r].inUse && s.slots[r].stage == Outside
    case ReadLock(r) => r < |s.slots| && s.slots[r].inUse && s.slots[r].stage == Outside
    case Dereference(r) => InSection(s, r)
    case ReadValue(r, key) => InSection(s, r) && s.slots[r].stage.held.Pointer? && key < TABLE_KEYS
    case CheckGen(r) => InSection(s, r) && s.slots[r].stage.held.Value?
    case ReadUnlock(r) => InSection(s, r)
    case CountRead(r) => r < |s.slots| && s.slots[r].stage == Leaving
    case BeginUpdate => s.upd.Resting?
    case Publish => s.upd.Publishing?
    case LockRegistry => s.upd.Locking?
    case ScanSlot => s.upd.Scanning? && s.upd.i < |s.slots|
    case EndScan => s.upd.Scanning? && s.upd.i >= |s.slots|
    case WaitSlot => s.upd.Waiting? && s.upd.j < |s.upd.waiting| && s.upd.waiting[s.upd.j].slot < |s.slots|
    case EndWait => s.upd.Waiting? && s.upd.j >= |s.upd.waiting|
    case FreeOld => s.upd.Freeing?
    case EndUpdate => s.upd.Counting?
  }

  predicate Live(s: State, v: nat) {
    v < |s.versions| && v !in s.retired
  }

  /** A value read from a version; reading a freed one is recorded. */
  function Load(s: State, v: nat, key: nat): int {
    if Live(s, v) && key < |s.versions[v].val| then s.versions[v].val[key] else 0
  }

  function LoadGen(s: State, v: nat): int {
    if Live(s, v) then s.versions[v].gen else 0
  }

  function ReaderSlot(s: State, k: Slot, a: Action): Slot {
    match a
    case Register(_) => Slot(true, 0, 0, Outside, k.epoch + 1, s.cur)
    case Unregister(_) => k.(inUse := false)
    case ReadLock(_) => k.(counter := k.counter + 1, stage := Inside(Nothing, s.now, s.cur))
    case Dereference(_) =>
      if k.stage.Inside? then k.(stage := k.stage.(held := Pointer(s.cur)), seen := s.cur) else k
    case ReadValue(_, key) =>
      if k.stage.Inside? && k.stage.held.Pointer?
      then k.(stage := k.stage.(held := Value(k.stage.held.v, key, Load(s, k.stage.held.v, key)))) else k
    case CheckGen(_) =>
      if k.stage.Inside? && k.stage.held.Value?
      then
        var h := k.stage.held;
        k.(stage := k.stage.(held := Checked(h.v, h.key, h.x, h.x == LoadGen(s, h.v) * TABLE_KEYS + h.key)))
      else k
    case ReadUnlock(_) => k.(counter := k.counter + 1, stage := Leaving)
    case CountRead(_) => k.(finished := k.finished + 1, stage := Outside)
    case _ => k
  }

  predicate ByReader(a: Action) {
    a.Register? || a.Unregister? || a.ReadLock? || a.Dereference? || a.ReadValue? || a.CheckGen?
    || a.ReadUnlock? || a.CountRead?
  }

  predicate TouchesFreed(s: State, a: Action)
    requires Enabled(s, a)
  {
    (a.ReadValue? || a.CheckGen?) && !Live(s, s.slots[a.r].stage.held.v)
  }

  function UpdaterStep(s: State, a: Action): State
    requires Enabled(s, a) && !ByReader(a)
  {
    match a
    case BeginUpdate =>
      if s.latest < |s.versions|
      then s.(versions := s.versions + [Filled(s.versions[s.latest].gen + 1)], upd := Publishing(s.latest))
      else s
    case Publish =>
      if |s.versions| > 0
      then s.(cur := |s.versions| - 1, latest := |s.versions| - 1, upd := Locking(s.upd.prev, s.now))
      else s
    case LockRegistry => s.(upd := Scanning(s.upd.prev, s.upd.called, 0, []))
    case ScanSlot =>
      var u := s.upd;
      var k := s.slots[u.i];
      s.(upd := u.(i := u.i + 1,
                   waiting := if k.inUse && k.counter % 2 == 1
                              then u.waiting + [Snapshot(u.i, k.counter, k.epoch)] else u.waiting))
    case EndScan => s.(upd := Waiting(s.upd.prev, s.upd.called, 0, s.upd.waiting))
    case WaitSlot =>
      var u := s.upd;
      if s.slots[u.waiting[u.j].slot].counter == u.waiting[u.j].counter then s else s.(upd := u.(j := u.j + 1))
    case EndWait => s.(upd := Freeing(s.upd.prev, s.upd.called))
    case FreeOld => s.(retired := s.retired + [s.upd.prev], upd := Counting)
    case EndUpdate => s.(freed := s.freed + 1, upd := Resting)
  }

  function Step(s: State, a: Action): State
    requires Enabled(s, a)
  {
    var s' :=
      if ByReader(a)
      then s.(slots := s.slots[a.r := ReaderSlot(s, s.slots[a.r], a)], usedFreed := s.usedFreed || TouchesFreed(s, a))
      else UpdaterStep(s, a);
    s'.(now := s.now + 1)
  }

  predicate Runs(s: State, run: seq<Action>)
    decreases |run|, 0
  {
    run == [] ||
    (Runs(s, run[..|run| - 1]) && Enabled(After(s, run[..|run| - 1]), run[|run| - 1]))
  }

  function After(s: State, run: seq<Action>): State
    requires Runs(s, run)
    decreases |run|, 1
  {
    if run == [] then s else Step(After(s, run[..|run| - 1]), run[|run| - 1])
  }

  lemma {:induction false} PrefixRuns(s: State, run: seq<Action>, i: nat)
    requires Runs(s, run) && i <= |run|
    ensures Runs(s, run[..i])
    decreases |run|
  {
    if i < |run| {
      PrefixRuns(s, run[..|run| - 1], i);
      assert run[..|run| - 1][..i] == run[..i];
    } else {
      assert run[..i] == run;
    }
  }
}

/**
 The grace period.  A section is known by its slot and the instant it began.  Every
 section open when synchronize_rcu is called is still to be scanned, or waited for, or over.
 */
module RcuInvariant {
  import opened Rcu

  /** Sections begun before this instant are the ones the updater must wait for. */
  function Called(u: Updater): nat {
    if u.Locking? || u.Scanning? || u.Waiting? || u.Freeing? then u.called else 0
  }

  /** The updater is still going to look at slot `r` and find counter there. */
  ghost predicate StillToWait(u: Updater, r: nat, counter: nat) {
    match u
    case Locking(_, _) => true
    case Scanning(_, _, i, waiting) =>
      r >= i || exists k :: 0 <= k < |waiting| && waiting[k].slot == r && waiting[k].counter == counter
    case Waiting(_, _, j, waiting) =>
      exists k :: j <= k < |waiting| && waiting[k].slot == r && waiting[k].counter == counter
    case _ => false
  }

  predicate HeldVersion(h: Held, v: nat) {
    match h
    case Nothing => false
    case Pointer(w) => w == v
    case Value(w, _, _) => w == v
    case Checked(w, _, _, _) => w == v
  }

  predicate HeldRight(h: Held) {
    match h
    case Value(v, key, x) => key < TABLE_KEYS && x == v * TABLE_KEYS + key
    case Checked(v, key, x, ok) => key < TABLE_KEYS && x == v * TABLE_KEYS + key && ok
    case _ => true
  }

  /** The old version may be held only by a section the updater is still going to wait for. */
  ghost predicate SectionInv(g: Stage, r: nat, counter: nat, seen: nat, now: nat, cur: nat, u: Updater)
    requires g.Inside?
  {
    && g.since < now && g.entry <= cur
    && HeldRight(g.held)
    && (g.since < Called(u) ==> StillToWait(u, r, counter))
    && (forall v: nat :: HeldVersion(g.held, v) ==>
          && g.entry <= v <= cur && v == seen
          && (v == cur || (g.since < Called(u) && v == u.prev && !u.Resting? && !u.Counting?)))
  }

  ghost predicate SlotInv(k: Slot, r: nat, now: nat, cur: nat, u: Updater) {
    && k.counter == 2 * k.finished + (match k.stage case Outside => 0 case Inside(_, _, _) => 1 case Leaving => 2)
    && (!k.inUse ==> k.stage == Outside)
    && k.seen <= cur
    && (k.stage.Inside? ==> SectionInv(k.stage, r, k.counter, k.seen, now, cur, u))
  }

  /** Within one registration a counter never falls behind a snapshot of it. */
  ghost predicate SnapshotsInv(s: State) {
    match s.upd
    case Scanning(_, _, i, waiting) =>
      |waiting| <= i <= |s.slots| && forall k :: 0 <= k < |waiting| ==> SnapshotFits(s, waiting[k])
    case Waiting(_, _, j, waiting) =>
      j <= |waiting| <= |s.slots| && forall k :: 0 <= k < |waiting| ==> SnapshotFits(s, waiting[k])
    case _ => true
  }

  ghost predicate SnapshotFits(s: State, w: Snapshot) {
    && w.slot < |s.slots| && w.counter % 2 == 1
    && w.epoch <= s.slots[w.slot].epoch
    && (w.epoch == s.slots[w.slot].epoch ==> w.counter <= s.slots[w.slot].counter)
  }

  predicate VersionsInv(s: State) {
    && |s.versions| > 0
    && (forall v :: 0 <= v < |s.versions| ==> s.versions[v] == Filled(v))
    && s.latest == s.cur
    && |s.versions| == s.cur + (if s.upd.Publishing? then 2 else 1)
    && (s.upd.Publishing? ==> s.upd.prev == s.cur)
    && (s.upd.Locking? || s.upd.Scanning? || s.upd.Waiting? || s.upd.Freeing? ==>
          s.upd.prev + 1 == s.cur && s.upd.called < s.now)
    && s.retired == seq(|s.retired|, i => i)
    && |s.retired| == (if s.upd.Resting? || s.upd.Publishing? || s.upd.Counting? then s.cur else s.cur - 1)
    && s.freed == (if s.upd.Resting? || s.upd.Publishing? then s.cur else s.cur - 1)
  }

  ghost predicate Inv(s: State) {
    && VersionsInv(s)
    && SnapshotsInv(s)
    && (forall r :: 0 <= r < |s.slots| ==> SlotInv(s.slots[r], r, s.now, s.cur, s.upd))
    && !s.usedFreed
  }

  lemma HeldIsLive(s: State, r: nat)
    requires Inv(s) && InSection(s, r)
    ensures forall v: nat :: HeldVersion(s.slots[r].stage.held, v) ==> Live(s, v)
  {
    assert SlotInv(s.slots[r], r, s.now, s.cur, s.upd);
    forall v: nat | HeldVersion(s.slots[r].stage.held, v) ensures Live(s, v) {
      assert v >= |s.retired|;
    }
  }

  lemma ReaderSlotKeeps(s: State, a: Action)
    requires Inv(s) && Enabled(s, a) && ByReader(a)
    ensures SlotInv(ReaderSlot(s, s.slots[a.r], a), a.r, s.now + 1, s.cur, s.upd)
    ensures !TouchesFreed(s, a)
  {
    hide StillToWait, SnapshotsInv;
    assert SlotInv(s.slots[a.r], a.r, s.now, s.cur, s.upd);
    if InSection(s, a.r) { HeldIsLive(s, a.r); }
    if a.ReadValue? || a.CheckGen? {
      var v := s.slots[a.r].stage.held.v;
      assert HeldVersion(s.slots[a.r].stage.held, v);
      assert s.versions[v] == Filled(v);
    }
  }

  lemma ReaderStepKeeps(s: State, a: Action)
    requires Inv(s) && Enabled(s, a) && ByReader(a)
    ensures Inv(Step(s, a))
  {
    var s' := Step(s, a);
    ReaderSlotKeeps(s, a);
    assert SnapshotsInv(s') by { ReaderKeepsSnapshots(s, a); }
    hide SnapshotsInv, StillToWait, ReaderSlot;
    forall r | 0 <= r < |s'.slots| ensures SlotInv(s'.slots[r], r, s'.now, s'.cur, s'.upd) {
      assert SlotInv(s.slots[r], r, s.now, s.cur, s.upd);
    }
  }

  lemma ReaderKeepsSnapshots(s: State, a: Action)
    requires Inv(s) && Enabled(s, a) && ByReader(a)
    ensures SnapshotsInv(Step(s, a))
  {
    hide SlotInv, VersionsInv;
    var s' := Step(s, a);
    CounterGrows(s, s.slots[a.r], a);
    if s.upd.Scanning? || s.upd.Waiting? {
      forall k | 0 <= k < |s.upd.waiting| ensures SnapshotFits(s', s.upd.waiting[k]) {
        assert SnapshotFits(s, s.upd.waiting[k]);
      }
    }
  }

  lemma CounterGrows(s: State, k: Slot, a: Action)
    ensures var k' := ReaderSlot(s, k, a);
            if a.Register? then k'.epoch == k.epoch + 1 else k'.epoch == k.epoch && k'.counter >= k.counter
  {
  }

  lemma UpdaterKeepsVersions(s: State, a: Action)
    requires VersionsInv(s) && SnapshotsInv(s) && Enabled(s, a) && !ByReader(a)
    ensures VersionsInv(Step(s, a)) && SnapshotsInv(Step(s, a))
    ensures Step(s, a).slots == s.slots && Step(s, a).now == s.now + 1 && Step(s, a).usedFreed == s.usedFreed
  {
  }

  /** Any step, of a reader or of the updater, that starts with an open section to be waited for
      leaves the updater still to wait for that section's counter. */
  lemma StillToWaitKept(s: State, a: Action, r: nat)
    requires Inv(s) && Enabled(s, a) && r < |s.slots|
    requires s.slots[r].inUse && s.slots[r].counter % 2 == 1
    requires StillToWait(s.upd, r, s.slots[r].counter)
    ensures StillToWait(Step(s, a).upd, r, s.slots[r].counter)
  {
    hide SlotInv, VersionsInv, SnapshotsInv;
    if ByReader(a) {
      assert Step(s, a).upd == s.upd;
      return;
    }
    var c := s.slots[r].counter;
    var u, u' := s.upd, UpdaterStep(s, a).upd;
    if u.Scanning? && r < u.i {
      var k :| 0 <= k < |u.waiting| && u.waiting[k].slot == r && u.waiting[k].counter == c;
      assert u'.waiting[k] == u.waiting[k];
    } else if u.Scanning? && r == u.i {
      assert u'.waiting[|u.waiting|] == Snapshot(r, c, s.slots[r].epoch);
    } else if u.Waiting? {
      var k :| u.j <= k < |u.waiting| && u.waiting[k].slot == r && u.waiting[k].counter == c;
      assert u'.waiting[k] == u.waiting[k];
    }
  }

  lemma UpdaterKeepsSlot(s: State, a: Action, r: nat)
    requires Inv(s) && Enabled(s, a) && !ByReader(a) && r < |s.slots|
    ensures SlotInv(s.slots[r], r, s.now + 1, Step(s, a).cur, Step(s, a).upd)
  {
    hide SnapshotsInv;
    var k := s.slots[r];
    assert SlotInv(k, r, s.now, s.cur, s.upd);
    assert k.stage.Inside? ==> k.inUse && k.counter % 2 == 1;
    if k.stage.Inside? && StillToWait(s.upd, r, k.counter) { StillToWaitKept(s, a, r); }
    hide StillToWait;
    if k.stage.Inside? && s.upd.Waiting? && s.upd.j >= |s.upd.waiting| { NothingToWaitFor(s.upd, r, k.counter); }
  }

  lemma NothingToWaitFor(u: Updater, r: nat, counter: nat)
    requires u.Waiting? && u.j >= |u.waiting|
    ensures !StillToWait(u, r, counter)
  {
  }

  lemma StepKeeps(s: State, a: Action)
    requires Inv(s) && Enabled(s, a)
    ensures Inv(Step(s, a))
  {
    if ByReader(a) {
      ReaderStepKeeps(s, a);
    } else {
      UpdaterKeepsVersions(s, a);
      forall r | 0 <= r < |s.slots| ensures SlotInv(s.slots[r], r, s.now + 1, Step(s, a).cur, Step(s, a).upd) {
        UpdaterKeepsSlot(s, a, r);
      }
    }
  }
}

/** What the protocol promises over whole runs. */
module RcuTheorems {
  import opened Rcu
  import opened RcuInvariant

  lemma {:induction false} RunKeeps(s: State, run: seq<Action>)
    requires Inv(s) && Runs(s, run)
    ensures Inv(After(s, run))
    decreases |run|
  {
    if run != [] {
      RunKeeps(s, run[..|run| - 1]);
      StepKeeps(After(s, run[..|run| - 1]), run[|run| - 1]);
    }
  }

  lemma Reachable(n: nat, run: seq<Action>)
    requires Runs(Start(n), run)
    ensures Inv(After(Start(n), run))
  {
    RunKeeps(Start(n), run);
  }

  predicate SameSection(s: State, s': State, r: nat) {
    InSection(s, r) && InSection(s', r) && s.slots[r].stage.since == s'.slots[r].stage.since
  }

  /** The grace period: when synchronize_rcu returns, every section that was open when it was
      called is over - for any number of readers, and although slots are given back and
      registered again, with their counters restarting at 0, while the updater waits. */
  lemma GracePeriod(n: nat, before: seq<Action>, during: seq<Action>, r: nat)
    requires Runs(Start(n), before) && Enabled(After(Start(n), before), Publish)
    requires var call := Step(After(Start(n), before), Publish); Runs(call, during)
    ensures var call := Step(After(Start(n), before), Publish);
            var end := After(call, during);
            end.upd.Freeing? && end.upd.called == After(Start(n), before).now ==> !SameSection(call, end, r)
  {
    var s := After(Start(n), before);
    var call := Step(s, Publish);
    Reachable(n, before);
    StepKeeps(s, Publish);
    RunKeeps(call, during);
    var end := After(call, during);
    if InSection(call, r) && InSection(end, r) {
      assert SlotInv(s.slots[r], r, s.now, s.cur, s.upd);
      assert SlotInv(end.slots[r], r, end.now, end.cur, end.upd);
    }
  }

  /** In every reachable state: nobody has used a freed version; the freed versions are 0, 1, 2, ...,
      each freed once; a lookup that has checked its value found it consistent, and the value
      is gen * 64 + key for the version it held; and when no update is going on, the count
      of freed versions is the count of updates and exactly one version is live. */
  lemma {:induction false} TableIsRight(n: nat, run: seq<Action>)
    requires Runs(Start(n), run)
    ensures var s := After(Start(n), run);
            && !s.usedFreed
            && (forall i :: 0 <= i < |s.retired| ==> s.retired[i] == i)
            && (forall r :: 0 <= r < n && InSection(s, r) && s.slots[r].stage.held.Checked? ==>
                  var h := s.slots[r].stage.held; h.ok && h.x == h.v * TABLE_KEYS + h.key)
            && (s.upd.Resting? ==>
                  && s.freed == |s.retired| == s.latest == |s.versions| - 1
                  && (forall v :: 0 <= v < |s.versions| ==> (Live(s, v) <==> v == s.cur)))
  {
    hide SnapshotsInv, StillToWait;
    Reachable(n, run);
    var s := After(Start(n), run);
    SlotCount(n, run);
    assert forall r :: 0 <= r < n ==> SlotInv(s.slots[r], r, s.now, s.cur, s.upd);
    assert VersionsInv(s);
    if s.upd.Resting? {
      forall v | 0 <= v < |s.versions| ensures Live(s, v) <==> v == s.cur {
        if v < s.cur { assert s.retired[v] == v; }
      }
    }
  }

  /** The array of readers to wait for has room for all of them. */
  lemma WaitingArrayFits(run: seq<Action>)
    requires Runs(Start(RCU_MAX_READERS), run)
    ensures var u := After(Start(RCU_MAX_READERS), run).upd;
            u.Scanning? || u.Waiting? ==> |u.waiting| <= RCU_MAX_READERS
  {
    Reachable(RCU_MAX_READERS, run);
    SlotCount(RCU_MAX_READERS, run);
  }

  lemma {:induction false} SlotCount(n: nat, run: seq<Action>)
    requires Runs(Start(n), run)
    ensures |After(Start(n), run).slots| == n
    decreases |run|
  {
    if run != [] {
      SlotCount(n, run[..|run| - 1]);
      UpdaterKeepsSlots(After(Start(n), run[..|run| - 1]), run[|run| - 1]);
    }
  }

  lemma UpdaterKeepsSlots(s: State, a: Action)
    requires Enabled(s, a)
    ensures |Step(s, a).slots| == |s.slots|
    ensures !ByReader(a) ==> Step(s, a).slots == s.slots
  {
  }

  /** The version a lookup holds was the current one at some instant inside its section. */
  lemma {:induction false} HeldWasCurrent(n: nat, run: seq<Action>, r: nat, v: nat) returns (i: nat)
    requires Runs(Start(n), run) && InSection(After(Start(n), run), r)
    requires HeldVersion(After(Start(n), run).slots[r].stage.held, v)
    ensures i <= |run| && Runs(Start(n), run[..i])
    ensures SameSection(After(Start(n), run[..i]), After(Start(n), run), r)
    ensures After(Start(n), run[..i]).cur == v
    decreases |run|
  {
    hide Inv;
    assert run != [];
    var before := run[..|run| - 1];
    var s, a := After(Start(n), before), run[|run| - 1];
    var s' := After(Start(n), run);
    UpdaterKeepsSlots(s, a);
    if a == Dereference(r) {
      i := |run| - 1;
    } else {
      HeldBefore(s, a, r, v);
      i := HeldWasCurrent(n, before, r, v);
      assert before[..i] == run[..i];
    }
  }

  lemma HeldBefore(s: State, a: Action, r: nat, v: nat)
    requires Enabled(s, a) && a != Dereference(r) && InSection(Step(s, a), r)
    requires HeldVersion(Step(s, a).slots[r].stage.held, v)
    ensures SameSection(s, Step(s, a), r) && HeldVersion(s.slots[r].stage.held, v)
  {
  }

  lemma SeenStep(s: State, a: Action, r: nat)
    requires Inv(s) && Enabled(s, a) && r < |s.slots|
    ensures r < |Step(s, a).slots|
    ensures var k, k' := s.slots[r], Step(s, a).slots[r];
            k'.epoch >= k.epoch && (k'.epoch == k.epoch ==> k'.seen >= k.seen && k'.counter >= k.counter)
  {
    hide SnapshotsInv, VersionsInv, SectionInv;
    assert SlotInv(s.slots[r], r, s.now, s.cur, s.upd);
    UpdaterKeepsSlots(s, a);
  }

  /** The generations one registered reader sees never decrease, and neither does its counter. */
  lemma {:induction false} GenerationsNeverDecrease(s: State, run: seq<Action>, r: nat)
    requires Inv(s) && Runs(s, run) && r < |s.slots|
    ensures r < |After(s, run).slots|
    ensures var k, k' := s.slots[r], After(s, run).slots[r];
            && k'.epoch >= k.epoch
            && (k'.epoch == k.epoch ==> k'.seen >= k.seen && k'.counter >= k.counter)
            && (k'.stage.Inside? ==> forall v: nat :: HeldVersion(k'.stage.held, v) ==> v == k'.seen)
    decreases |run|
  {
    RunKeeps(s, run);
    if run != [] {
      var before := run[..|run| - 1];
      GenerationsNeverDecrease(s, before, r);
      RunKeeps(s, before);
      SeenStep(After(s, before), run[|run| - 1], r);
    }
    var s' := After(s, run);
    assert SlotInv(s'.slots[r], r, s'.now, s'.cur, s'.upd);
  }

  /** The waited-for reader is past the section the updater saw, in the same registration. */
  predicate Passed(s: State, w: Snapshot) {
    w.slot < |s.slots| && s.slots[w.slot].epoch == w.epoch && s.slots[w.slot].counter > w.counter
  }

  /** One exit is enough: leaving the section the updater saw puts the counter past the snapshot... */
  lemma OneExitPasses(s: State, w: Snapshot)
    requires Inv(s) && SnapshotFits(s, w) && w.epoch == s.slots[w.slot].epoch && Enabled(s, ReadUnlock(w.slot))
    ensures Passed(Step(s, ReadUnlock(w.slot)), w)
  {
  }

  /** ... and however often the reader re-enters, the counter never comes back to it. */
  lemma PassedForGood(s: State, run: seq<Action>, w: Snapshot)
    requires Inv(s) && Runs(s, run) && Passed(s, w)
    requires After(s, run).slots != [] && w.slot < |After(s, run).slots|
    requires After(s, run).slots[w.slot].epoch == w.epoch
    ensures Passed(After(s, run), w)
  {
    GenerationsNeverDecrease(s, run, w.slot);
  }

  function WaitSteps(run: seq<Action>): nat {
    if run == [] then 0
    else WaitSteps(run[..|run| - 1]) + if run[|run| - 1] == WaitSlot then 1 else 0
  }

  /** Nobody registers anew in a slot the updater has still to look at. */
  predicate WaitedSlotsKept(u: Updater, run: seq<Action>)
    requires u.Waiting?
  {
    forall i, k :: 0 <= i < |run| && u.j <= k < |u.waiting| && run[i].Register? ==> run[i].r != u.waiting[k].slot
  }

  lemma PassedStep(s: State, a: Action, w: Snapshot)
    requires Enabled(s, a) && Passed(s, w)
    requires a.Register? ==> a.r != w.slot
    ensures Passed(Step(s, a), w)
  {
  }

  /** Readers that have all left once cannot stall the updater: while none of the slots it has still
      to look at is registered anew, each further look finds the next reader gone, so at most as
      many looks remain as there are entries not yet ticked off - whatever readers do meanwhile,
      and whoever registers in other slots. */
  lemma {:induction false} UpdaterNotStalled(s: State, run: seq<Action>)
    requires Inv(s) && s.upd.Waiting? && Runs(s, run) && WaitedSlotsKept(s.upd, run)
    requires forall k :: s.upd.j <= k < |s.upd.waiting| ==> Passed(s, s.upd.waiting[k])
    requires EndWait !in run
    ensures var u := After(s, run).upd;
            && u.Waiting? && u.waiting == s.upd.waiting && u.j == s.upd.j + WaitSteps(run) <= |u.waiting|
            && (forall k :: s.upd.j <= k < |u.waiting| ==> Passed(After(s, run), u.waiting[k]))
    decreases |run|
  {
    if run != [] {
      var before, a := run[..|run| - 1], run[|run| - 1];
      assert a in run;
      assert forall i :: 0 <= i < |before| ==> before[i] == run[i];
      UpdaterNotStalled(s, before);
      RunKeeps(s, before);
      var t := After(s, before);
      hide Inv, SlotInv;
      forall k | s.upd.j <= k < |s.upd.waiting| ensures Passed(Step(t, a), s.upd.waiting[k]) {
        PassedStep(t, a, s.upd.waiting[k]);
      }
    }
  }

  /** One open section and what a later state holds in its slot: the same section with the same
      counter, or a later registration or counter and, if inside, a section that began later. */
  predicate SameOrLater(s: State, s': State, r: nat)
    requires InSection(s, r) && r < |s'.slots|
  {
    var k, k' := s.slots[r], s'.slots[r];
    || (k'.epoch == k.epoch && k'.counter == k.counter && SameSection(s, s', r))
    || (&& (k'.epoch > k.epoch || (k'.epoch == k.epoch && k'.counter > k.counter))
        && (k'.stage.Inside? ==> k'.stage.since > k.stage.since))
  }

  lemma SameOrLaterStep(s: State, t: State, a: Action, r: nat)
    requires InSection(s, r) && s.slots[r].stage.since < t.now && r < |t.slots| && SameOrLater(s, t, r)
    requires Inv(t) && Enabled(t, a)
    ensures r < |Step(t, a).slots| && SameOrLater(s, Step(t, a), r)
  {
    hide SnapshotsInv, VersionsInv, SectionInv;
    if !ByReader(a) { UpdaterKeepsSlots(t, a); }
  }

  lemma {:induction false} SectionHistory(s: State, run: seq<Action>, r: nat)
    requires Inv(s) && InSection(s, r) && Runs(s, run)
    ensures After(s, run).now >= s.now && r < |After(s, run).slots| && SameOrLater(s, After(s, run), r)
    decreases |run|
  {
    assert SlotInv(s.slots[r], r, s.now, s.cur, s.upd);
    if run != [] {
      var before := run[..|run| - 1];
      SectionHistory(s, before, r);
      RunKeeps(s, before);
      hide Inv, SameOrLater, SlotInv;
      SameOrLaterStep(s, After(s, before), run[|run| - 1], r);
    }
  }

  /** Within one registration the counter tells sections apart: it has not moved exactly while the
      section is still the same one. */
  lemma CounterTellsSections(s: State, run: seq<Action>, r: nat)
    requires Inv(s) && InSection(s, r) && Runs(s, run)
    ensures r < |After(s, run).slots|
    ensures var k, k' := s.slots[r], After(s, run).slots[r];
            && (k'.epoch == k.epoch ==> (k'.counter == k.counter <==> SameSection(s, After(s, run), r)))
            && (k'.epoch != k.epoch ==> !SameSection(s, After(s, run), r))
  {
    SectionHistory(s, run, r);
  }

  function Registrations(run: seq<Action>, r: nat): nat {
    if run == [] then 0
    else Registrations(run[..|run| - 1], r) + if run[|run| - 1] == Register(r) then 1 else 0
  }

  lemma {:induction false} EpochCountsRegistrations(s: State, run: seq<Action>, r: nat)
    requires Runs(s, run) && r < |s.slots|
    ensures r < |After(s, run).slots| && After(s, run).slots[r].epoch == s.slots[r].epoch + Registrations(run, r)
    decreases |run|
  {
    if run != [] {
      var before := run[..|run| - 1];
      EpochCountsRegistrations(s, before, r);
      EpochStep(After(s, before), run[|run| - 1], r);
    }
  }

  lemma EpochStep(s: State, a: Action, r: nat)
    requires Enabled(s, a) && r < |s.slots|
    ensures r < |Step(s, a).slots|
    ensures Step(s, a).slots[r].epoch == s.slots[r].epoch + if a == Register(r) then 1 else 0
  {
    if !ByReader(a) { UpdaterKeepsSlots(s, a); }
  }

  lemma {:induction false} NoRegistrations(run: seq<Action>, r: nat)
    ensures Registrations(run, r) == 0 <==> Register(r) !in run
  {
    if run != [] {
      var before, a := run[..|run| - 1], run[|run| - 1];
      NoRegistrations(before, r);
      assert run == before + [a];
    }
  }

  /** The k-th entry of the waiting list of the call made at `called` is w, or that call is over. */
  predicate EntryKept(s: State, called: nat, k: nat, w: Snapshot) {
    match s.upd
    case Locking(_, c) => c > called
    case Scanning(_, c, _, waiting) => c > called || (c == called && k < |waiting| && waiting[k] == w)
    case Waiting(_, c, _, waiting) => c > called || (c == called && k < |waiting| && waiting[k] == w)
    case _ => true
  }

  lemma {:induction false} EntryStays(s: State, run: seq<Action>, called: nat, k: nat, w: Snapshot)
    requires Inv(s) && Runs(s, run) && called < s.now && EntryKept(s, called, k, w)
    ensures After(s, run).now >= s.now && EntryKept(After(s, run), called, k, w)
    decreases |run|
  {
    if run != [] {
      var before, a := run[..|run| - 1], run[|run| - 1];
      EntryStays(s, before, called, k, w);
      RunKeeps(s, before);
      EntryStep(After(s, before), a, called, k, w);
    }
  }

  lemma EntryStep(s: State, a: Action, called: nat, k: nat, w: Snapshot)
    requires VersionsInv(s) && Enabled(s, a) && called < s.now && EntryKept(s, called, k, w)
    ensures Step(s, a).now >= s.now && EntryKept(Step(s, a), called, k, w)
  {
  }

  /** The updater looks at entry k of its waiting list and finds the counter it took down there. */
  predicate HeldUpAt(s: State, k: nat) {
    && s.upd.Waiting? && s.upd.j == k < |s.upd.waiting|
    && s.upd.waiting[k].slot < |s.slots| && s.slots[s.upd.waiting[k].slot].counter == s.upd.waiting[k].counter
  }

  /** What holds the updater up.  A look at an entry leaves the updater where it is exactly while the
      counter there is the one it took down - and then a reader is inside a section in that slot.
      Any other counter, a smaller one after a new registration too, lets it go on to the next entry. */
  lemma HeldUpOnlyBySections(s: State)
    requires Inv(s) && Enabled(s, WaitSlot)
    ensures Step(s, WaitSlot).upd == s.upd <==> HeldUpAt(s, s.upd.j)
    ensures Step(s, WaitSlot).upd == s.upd ==> InSection(s, s.upd.waiting[s.upd.j].slot)
    ensures Step(s, WaitSlot).upd != s.upd ==> Step(s, WaitSlot).upd == s.upd.(j := s.upd.j + 1)
  {
    var w := s.upd.waiting[s.upd.j];
    assert SnapshotFits(s, w);
    OddIsInside(s, w.slot);
  }

  /** So with nobody inside any section, or anybody only inside sections of slots it does not look at,
      synchronize_rcu passes every entry in as many looks as there are entries, and returns. */
  lemma {:induction false} PassesWhenNobodyInside(s: State) returns (run: seq<Action>)
    requires Inv(s) && s.upd.Waiting?
    requires forall k :: s.upd.j <= k < |s.upd.waiting| ==> !InSection(s, s.upd.waiting[k].slot)
    ensures Runs(s, run) && |run| == |s.upd.waiting| - s.upd.j + 1
    ensures forall i :: 0 <= i < |run| ==> run[i] == if i < |run| - 1 then WaitSlot else EndWait
    ensures After(s, run).upd.Freeing?
  {
    var n := |s.upd.waiting| - s.upd.j;
    run := seq(n, _ => WaitSlot);
    LooksPass(s, n);
    hide Inv;
    var longer := run + [EndWait];
    assert longer[..n] == run;
    run := longer;
  }

  lemma {:induction false} LooksPass(s: State, n: nat)
    requires Inv(s) && s.upd.Waiting? && s.upd.j + n <= |s.upd.waiting|
    requires forall k :: s.upd.j <= k < |s.upd.waiting| ==> !InSection(s, s.upd.waiting[k].slot)
    ensures var run := seq(n, _ => WaitSlot);
            && Runs(s, run) && After(s, run).slots == s.slots
            && After(s, run).upd == s.upd.(j := s.upd.j + n) && Inv(After(s, run))
  {
    hide Inv, Step, Enabled;
    var run := seq(n, _ => WaitSlot);
    if n > 0 {
      var before := seq(n - 1, _ => WaitSlot);
      assert run[..n - 1] == before;
      LooksPass(s, n - 1);
      LookPasses(After(s, before));
    }
  }

  lemma LookPasses(t: State)
    requires Inv(t) && t.upd.Waiting? && t.upd.j < |t.upd.waiting| && !InSection(t, t.upd.waiting[t.upd.j].slot)
    ensures Enabled(t, WaitSlot) && Inv(Step(t, WaitSlot)) && Step(t, WaitSlot).slots == t.slots
    ensures Step(t, WaitSlot).upd == t.upd.(j := t.upd.j + 1)
  {
    assert SnapshotFits(t, t.upd.waiting[t.upd.j]);
    HeldUpOnlyBySections(t);
    StepKeeps(t, WaitSlot);
    UpdaterKeepsSlots(t, WaitSlot);
  }

  /** Exactly when synchronize_rcu waits for what its scan saw.  It scans a slot with an odd counter,
      so a reader in its section; if it is later held up at that entry, some section is open there,
      and it is the one the scan saw if and only if the slot has not been registered anew since. */
  lemma {:induction false} WaitsForTheScannedSection(s: State, run: seq<Action>)
    requires Inv(s) && Enabled(s, ScanSlot) && s.slots[s.upd.i].inUse && s.slots[s.upd.i].counter % 2 == 1
    requires Runs(Step(s, ScanSlot), run)
    ensures InSection(s, s.upd.i)
    ensures var r, t := s.upd.i, After(Step(s, ScanSlot), run);
            HeldUpAt(t, |s.upd.waiting|) && t.upd.called == s.upd.called ==>
              InSection(t, r) && (SameSection(s, t, r) <==> Register(r) !in run)
  {
    hide Inv;
    var r, n, w := s.upd.i, |s.upd.waiting|, Snapshot(s.upd.i, s.slots[s.upd.i].counter, s.slots[s.upd.i].epoch);
    var s1 := Step(s, ScanSlot);
    var t := After(s1, run);
    StepKeeps(s, ScanSlot);
    RunKeeps(s1, run);
    OddIsInside(s, r);
    CalledBefore(s);
    EntryStays(s1, run, s.upd.called, n, w);
    CounterTellsSections(s1, run, r);
    OddIsInside(t, r);
    EpochCountsRegistrations(s1, run, r);
    NoRegistrations(run, r);
  }

  lemma CalledBefore(s: State)
    requires Inv(s) && s.upd.Scanning?
    ensures s.upd.called < s.now
  {
  }

  lemma OddIsInside(s: State, r: nat)
    requires Inv(s) && r < |s.slots|
    ensures InSection(s, r) <==> s.slots[r].counter % 2 == 1
  {
    assert SlotInv(s.slots[r], r, s.now, s.cur, s.upd);
  }

  /** A reader enters, then an update begins. */
  lemma {:induction false} EnterThenUpdate() returns (run: seq<Action>)
    ensures Runs(Start(1), run)
    ensures var s := After(Start(1), run);
            && s.upd == Publishing(0) && s.now == 3 && |s.versions| == 2
            && s.slots == [Slot(true, 1, 0, Inside(Nothing, 1, 0), 1, 0)]
  {
    hide Runs, After;
    EmptyRun(Start(1));
    var s;
    s, run := Extend(Start(1), [], Register(0));
    s, run := Extend(Start(1), run, ReadLock(0));
    assert s.slots == [Slot(true, 1, 0, Inside(Nothing, 1, 0), 1, 0)];
    s, run := Extend(Start(1), run, BeginUpdate);
  }

  lemma {:induction false} UpdaterScans() returns (run: seq<Action>)
    ensures Runs(Start(1), run)
    ensures var s := After(Start(1), run);
            && s.upd == Scanning(0, 3, 0, []) && s.now == 5 && s.cur == 1
            && s.slots == [Slot(true, 1, 0, Inside(Nothing, 1, 0), 1, 0)]
  {
    hide Runs, After;
    var s;
    run := EnterThenUpdate();
    s, run := Extend(Start(1), run, Publish);
    s, run := Extend(Start(1), run, LockRegistry);
  }

  lemma {:induction false} UpdaterWaits() returns (run: seq<Action>)
    ensures Runs(Start(1), run)
    ensures var s := After(Start(1), run);
            && s.upd == Waiting(0, 3, 0, [Snapshot(0, 1, 1)]) && s.now == 7 && s.cur == 1
            && s.slots == [Slot(true, 1, 0, Inside(Nothing, 1, 0), 1, 0)]
  {
    hide Runs, After;
    var s;
    run := UpdaterScans();
    s, run := Extend(Start(1), run, ScanSlot);
    assert s.upd == Scanning(0, 3, 1, [Snapshot(0, 1, 1)]);
    s, run := Extend(Start(1), run, EndScan);
  }

  lemma {:induction false} ReaderLeaves() returns (run: seq<Action>)
    ensures Runs(Start(1), run)
    ensures var s := After(Start(1), run);
            && s.upd == Waiting(0, 3, 0, [Snapshot(0, 1, 1)]) && s.now == 10 && s.cur == 1
            && s.slots == [Slot(false, 2, 1, Outside, 1, 0)]
  {
    hide Runs, After;
    var s;
    run := UpdaterWaits();
    s, run := Extend(Start(1), run, ReadUnlock(0));
    s, run := Extend(Start(1), run, CountRead(0));
    s, run := Extend(Start(1), run, Unregister(0));
  }

  /** Recycling may lengthen the wait: a slot given back and registered again, so of a later epoch
      than the snapshot, can bring the counter back to it, and the updater then waits for a section
      that began after its call and that its scan never saw. */
  lemma {:induction false} RecyclingCanLengthenTheWait() returns (run: seq<Action>)
    ensures Runs(Start(1), run)
    ensures var s := After(Start(1), run);
            && s.upd.Waiting? && s.upd.j == 0 && s.upd.waiting == [Snapshot(0, 1, 1)]
            && InSection(s, 0) && s.slots[0].stage.since > s.upd.called
            && s.slots[0].epoch > s.upd.waiting[0].epoch
            && Enabled(s, WaitSlot) && Step(s, WaitSlot).upd == s.upd
  {
    hide Runs, After;
    var s;
    run := ReaderLeaves();
    s, run := Extend(Start(1), run, Register(0));
    s, run := Extend(Start(1), run, ReadLock(0));
    assert s.slots == [Slot(true, 1, 0, Inside(Nothing, 11, 1), 2, 1)];
  }

  lemma EmptyRun(s: State)
    ensures Runs(s, []) && After(s, []) == s
  {
  }

  lemma Extend(s: State, run: seq<Action>, a: Action) returns (s': State, run': seq<Action>)
    requires Runs(s, run) && Enabled(After(s, run), a)
    ensures Runs(s, run') && s' == After(s, run') == Step(After(s, run), a)
  {
    run' := run + [a];
    assert run'[..|run|] == run;
    s' := After(s, run');
  }
}
