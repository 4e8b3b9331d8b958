/**
 The RCU in the program's own form: a registry array and a table whose fields are
 overwritten, with the loops of rcu_register, fill and synchronize_rcu.
 */
module RcuObject {
  import opened Rcu
  import opened RcuInvariant
  import opened RcuTheorems

  /** fill: write every value of a version. */
  method Fill(gen: int) returns (v: Version)
    ensures v == Filled(gen)
  {
    var val := new int[TABLE_KEYS];
    for k := 0 to TABLE_KEYS
      invariant forall i :: 0 <= i < k ==> val[i] == gen * TABLE_KEYS + i
    {
      val[k] := gen * TABLE_KEYS + k;
    }
    assert val[..] == Filled(gen).val;
    v := Version(gen, val[..]);
  }

  class RcuTable {
    const slots: array<Slot>
    var now: nat
    var versions: seq<Version>
    var cur: nat
    var latest: nat
    var retired: seq<nat>
    var freed: nat
    var upd: Updater
    var usedFreed: bool

    ghost function View(): State
      reads this, slots
    {
      State(now, slots[..], versions, cur, latest, retired, freed, upd, usedFreed)
    }

    ghost predicate Valid()
      reads this, slots
    {
      Inv(View())
    }

    constructor (n: nat)
      ensures Valid() && View() == Start(n) && fresh(slots)
    {
      slots := new Slot[n](_ => Unused);
      var v := Fill(0);
      now, versions, cur, latest, retired, freed, upd, usedFreed := 0, [v], 0, 0, [], 0, Resting, false;
      new;
      assert slots[..] == Start(n).slots;
    }

    /** rcu_register: the first slot not in use, or -1 when all are taken. */
    method RegisterReader() returns (r: int)
      requires Valid() && !upd.Scanning?
      modifies this, slots
      ensures Valid()
      ensures r == -1 ==> View() == old(View()) && forall q :: 0 <= q < slots.Length ==> slots[q].inUse
      ensures r != -1 ==> 0 <= r && Enabled(old(View()), Register(r)) && View() == Step(old(View()), Register(r))
    {
      for i := 0 to slots.Length
        invariant View() == old(View())
        invariant forall q :: 0 <= q < i ==> slots[q].inUse
      {
        if !slots[i].inUse {
          ghost var s := View();
          StepKeeps(s, Register(i));
          slots[i] := Slot(true, 0, 0, Outside, slots[i].epoch + 1, cur);
          now := now + 1;
          assert View() == Step(s, Register(i));
          return i;
        }
      }
      return -1;
    }

    /** Registration and section boundaries. */
    method SlotDoes(a: Action)
      requires Enabled(View(), a)
      requires a.Register? || a.Unregister? || a.ReadLock? || a.ReadUnlock? || a.CountRead? || a.Dereference?
      modifies this, slots
      ensures View() == Step(old(View()), a) && upd == old(upd)
    {
      ghost var s := View();
      var k := slots[a.r];
      match a {
        case Register(r) => slots[r] := Slot(true, 0, 0, Outside, k.epoch + 1, cur);
        case Unregister(r) => slots[r] := k.(inUse := false);
        case ReadLock(r) => slots[r] := k.(counter := k.counter + 1, stage := Inside(Nothing, now, cur));
        case Dereference(r) => slots[r] := k.(stage := k.stage.(held := Pointer(cur)), seen := cur);
        case ReadUnlock(r) => slots[r] := k.(counter := k.counter + 1, stage := Leaving);
        case CountRead(r) => slots[r] := k.(finished := k.finished + 1, stage := Outside);
      }
      now := now + 1;
      assert slots[..] == s.slots[a.r := ReaderSlot(s, k, a)];
    }

    /** The two reads of a lookup, from a version that is there to be read. */
    method LookupDoes(a: Action)
      requires Valid() && Enabled(View(), a) && (a.ReadValue? || a.CheckGen?)
      modifies this, slots
      ensures View() == Step(old(View()), a) && upd == old(upd)
    {
      ghost var s := View();
      ReaderSlotKeeps(s, a);
      var h := slots[a.r].stage.held;
      HeldIsLive(s, a.r);
      LiveIsFilled(s, h.v);
      hide Inv;
      if a.ReadValue? {
        slots[a.r] := slots[a.r].(stage := slots[a.r].stage.(held := Value(h.v, a.key, versions[h.v].val[a.key])));
      } else {
        var ok := h.x == versions[h.v].gen * TABLE_KEYS + h.key;
        slots[a.r] := slots[a.r].(stage := slots[a.r].stage.(held := Checked(h.v, h.key, h.x, ok)));
      }
      now := now + 1;
      assert slots[..] == s.slots[a.r := ReaderSlot(s, s.slots[a.r], a)];
    }

    /** Any one step of a reader, in place. */
    method ReaderDoes(a: Action)
      requires Valid() && Enabled(View(), a) && ByReader(a)
      modifies this, slots
      ensures Valid() && View() == Step(old(View()), a) && upd == old(upd)
    {
      StepKeeps(View(), a);
      hide Inv, Step, Enabled;
      if a.ReadValue? || a.CheckGen? {
        LookupDoes(a);
      } else {
        SlotDoes(a);
      }
    }

    /** What the readers do between two loads of the updater: any of their steps that are possible. */
    method Others(batch: seq<Action>, ghost start: State, ghost run: seq<Action>) returns (ghost run': seq<Action>)
      requires Valid() && Runs(start, run) && After(start, run) == View()
      modifies this, slots
      ensures Valid() && Runs(start, run') && After(start, run') == View()
      ensures upd == old(upd)
    {
      run' := run;
      for i := 0 to |batch|
        invariant Valid() && Runs(start, run') && After(start, run') == View()
        invariant upd == old(upd)
      {
        if ByReader(batch[i]) && CanDo(batch[i]) {
          ghost var s;
          s, run' := Extend(start, run', batch[i]);
          ReaderDoes(batch[i]);
        }
      }
    }

    predicate CanDo(a: Action)
      requires ByReader(a)
      reads this, slots
      ensures CanDo(a) == Enabled(View(), a)
    {
      match a
      case Register(r) =>
        !upd.Scanning? && r < slots.Length && !slots[r].inUse && forall q :: 0 <= q < r ==> slots[q].inUse
      case Unregister(r) => !upd.Scanning? && r < slots.Length && slots[r].inUse && slots[r].stage == Outside
      case ReadLock(r) => r < slots.Length && slots[r].inUse && slots[r].stage == Outside
      case Dereference(r) => r < slots.Length && slots[r].stage.Inside?
      case ReadValue(r, key) =>
        r < slots.Length && slots[r].stage.Inside? && slots[r].stage.held.Pointer? && key < TABLE_KEYS
      case CheckGen(r) => r < slots.Length && slots[r].stage.Inside? && slots[r].stage.held.Value?
      case ReadUnlock(r) => r < slots.Length && slots[r].stage.Inside?
      case CountRead(r) => r < slots.Length && slots[r].stage == Leaving
    }

    /** The updater's steps on the table itself. */
    method TableDoes(a: Action)
      requires Valid() && Enabled(View(), a) && (a.BeginUpdate? || a.Publish? || a.FreeOld? || a.EndUpdate?)
      modifies this
      ensures View() == Step(old(View()), a)
    {
      LatestIsThere(View());
      hide Inv;
      match a {
        case BeginUpdate =>
          var nv := Fill(versions[latest].gen + 1);
          versions, upd := versions + [nv], Publishing(latest);
        case Publish =>
          cur, latest, upd := |versions| - 1, |versions| - 1, Locking(upd.prev, now);
        case FreeOld => retired, upd := retired + [upd.prev], Counting;
        case EndUpdate => freed, upd := freed + 1, Resting;
      }
      now := now + 1;
    }

    /** The updater's steps inside synchronize_rcu. */
    method SynchronizeDoes(a: Action)
      requires Enabled(View(), a)
      requires a.LockRegistry? || a.ScanSlot? || a.EndScan? || a.WaitSlot? || a.EndWait?
      modifies this
      ensures View() == Step(old(View()), a)
    {
      match a {
        case LockRegistry => upd := Scanning(upd.prev, upd.called, 0, []);
        case ScanSlot =>
          var k := slots[upd.i];
          var waiting := upd.waiting;
          if k.inUse && k.counter % 2 == 1 {
            waiting := waiting + [Snapshot(upd.i, k.counter, k.epoch)];
          }
          upd := Scanning(upd.prev, upd.called, upd.i + 1, waiting);
        case EndScan => upd := Waiting(upd.prev, upd.called, 0, upd.waiting);
        case WaitSlot =>
          var e := upd.waiting[upd.j];
          if slots[e.slot].counter != e.counter { upd := Waiting(upd.prev, upd.called, upd.j + 1, upd.waiting); }
        case EndWait => upd := Freeing(upd.prev, upd.called);
      }
      now := now + 1;
    }

    /** One step of the updater, in place. */
    method UpdaterDoes(a: Action)
      requires Valid() && Enabled(View(), a) && !ByReader(a)
      modifies this
      ensures Valid() && View() == Step(old(View()), a)
    {
      StepKeeps(View(), a);
      hide Inv, Step, Enabled;
      if a.BeginUpdate? || a.Publish? || a.FreeOld? || a.EndUpdate? {
        TableDoes(a);
      } else {
        SynchronizeDoes(a);
      }
    }

    method Advance(a: Action, ghost start: State, ghost run: seq<Action>) returns (ghost run': seq<Action>)
      requires Valid() && Enabled(View(), a) && !ByReader(a)
      requires Runs(start, run) && After(start, run) == View()
      modifies this
      ensures Valid() && View() == Step(old(View()), a)
      ensures Runs(start, run') && After(start, run') == View()
    {
      hide Inv, Runs, After;
      ghost var s;
      s, run' := Extend(start, run, a);
      UpdaterDoes(a);
    }

    /** The first loop of synchronize_rcu: look at every slot once, under the registry lock. */
    method ScanAll(script: seq<seq<Action>>, ghost start: State, ghost run: seq<Action>)
      returns (k: nat, ghost run': seq<Action>)
      requires Valid() && Runs(start, run) && After(start, run) == View() && upd.Locking?
      modifies this, slots
      ensures Valid() && Runs(start, run') && After(start, run') == View()
      ensures upd.Waiting? && upd.called == old(upd).called && k <= |script|
    {
      hide Inv, Runs, After;
      k := 0;
      run' := Advance(LockRegistry, start, run);
      while upd.i < slots.Length
        invariant Valid() && Runs(start, run') && After(start, run') == View()
        invariant upd.Scanning? && upd.called == old(upd).called && k <= |script|
        decreases slots.Length - upd.i
      {
        run' := Advance(ScanSlot, start, run');
        if k < |script| {
          run' := Others(script[k], start, run');
          k := k + 1;
        }
      }
      run' := Advance(EndScan, start, run');
    }

    /** The updater waits at an entry, and a reader is inside a section in the slot of that entry. */
    ghost predicate StillHeldUp()
      reads this, slots
    {
      && upd.Waiting? && HeldUpAt(View(), upd.j)
      && InSection(View(), upd.waiting[upd.j].slot)
    }

    /** The second loop: wait until each snapshot is out of date.  It stops early only when
        the script has run out and the reader is still there. */
    method WaitAll(script: seq<seq<Action>>, from: nat, ghost start: State, ghost run: seq<Action>)
      returns (returned: bool, ghost run': seq<Action>)
      requires Valid() && Runs(start, run) && After(start, run) == View() && upd.Waiting? && from <= |script|
      modifies this, slots
      ensures Valid() && Runs(start, run') && After(start, run') == View()
      ensures returned ==> upd.Freeing? && upd.called == old(upd).called
      ensures !returned ==> StillHeldUp() && upd.called == old(upd).called
    {
      hide Inv, Runs, After;
      var k: nat := from;
      run' := run;
      while upd.j < |upd.waiting|
        invariant Valid() && Runs(start, run') && After(start, run') == View()
        invariant upd.Waiting? && upd.called == old(upd).called && k <= |script|
        decreases |upd.waiting| - upd.j, |script| - k
      {
        WaitedSlotsExist(View());
        var j := upd.j;
        ghost var s := View();
        run' := Advance(WaitSlot, start, run');
        if k == |script| {
          if upd.j == j {
            HeldUpStays(s);
            return false, run';
          }
        } else {
          run' := Others(script[k], start, run');
          k := k + 1;
        }
      }
      run' := Advance(EndWait, start, run');
      returned := true;
    }

    /** synchronize_rcu.  `script` says what the readers do after each of its loads; it may run
        out, and then the call has not returned only if a reader is inside a section in a slot
        that is waited for.  When it returns, every section open at the call is over. */
    method Synchronize(script: seq<seq<Action>>, ghost before: seq<Action>, ghost n: nat) returns (returned: bool)
      requires Runs(Start(n), before) && Enabled(After(Start(n), before), Publish)
      requires Valid() && View() == Step(After(Start(n), before), Publish)
      modifies this, slots
      ensures Valid()
      ensures returned ==> upd.Freeing? && forall r: nat :: !SameSection(old(View()), View(), r)
      ensures !returned ==> StillHeldUp() && upd.called == old(upd).called
    {
      hide Inv, Runs, After, Step;
      ghost var call := View();
      EmptyRun(call);
      Reachable(n, before);
      CallLocks(After(Start(n), before));
      var k;
      ghost var run;
      k, run := ScanAll(script, call, []);
      returned, run := WaitAll(script, k, call, run);
      if returned {
        forall r: nat ensures !SameSection(call, View(), r) {
          GracePeriod(n, before, run, r);
        }
      }
    }
  }

  lemma LiveIsFilled(s: State, v: nat)
    requires Inv(s) && Live(s, v)
    ensures s.versions[v] == Filled(v)
  {
  }

  lemma LatestIsThere(s: State)
    requires Inv(s)
    ensures s.latest < |s.versions|
  {
  }

  lemma WaitedSlotsExist(s: State)
    requires Inv(s) && s.upd.Waiting?
    ensures forall k :: 0 <= k < |s.upd.waiting| ==> s.upd.waiting[k].slot < |s.slots|
  {
    forall k | 0 <= k < |s.upd.waiting| ensures s.upd.waiting[k].slot < |s.slots| {
      assert SnapshotFits(s, s.upd.waiting[k]);
    }
  }

  lemma HeldUpStays(s: State)
    requires Inv(s) && Enabled(s, WaitSlot) && Step(s, WaitSlot).upd.Waiting? && Step(s, WaitSlot).upd.j == s.upd.j
    ensures HeldUpAt(Step(s, WaitSlot), s.upd.j)
    ensures InSection(Step(s, WaitSlot), s.upd.waiting[s.upd.j].slot) && Step(s, WaitSlot).upd == s.upd
  {
    HeldUpOnlyBySections(s);
  }

  lemma CallLocks(s: State)
    requires Inv(s) && Enabled(s, Publish)
    ensures Step(s, Publish).upd == Locking(s.upd.prev, s.now)
  {
  }
}
