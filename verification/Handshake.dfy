/**
 The week 4 model checker's machine: one reader and one writer of the RCU handshake on
 three memory models, with one ordering for each atomic operation site.
 */
module Handshake {

  datatype Order = Relaxed | Acquire | Release | SeqCst

  /** One ordering per site. */
  datatype Orders = Orders(announce: Order, deref: Order, exit: Order, publish: Order, scan: Order)

  datatype Model = Sequential | Tso | Arm

  datatype Var = Head | Seq

  datatype Thread = R | W

  const OLD := 1
  const NEW := 2
  const MAXBUF := 4
  const MAXTRACE := 24

  /** A buffered store; `stlr` marks one that commits only after every earlier store. */
  datatype Entry = Entry(v: Var, val: int, stlr: bool)

  datatype State = State(
    memHead: int, memSeq: int,
    bufR: seq<Entry>, bufW: seq<Entry>,
    pcR: nat, pcW: nat,
    p: int, snap: int,
    freed: bool, uaf: bool,
    ntrace: nat)

  const Init := State(OLD, 0, [], [], 0, 0, 0, 0, false, false, 0)

  function Buf(s: State, t: Thread): seq<Entry> {
    if t == R then s.bufR else s.bufW
  }

  function SetBuf(s: State, t: Thread, b: seq<Entry>): State {
    if t == R then s.(bufR := b) else s.(bufW := b)
  }

  function Mem(s: State, v: Var): int {
    if v == Head then s.memHead else s.memSeq
  }

  function SetMem(s: State, v: Var, val: int): State {
    if v == Head then s.(memHead := val) else s.(memSeq := val)
  }

  function SetPc(s: State, t: Thread, pc: nat): State {
    if t == R then s.(pcR := pc) else s.(pcW := pc)
  }

  /** The trace holds at most MAXTRACE lines. */
  function Note(s: State): State {
    if s.ntrace >= MAXTRACE then s else s.(ntrace := s.ntrace + 1)
  }

  /** The newest entry for `v` in a buffer, else memory. */
  function ReadFrom(b: seq<Entry>, v: Var, mem: int): int {
    if b == [] then mem
    else if b[|b| - 1].v == v then b[|b| - 1].val
    else ReadFrom(b[..|b| - 1], v, mem)
  }

  function ReadVar(m: Model, s: State, t: Thread, v: Var): int {
    if m.Sequential? then Mem(s, v) else ReadFrom(Buf(s, t), v, Mem(s, v))
  }

  predicate LoadEnabled(m: Model, o: Order, b: seq<Entry>) {
    m.Arm? && o.SeqCst? ==> forall i :: 0 <= i < |b| ==> !b[i].stlr
  }

  predicate StoreEnabled(m: Model, o: Order, b: seq<Entry>) {
    m.Tso? && o.SeqCst? ==> b == []
  }

  function DoStore(m: Model, o: Order, s: State, t: Thread, v: Var, val: int): State {
    if m.Sequential? || (m.Tso? && o.SeqCst?) then SetMem(s, v, val)
    else SetBuf(s, t, Buf(s, t) + [Entry(v, val, m.Arm? && !o.Relaxed?)])
  }

  predicate FlushEnabled(m: Model, b: seq<Entry>, i: nat)
    requires i < |b|
  {
    if m.Tso? then i == 0
    else forall j :: 0 <= j < i ==> b[j].v != b[i].v && !b[i].stlr
  }

  /** Only a plain store to another variable than every store before it may overtake, and never under TSO. */
  lemma OvertakesExactly(m: Model, b: seq<Entry>, i: nat)
    requires i < |b|
    ensures FlushEnabled(m, b, i)
      <==> i == 0 || (!m.Tso? && !b[i].stlr && (forall e <- b[..i] :: e.v != b[i].v))
  {
    assert i > 0 ==> b[0] == b[..i][0];
    if FlushEnabled(m, b, i) {
      forall e | e in b[..i] && i > 0 && !m.Tso? ensures e.v != b[i].v {
        var j :| 0 <= j < i && b[..i][j] == e;
        assert b[j] == e;
      }
    }
  }

  /** Reading through two parts of a buffer: the newer part first, then the older one. */
  lemma {:induction false} ReadThrough(a: seq<Entry>, b: seq<Entry>, v: Var, mem: int)
    ensures ReadFrom(a + b, v, mem) == ReadFrom(b, v, ReadFrom(a, v, mem))
  {
    if b == [] {
      assert a + b == a;
    } else {
      var last := |b| - 1;
      assert (a + b)[..|a + b| - 1] == a + b[..last];
      ReadThrough(a, b[..last], v, mem);
    }
  }

  /** A thread cannot tell which of its stores have been committed: each load sees what it saw before. */
  lemma OwnerSeesNoCommit(m: Model, b: seq<Entry>, i: nat, v: Var, mem: int)
    requires i < |b| && FlushEnabled(m, b, i)
    ensures ReadFrom(b[..i] + b[i + 1..], v, if b[i].v == v then b[i].val else mem) == ReadFrom(b, v, mem)
  {
    var older, newer := b[..i], b[i + 1..];
    ReadThrough(older, newer, v, if b[i].v == v then b[i].val else mem);
    ReadThrough(older + [b[i]], newer, v, mem);
    ReadThrough(older, [b[i]], v, mem);
    ReadOne(b[i], v, ReadFrom(older, v, mem));
    if b[i].v == v { OtherVariable(older, v, b[i].val); }
    assert b == older + [b[i]] + newer;
  }

  lemma ReadOne(e: Entry, v: Var, mem: int)
    ensures ReadFrom([e], v, mem) == if e.v == v then e.val else mem
  {
    assert [e][..0] == [];
  }

  function Left(pc: nat): nat {
    if pc < 4 then 2 * (4 - pc) else 0
  }

  /** What every move uses up. */
  function Measure(s: State): nat {
    Left(s.pcR) + Left(s.pcW) + |s.bufR| + |s.bufW|
  }

  /** The moves a state may have: the reader's next step, the writer's, a commit. */
  datatype Move = Reader | Writer | Commit(t: Thread, i: nat)

  predicate ReaderEnabled(m: Model, o: Orders, s: State) {
    match s.pcR
    case 0 => StoreEnabled(m, o.announce, s.bufR)
    case 1 => LoadEnabled(m, o.deref, s.bufR)
    case 2 => true
    case 3 => StoreEnabled(m, o.exit, s.bufR)
    case _ => false
  }

  function ReaderMove(m: Model, o: Orders, s: State): (s': State)
    requires ReaderEnabled(m, o, s)
    ensures Measure(s') < Measure(s)
  {
    match s.pcR
    case 0 => SetPc(Note(DoStore(m, o.announce, s, R, Seq, 1)), R, 1)
    case 1 => Note(s).(p := ReadVar(m, s, R, Head), pcR := 2)
    case 2 => Note(s).(uaf := s.uaf || (s.p == OLD && s.freed), pcR := 3)
    case 3 => SetPc(Note(DoStore(m, o.exit, s, R, Seq, 2)), R, 4)
  }

  predicate WriterEnabled(m: Model, o: Orders, s: State) {
    match s.pcW
    case 0 => StoreEnabled(m, o.publish, s.bufW)
    case 1 => LoadEnabled(m, o.scan, s.bufW)
    case 2 => LoadEnabled(m, o.scan, s.bufW) && ReadVar(m, s, W, Seq) != s.snap
    case 3 => true
    case _ => false
  }

  function WriterMove(m: Model, o: Orders, s: State): (s': State)
    requires WriterEnabled(m, o, s)
    ensures Measure(s') < Measure(s)
  {
    match s.pcW
    case 0 => SetPc(Note(DoStore(m, o.publish, s, W, Head, NEW)), W, 1)
    case 1 =>
      var snap := ReadVar(m, s, W, Seq);
      Note(s).(snap := snap, pcW := if snap % 2 != 0 then 2 else 3)
    case 2 => Note(s).(pcW := 3)
    case 3 => Note(s).(freed := true, pcW := 4)
  }

  function CommitMove(s: State, t: Thread, i: nat): (s': State)
    requires i < |Buf(s, t)|
    ensures Measure(s') < Measure(s)
  {
    var b := Buf(s, t);
    Note(SetBuf(SetMem(s, b[i].v, b[i].val), t, b[..i] + b[i + 1..]))
  }

  predicate Enabled(m: Model, o: Orders, s: State, mv: Move) {
    match mv
    case Reader => ReaderEnabled(m, o, s)
    case Writer => WriterEnabled(m, o, s)
    case Commit(t, i) => i < |Buf(s, t)| && FlushEnabled(m, Buf(s, t), i)
  }

  function Apply(m: Model, o: Orders, s: State, mv: Move): (s': State)
    requires Enabled(m, o, s, mv)
    ensures Measure(s') < Measure(s)
  {
    match mv
    case Reader => ReaderMove(m, o, s)
    case Writer => WriterMove(m, o, s)
    case Commit(t, i) => CommitMove(s, t, i)
  }

  /** An interleaving: a sequence of moves each of which is possible where it is made. */
  predicate Follows(m: Model, o: Orders, s: State, run: seq<Move>)
    decreases |run|
  {
    run == [] || (Enabled(m, o, s, run[0]) && Follows(m, o, Apply(m, o, s, run[0]), run[1..]))
  }

  function After(m: Model, o: Orders, s: State, run: seq<Move>): State
    requires Follows(m, o, s, run)
    decreases |run|
  {
    if run == [] then s else After(m, o, Apply(m, o, s, run[0]), run[1..])
  }

  /** Some interleaving lets the reader use the version the writer has freed. */
  ghost predicate UsesFreed(m: Model, o: Orders, s: State) {
    exists run :: Follows(m, o, s, run) && After(m, o, s, run).uaf
  }

  predicate Finished(s: State) {
    s.pcR == 4 && s.pcW == 4 && s.bufR == [] && s.bufW == []
  }

  /** True of every reachable state, whatever the orderings. */
  predicate Inv(m: Model, s: State) {
    && s.pcR <= 4 && s.pcW <= 4
    && 0 <= s.memSeq
    && s.memSeq + |s.bufR| == (if s.pcR == 0 then 0 else if s.pcR < 4 then 1 else 2)
    && (forall i :: 0 <= i < |s.bufR| ==> s.bufR[i].v == Seq && s.bufR[i].val == s.memSeq + i + 1)
    && |s.bufW| <= 1
    && (forall i :: 0 <= i < |s.bufW| ==> s.bufW[i].v == Head && s.bufW[i].val == NEW)
    && s.memHead == (if s.pcW >= 1 && s.bufW == [] then NEW else OLD)
    && (s.pcW == 0 ==> s.bufW == [])
    && (m.Sequential? ==> s.bufR == [] && s.bufW == [])
    && (s.pcW == 2 ==> s.snap == 1)
    && (s.freed <==> s.pcW == 4)
    && s.ntrace + Measure(s) <= 16
  }

  lemma ReaderStoreKeeps(m: Model, o: Order, s: State, val: int)
    requires Inv(m, s) && StoreEnabled(m, o, s.bufR)
    requires (s.pcR == 0 && val == 1) || (s.pcR == 3 && val == 2)
    ensures Inv(m, SetPc(Note(DoStore(m, o, s, R, Seq, val)), R, s.pcR + 1))
  {
  }

  lemma WriterStoreKeeps(m: Model, o: Order, s: State)
    requires Inv(m, s) && StoreEnabled(m, o, s.bufW) && s.pcW == 0
    ensures Inv(m, SetPc(Note(DoStore(m, o, s, W, Head, NEW)), W, 1))
  {
  }

  lemma ReaderMoveKeeps(m: Model, o: Orders, s: State)
    requires Inv(m, s) && ReaderEnabled(m, o, s)
    ensures Inv(m, ReaderMove(m, o, s))
  {
    hide StoreEnabled, LoadEnabled, DoStore, ReadVar, ReadFrom, Inv;
    match s.pcR {
      case 0 => ReaderStoreKeeps(m, o.announce, s, 1);
      case 3 => ReaderStoreKeeps(m, o.exit, s, 2);
      case _ => ReaderLooksKeeps(m, o, s);
    }
  }

  /** The reader's load and its use of what it loaded leave buffers and memory alone. */
  lemma ReaderLooksKeeps(m: Model, o: Orders, s: State)
    requires Inv(m, s) && ReaderEnabled(m, o, s) && s.pcR != 0 && s.pcR != 3
    ensures Inv(m, ReaderMove(m, o, s))
  {
    hide StoreEnabled, LoadEnabled, DoStore, ReadVar, ReadFrom;
  }

  lemma WriterReadsMemory(m: Model, s: State)
    requires Inv(m, s)
    ensures ReadVar(m, s, W, Seq) == s.memSeq && ReadVar(m, s, R, Head) == s.memHead
  {
    OtherVariable(s.bufW, Seq, s.memSeq);
    OtherVariable(s.bufR, Head, s.memHead);
  }

  lemma {:induction false} OtherVariable(b: seq<Entry>, v: Var, mem: int)
    requires forall i :: 0 <= i < |b| ==> b[i].v != v
    ensures ReadFrom(b, v, mem) == mem
  {
    if b != [] { OtherVariable(b[..|b| - 1], v, mem); }
  }

  lemma WriterMoveKeeps(m: Model, o: Orders, s: State)
    requires Inv(m, s) && WriterEnabled(m, o, s)
    ensures Inv(m, WriterMove(m, o, s))
  {
    hide StoreEnabled, LoadEnabled, DoStore, ReadVar;
    WriterReadsMemory(m, s);
    if s.pcW == 0 { WriterStoreKeeps(m, o.publish, s); }
  }

  lemma CommitIsFirst(m: Model, o: Orders, s: State, t: Thread, i: nat)
    requires Inv(m, s) && Enabled(m, o, s, Commit(t, i))
    ensures i == 0
  {
    assert Buf(s, t)[0].v == Buf(s, t)[i].v;
  }

  lemma ReaderCommitKeeps(m: Model, s: State)
    requires Inv(m, s) && s.bufR != []
    ensures Inv(m, CommitMove(s, R, 0))
  {
    hide CommitMove, Left;
    assert s.bufR[0].v == Seq && s.bufR[0].val == s.memSeq + 1;
    ReaderCommitIs(s);
    var rest := s.bufR[1..];
    assert forall i :: 0 <= i < |rest| ==> rest[i] == s.bufR[i + 1];
  }

  lemma ReaderCommitIs(s: State)
    requires s.bufR != [] && s.bufR[0].v == Seq
    ensures CommitMove(s, R, 0) == Note(s.(memSeq := s.bufR[0].val, bufR := s.bufR[1..]))
  {
    assert s.bufR[..0] + s.bufR[1..] == s.bufR[1..];
  }

  lemma WriterCommitKeeps(m: Model, s: State)
    requires Inv(m, s) && s.bufW != []
    ensures Inv(m, CommitMove(s, W, 0))
  {
    assert s.bufW[0].v == Head && s.bufW[0].val == NEW;
    assert s.bufW[..0] + s.bufW[1..] == [];
    assert CommitMove(s, W, 0) == Note(s.(memHead := NEW, bufW := []));
  }

  lemma CommitMoveKeeps(m: Model, o: Orders, s: State, t: Thread, i: nat)
    requires Inv(m, s) && Enabled(m, o, s, Commit(t, i))
    ensures i == 0 && Inv(m, CommitMove(s, t, i))
  {
    CommitIsFirst(m, o, s, t, i);
    hide Inv, CommitMove;
    if t == R { ReaderCommitKeeps(m, s); } else { WriterCommitKeeps(m, s); }
  }

  lemma MoveKeeps(m: Model, o: Orders, s: State, mv: Move)
    requires Inv(m, s) && Enabled(m, o, s, mv)
    ensures Inv(m, Apply(m, o, s, mv))
  {
    match mv
    case Reader => ReaderMoveKeeps(m, o, s);
    case Writer => WriterMoveKeeps(m, o, s);
    case Commit(t, i) => CommitMoveKeeps(m, o, s, t, i);
  }

  /** No execution gets stuck: where nothing can move, both threads are done and both buffers empty. */
  lemma NothingMovesOnlyAtEnd(m: Model, o: Orders, s: State)
    requires Inv(m, s) && forall mv :: !Enabled(m, o, s, mv)
    ensures Finished(s)
  {
    WriterReadsMemory(m, s);
    assert !Enabled(m, o, s, Commit(R, 0));
    assert !Enabled(m, o, s, Commit(W, 0));
    assert !Enabled(m, o, s, Reader);
    assert !Enabled(m, o, s, Writer);
  }

  /** Neither the buffers nor the trace ever reach the length of their arrays. */
  lemma {:induction false} ArraysNeverOverflow(m: Model, o: Orders, s: State, run: seq<Move>)
    requires Inv(m, s) && Follows(m, o, s, run)
    ensures var s' := After(m, o, s, run);
            Inv(m, s') && |s'.bufR| <= 2 < MAXBUF && |s'.bufW| <= 1 < MAXBUF && s'.ntrace <= 16 < MAXTRACE
    decreases |run|
  {
    if run != [] {
      MoveKeeps(m, o, s, run[0]);
      ArraysNeverOverflow(m, o, Apply(m, o, s, run[0]), run[1..]);
    }
  }

  /** The orderings that make the handshake work on a memory model. */
  predicate SafeOrders(m: Model, o: Orders) {
    match m
    case Sequential => true
    case Tso => o.announce.SeqCst? && o.publish.SeqCst?
    case Arm => o.deref.SeqCst? && o.scan.SeqCst? && !o.announce.Relaxed? && !o.publish.Relaxed?
  }

  /** With safe orderings the announcement is in memory before the reader loads, the
      publication before the writer scans, and a writer past its scan that meets a reader
      still holding OLD is waiting for it. */
  predicate SafeInv(m: Model, o: Orders, s: State) {
    && Inv(m, s)
    && (m.Tso? ==> s.bufW == [] && (s.pcR >= 1 ==> s.memSeq >= 1))
    && (m.Arm? && s.bufR != [] && s.memSeq == 0 ==> s.bufR[0].stlr)
    && (m.Arm? && s.bufW != [] ==> s.bufW[0].stlr)
    && (s.pcR >= 2 ==> s.memSeq >= 1)
    && (s.pcW >= 2 ==> s.memHead == NEW)
    && (s.pcW >= 2 && 2 <= s.pcR <= 3 && s.p == OLD ==> s.pcW == 2)
    && !s.uaf
  }

  lemma SafeReader(m: Model, o: Orders, s: State)
    requires SafeOrders(m, o) && SafeInv(m, o, s) && ReaderEnabled(m, o, s)
    ensures SafeInv(m, o, ReaderMove(m, o, s))
  {
    hide ReadVar;
    WriterReadsMemory(m, s);
    ReaderMoveKeeps(m, o, s);
  }

  lemma SafeWriter(m: Model, o: Orders, s: State)
    requires SafeOrders(m, o) && SafeInv(m, o, s) && WriterEnabled(m, o, s)
    ensures SafeInv(m, o, WriterMove(m, o, s))
  {
    hide ReadVar;
    WriterReadsMemory(m, s);
    WriterMoveKeeps(m, o, s);
  }

  lemma SafeCommit(m: Model, o: Orders, s: State, t: Thread, i: nat)
    requires SafeOrders(m, o) && SafeInv(m, o, s) && Enabled(m, o, s, Commit(t, i))
    ensures SafeInv(m, o, CommitMove(s, t, i))
  {
    CommitMoveKeeps(m, o, s, t, i);
  }

  lemma SafeMove(m: Model, o: Orders, s: State, mv: Move)
    requires SafeOrders(m, o) && SafeInv(m, o, s) && Enabled(m, o, s, mv)
    ensures SafeInv(m, o, Apply(m, o, s, mv))
  {
    hide SafeInv, ReaderMove, WriterMove, CommitMove, SafeOrders;
    match mv
    case Reader => SafeReader(m, o, s);
    case Writer => SafeWriter(m, o, s);
    case Commit(t, i) => SafeCommit(m, o, s, t, i);
  }

  lemma {:induction false} SafeRun(m: Model, o: Orders, s: State, run: seq<Move>)
    requires SafeOrders(m, o) && SafeInv(m, o, s) && Follows(m, o, s, run)
    ensures !After(m, o, s, run).uaf
    decreases |run|
  {
    if run != [] {
      SafeMove(m, o, s, run[0]);
      SafeRun(m, o, Apply(m, o, s, run[0]), run[1..]);
    }
  }

  lemma Prepend(m: Model, o: Orders, s: State, mv: Move)
    requires Enabled(m, o, s, mv) && UsesFreed(m, o, Apply(m, o, s, mv))
    ensures UsesFreed(m, o, s)
  {
    var run :| Follows(m, o, Apply(m, o, s, mv), run) && After(m, o, Apply(m, o, s, mv), run).uaf;
    assert ([mv] + run)[1..] == run;
    assert Follows(m, o, s, [mv] + run) && After(m, o, s, [mv] + run).uaf;
  }

  lemma AlreadyUsed(m: Model, o: Orders, s: State)
    requires s.uaf
    ensures UsesFreed(m, o, s)
  {
    assert Follows(m, o, s, []) && After(m, o, s, []).uaf;
  }

  lemma FreeThenUse(m: Model, o: Orders, s: State)
    requires s.pcW == 3 && s.pcR == 2 && s.p == OLD
    ensures UsesFreed(m, o, s)
  {
    hide UsesFreed;
    var s1 := Apply(m, o, s, Writer);
    AlreadyUsed(m, o, Apply(m, o, s1, Reader));
    Prepend(m, o, s1, Reader);
    Prepend(m, o, s, Writer);
  }

  lemma ScanThenFree(m: Model, o: Orders, s: State)
    requires s.pcW == 1 && s.bufW == [] && s.memSeq == 0 && s.pcR == 2 && s.p == OLD
    ensures UsesFreed(m, o, s)
  {
    hide UsesFreed;
    FreeThenUse(m, o, Apply(m, o, s, Writer));
    Prepend(m, o, s, Writer);
  }

  lemma PublishThenScan(m: Model, o: Orders, s: State)
    requires s.pcW == 0 && s.bufW == [] && s.memSeq == 0 && s.pcR == 2 && s.p == OLD
    ensures UsesFreed(m, o, s)
  {
    hide UsesFreed, ReadVar, ReadFrom, LoadEnabled, Measure, Left;
    var s1 := Apply(m, o, s, Writer);
    if s1.bufW == [] {
      ScanThenFree(m, o, s1);
    } else {
      ScanThenFree(m, o, Apply(m, o, s1, Commit(W, 0)));
      Prepend(m, o, s1, Commit(W, 0));
    }
    Prepend(m, o, s, Writer);
  }

  lemma LoadThenFree(m: Model, o: Orders, s: State)
    requires s.pcW == 3 && s.pcR == 1 && s.bufR == [] && s.memHead == OLD
    ensures UsesFreed(m, o, s)
  {
    hide UsesFreed;
    FreeThenUse(m, o, Apply(m, o, s, Reader));
    Prepend(m, o, s, Reader);
  }

  lemma AnnounceThenLoad(m: Model, o: Orders, s: State)
    requires s.pcW == 3 && s.pcR == 0 && s.bufR == [] && s.memHead == OLD
    ensures UsesFreed(m, o, s)
  {
    hide UsesFreed, ReadVar, ReadFrom, LoadEnabled, Measure, Left;
    var s1 := Apply(m, o, s, Reader);
    if s1.bufR == [] {
      LoadThenFree(m, o, s1);
    } else {
      LoadThenFree(m, o, Apply(m, o, s1, Commit(R, 0)));
      Prepend(m, o, s1, Commit(R, 0));
    }
    Prepend(m, o, s, Reader);
  }

  /** The reader's announcement is still buffered when it loads OLD and the writer scans. */
  lemma ReaderOvertakes(m: Model, o: Orders)
    requires (m.Tso? && !o.announce.SeqCst?) || (m.Arm? && (!o.deref.SeqCst? || o.announce.Relaxed?))
    ensures UsesFreed(m, o, Init)
  {
    hide UsesFreed, ReadFrom, Measure, Left;
    var s1 := Apply(m, o, Init, Reader);
    assert s1.bufR == [Entry(Seq, 1, m.Arm? && !o.announce.Relaxed?)];
    OtherVariable(s1.bufR, Head, OLD);
    PublishThenScan(m, o, Apply(m, o, s1, Reader));
    Prepend(m, o, s1, Reader);
    Prepend(m, o, Init, Reader);
  }

  /** The writer's publication is still buffered when it scans and the reader loads. */
  lemma WriterOvertakes(m: Model, o: Orders)
    requires (m.Tso? && !o.publish.SeqCst?) || (m.Arm? && (!o.scan.SeqCst? || o.publish.Relaxed?))
    ensures UsesFreed(m, o, Init)
  {
    hide UsesFreed, ReadFrom, Measure, Left;
    var s1 := Apply(m, o, Init, Writer);
    assert s1.bufW == [Entry(Head, NEW, m.Arm? && !o.publish.Relaxed?)];
    OtherVariable(s1.bufW, Seq, 0);
    AnnounceThenLoad(m, o, Apply(m, o, s1, Writer));
    Prepend(m, o, s1, Writer);
    Prepend(m, o, Init, Writer);
  }

  /** Exactly which orderings are safe: for every choice of all five, some interleaving uses
      a freed version if and only if the orderings are not the safe ones.  EXIT never matters. */
  lemma ExactOrderings(m: Model, o: Orders)
    ensures UsesFreed(m, o, Init) <==> !SafeOrders(m, o)
  {
    if SafeOrders(m, o) {
      forall run | Follows(m, o, Init, run) ensures !After(m, o, Init, run).uaf {
        SafeRun(m, o, Init, run);
      }
    } else if (m.Tso? && !o.announce.SeqCst?) || (m.Arm? && (!o.deref.SeqCst? || o.announce.Relaxed?)) {
      ReaderOvertakes(m, o);
    } else {
      WriterOvertakes(m, o);
    }
  }

  /** Safe on all three models at once means seq_cst at the four sites of the handshake. */
  lemma SafeEverywhere(o: Orders)
    ensures (forall m :: SafeOrders(m, o)) <==>
              o.announce.SeqCst? && o.deref.SeqCst? && o.publish.SeqCst? && o.scan.SeqCst?
  {
    assert (forall m :: SafeOrders(m, o)) ==> SafeOrders(Tso, o) && SafeOrders(Arm, o);
  }
}
