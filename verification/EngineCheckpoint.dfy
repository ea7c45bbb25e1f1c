// What every action keeps about the snapshots on disk.
module EngineCheckpoint {
  import opened Kv
  import opened Log
  import opened LogFacts
  import opened Engine
  import opened EngineLocks
  import opened EngineLog
  import opened EngineData
  import W = Wal

  /** Every transaction in progress began above the cut. */
  predicate BegunAfter(log: seq<Record>, lsn: Lsn, txns: map<TxnId, Txn>) {
    lsn <= |log| && forall i :: 0 <= i < lsn ==> log[i].txn !in txns
  }

  /** The two stores show the same at every key outside `except`. */
  ghost predicate SameExcept(a: Store, b: Store, except: set<Key>) {
    forall k :: k !in except ==> Read(a, k) == Read(b, k)
  }

  ghost predicate SnapshotOk(s: State, snap: Snapshot) {
    var log := W.All(s.wal);
    && snap.lsn <= |s.wal.written|
    && CleanCut(log, snap.lsn)
    && BegunAfter(log, snap.lsn, s.txns)
    && SameExcept(snap.store, Fold(log[..snap.lsn]), snap.leaked)
    && snap.leaked <= s.leaked
  }

  ghost predicate CheckpointInv(s: State) {
    && SnapshotOk(s, s.snapshot)
    && (s.checkpoint.Drafted? ==> SnapshotOk(s, s.checkpoint.draft) && s.snapshot.lsn <= s.checkpoint.draft.lsn)
    && (s.checkpoint.Installed? ==> s.checkpoint.lsn == s.snapshot.lsn)
    && s.truncated <= s.snapshot.lsn && s.truncated <= s.wal.durable
  }

  // ---------------------------------------------------------------- framing

  lemma SnapshotAppend(s: State, s': State, t: TxnId, b: Body, snap: Snapshot)
    requires W.WalOk(s.wal) && SnapshotOk(s, snap) && t in s.txns
    requires s'.wal == W.Append(s.wal, t, b) && s'.leaked == s.leaked && s'.txns.Keys <= s.txns.Keys
    ensures SnapshotOk(s', snap)
  {
    var log := W.All(s.wal);
    W.AppendAll(s.wal, t, b);
    assert (log + [Record(s.wal.nextLsn, t, b)])[..snap.lsn] == log[..snap.lsn];
  }

  lemma SnapshotStays(s: State, s': State, snap: Snapshot)
    requires SnapshotOk(s, snap) && W.All(s'.wal) == W.All(s.wal) && |s'.wal.written| >= |s.wal.written|
    requires s'.txns.Keys <= s.txns.Keys && s.leaked <= s'.leaked
    ensures SnapshotOk(s', snap)
  {
  }

  lemma SnapshotBegin(s: State, s': State, snap: Snapshot)
    requires LogInv(s) && SnapshotOk(s, snap) && s'.wal == s.wal && s'.leaked == s.leaked
    requires s'.txns.Keys == s.txns.Keys + {s.nextTxn}
    ensures SnapshotOk(s', snap)
  {
  }

  ghost predicate SameDisk(s: State, s': State) {
    s'.snapshot == s.snapshot && s'.checkpoint == s.checkpoint && s'.truncated == s.truncated
  }

  lemma AppendKeeps(s: State, s': State, t: TxnId, b: Body)
    requires W.WalOk(s.wal) && CheckpointInv(s) && t in s.txns && SameDisk(s, s')
    requires s'.wal == W.Append(s.wal, t, b) && s'.leaked == s.leaked && s'.txns.Keys <= s.txns.Keys
    ensures CheckpointInv(s')
  {
    SnapshotAppend(s, s', t, b, s.snapshot);
    if s.checkpoint.Drafted? {
      SnapshotAppend(s, s', t, b, s.checkpoint.draft);
    }
  }

  lemma StayKeeps(s: State, s': State)
    requires CheckpointInv(s) && SameDisk(s, s') && W.All(s'.wal) == W.All(s.wal)
    requires |s'.wal.written| >= |s.wal.written| && s'.wal.durable >= s.wal.durable
    requires s'.txns.Keys <= s.txns.Keys && s.leaked <= s'.leaked
    ensures CheckpointInv(s')
  {
    SnapshotStays(s, s', s.snapshot);
    if s.checkpoint.Drafted? {
      SnapshotStays(s, s', s.checkpoint.draft);
    }
  }

  lemma BeginKeeps(s: State, session: SessionId, level: Isolation)
    requires LogInv(s) && CheckpointInv(s) && Enabled(s, BeginTxn(session, level))
    ensures CheckpointInv(Do(s, BeginTxn(session, level)))
  {
    var s' := Do(s, BeginTxn(session, level));
    assert s'.txns.Keys == s.txns.Keys + {s.nextTxn};
    SnapshotBegin(s, s', s.snapshot);
    if s.checkpoint.Drafted? {
      SnapshotBegin(s, s', s.checkpoint.draft);
    }
  }

  // ---------------------------------------------------------------- drafting

  lemma {:induction false} FoldNoCommit(log: seq<Record>, n: nat)
    requires n <= |log| && forall i :: n <= i < |log| ==> log[i].body != Commit
    ensures Fold(log) == Fold(log[..n])
  {
    if n < |log| {
      var init := log[..|log| - 1];
      FoldNoCommit(init, n);
      assert init[..n] == log[..n];
    } else {
      assert log[..n] == log;
    }
  }

  /** With no transaction in progress, store and flushed mark fit together. */
  lemma DraftKeeps(s: State)
    requires LogInv(s) && DataInv(s) && CheckpointInv(s) && Enabled(s, DraftSnapshot)
    ensures CheckpointInv(Do(s, DraftSnapshot))
  {
    var s' := Do(s, DraftSnapshot);
    var log := W.All(s.wal);
    var n := s.wal.flushed;
    W.CoverKeeps(s.wal);
    SnapshotStays(s, s', s.snapshot);
    forall i | n <= i < |log| ensures log[i].body != Commit {
    }
    FoldNoCommit(log, n);
    forall k | k !in s.leaked ensures Read(s.store, k) == Read(Fold(log[..n]), k) {
      assert Agrees(s, SerialStore(s), k);
    }
    assert SnapshotOk(s', s'.checkpoint.draft);
  }

  lemma CheckpointInvStep(s: State, a: Action)
    requires LogInv(s) && DataInv(s) && CheckpointInv(s) && Enabled(s, a)
    ensures CheckpointInv(Do(s, a))
  {
    var s' := Do(s, a);
    match a
    case BeginTxn(session, level) => BeginKeeps(s, session, level);
    case By(t, m) => MoveKeeps(s, t, m);
    case Fetch => W.FetchKeeps(s.wal); StayKeeps(s, s');
    case WriteRecord => W.WriteOneKeeps(s.wal); StayKeeps(s, s');
    case PassOn => W.PassKeeps(s.wal); StayKeeps(s, s');
    case Sync => W.SyncKeeps(s.wal); StayKeeps(s, s');
    case DraftSnapshot => DraftKeeps(s);
    case InstallSnapshot => SnapshotStays(s, s', s.checkpoint.draft);
    case Truncate => W.CoverKeeps(s.wal); SnapshotStays(s, s', s.snapshot);
  }

  lemma MoveKeeps(s: State, t: TxnId, m: Move)
    requires LogInv(s) && CheckpointInv(s) && CanMove(s, t, m)
    ensures CheckpointInv(DoMove(s, t, m))
  {
    match m
    case LogBegin => LoggingKeeps(s, t, m, Begin);
    case LogNext => LoggingKeeps(s, t, m, Change(s.txns[t].pc.todo[0]));
    case LogCommit => LoggingKeeps(s, t, m, Commit);
    case AbortTxn => LoggingKeeps(s, t, m, Abort);
    case _ => SilentKeeps(s, t, m);
  }

  lemma LoggingKeeps(s: State, t: TxnId, m: Move, b: Body)
    requires W.WalOk(s.wal) && CheckpointInv(s) && CanMove(s, t, m) && DoMove(s, t, m).wal == W.Append(s.wal, t, b)
    requires m == LogBegin || m == LogNext || m == LogCommit || m == AbortTxn
    ensures CheckpointInv(DoMove(s, t, m))
  {
    MoveIsLocal(s, t, m);
    AppendKeeps(s, DoMove(s, t, m), t, b);
  }

  lemma SilentKeeps(s: State, t: TxnId, m: Move)
    requires CheckpointInv(s) && CanMove(s, t, m)
    requires m != LogBegin && m != LogNext && m != LogCommit && m != AbortTxn
    ensures CheckpointInv(DoMove(s, t, m))
  {
    MoveIsLocal(s, t, m);
    StayKeeps(s, DoMove(s, t, m));
  }
}
