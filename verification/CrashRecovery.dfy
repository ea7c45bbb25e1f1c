// What survives a crash, over every run and every cut of the log.
module CrashRecovery {
  import opened Kv
  import opened Log
  import opened LogFacts
  import opened Recovery
  import opened Serial
  import opened Engine
  import opened EngineLog
  import opened EngineData
  import opened EngineCheckpoint
  import opened Runs
  import Serializability
  import W = Wal

  function CommitCount(log: seq<Record>): nat {
    if log == [] then 0
    else CommitCount(log[..|log| - 1]) + (if log[|log| - 1].body == Commit then 1 else 0)
  }

  /** A prefix of the log matches the history up to the last COMMIT in it. */
  lemma {:induction false} PrefixMatches(log: seq<Record>, history: seq<Done>, n: nat)
    requires Matches(log, history) && n <= |log|
    ensures CommitCount(log[..n]) <= |history|
    ensures Matches(log[..n], history[..CommitCount(log[..n])])
    decreases |log|
  {
    if n == |log| {
      assert log[..n] == log;
      AllCounted(log, history);
      assert history[..|history|] == history;
    } else {
      var init := log[..|log| - 1];
      assert init[..n] == log[..n];
      if log[|log| - 1].body != Commit {
        PrefixMatches(init, history, n);
      } else {
        var before := history[..|history| - 1];
        PrefixMatches(init, before, n);
        assert before[..CommitCount(log[..n])] == history[..CommitCount(log[..n])];
      }
    }
  }

  lemma {:induction false} AllCounted(log: seq<Record>, history: seq<Done>)
    requires Matches(log, history)
    ensures CommitCount(log) == |history|
  {
    if log != [] {
      var init := log[..|log| - 1];
      if log[|log| - 1].body != Commit {
        AllCounted(init, history);
      } else {
        AllCounted(init, history[..|history| - 1]);
      }
    }
  }

  /** How many records of the log stream a crash may leave: at least those a sync has covered. */
  predicate Survives(s: State, n: nat) {
    s.wal.durable <= n <= |s.wal.written|
  }

  /** How far the disk then reaches: the surviving records, or further if the snapshot covers more. */
  function Reach(s: State, n: nat): (m: nat)
    ensures n <= m && s.snapshot.lsn <= m && (m == n || m == s.snapshot.lsn)
  {
    if n < s.snapshot.lsn then s.snapshot.lsn else n
  }

  function Reached(s: State, n: nat): seq<Record> {
    s.wal.written[..Lower(Reach(s, n), |s.wal.written|)]
  }

  /** What recovery makes of the disk when the first `n` written records survive. */
  function FromDisk(s: State, n: nat): Store
    requires s.truncated <= n <= |s.wal.written|
  {
    Recovered(s.snapshot.store, s.snapshot.lsn, s.wal.written[s.truncated..n])
  }

  lemma WrittenPrefix(w: W.Wal, from: nat, n: nat)
    requires from <= n <= |w.written|
    ensures w.written[..n] == W.All(w)[..n] && w.written[from..n] == W.All(w)[..n][from..]
  {
  }

  /** At this key the snapshot shows the serial result of the transactions it covers. */
  predicate SnapshotRight(s: State, snap: Snapshot, k: Key) {
    snap.lsn <= |s.wal.written| && Read(snap.store, k) == Read(Fold(s.wal.written[..snap.lsn]), k)
  }

  /** At this key recovery cannot go wrong: the snapshot is right, or a surviving commit above it wrote the key. */
  predicate RightAt(s: State, snap: Snapshot, n: nat, k: Key) {
    || SnapshotRight(s, snap, k)
    || (snap.lsn <= n <= |s.wal.written| && Rewrites(s.wal.written[snap.lsn..n], k))
  }

  lemma SnapshotRightOutside(s: State, snap: Snapshot, k: Key)
    requires SnapshotOk(s, snap) && k !in snap.leaked
    ensures SnapshotRight(s, snap, k)
  {
    WrittenPrefix(s.wal, 0, snap.lsn);
  }

  /** With the snapshot inside the surviving log, recovery gives the meaning of that log where it can. */
  lemma RecoversPrefix(s: State, snap: Snapshot, from: nat, n: nat, k: Key)
    requires LogInv(s) && SnapshotOk(s, snap) && from <= snap.lsn <= n <= |s.wal.written|
    ensures var store := Recovered(snap.store, snap.lsn, s.wal.written[from..n]);
      Read(store, k) == Read(Fold(s.wal.written[..n]), k) <==> RightAt(s, snap, n, k)
  {
    var log := W.All(s.wal);
    var p := log[..n];
    WrittenPrefix(s.wal, from, n);
    WrittenPrefix(s.wal, snap.lsn, n);
    WrittenPrefix(s.wal, 0, snap.lsn);
    assert forall i :: 0 <= i < n ==> p[i] == log[i];
    assert p[..snap.lsn] == log[..snap.lsn];
    SnapshotStandsForPrefix(p, snap.store, snap.lsn, from, k);
  }

  /** With the surviving log inside the snapshot, recovery gives the snapshot. */
  lemma RecoversSnapshot(s: State, snap: Snapshot, from: nat, n: nat, k: Key)
    requires LogInv(s) && SnapshotOk(s, snap) && from <= n <= snap.lsn
    ensures var store := Recovered(snap.store, snap.lsn, s.wal.written[from..n]);
      Read(store, k) == Read(Fold(s.wal.written[..snap.lsn]), k) <==> RightAt(s, snap, n, k)
  {
    WrittenPrefix(s.wal, from, n);
    AboveNothing(s.wal.written[from..n], snap.lsn);
  }

  /** What recovery makes of a snapshot and part of the log, against the meaning of the longer of the two. */
  lemma RecoversLonger(s: State, snap: Snapshot, from: nat, n: nat, k: Key)
    requires LogInv(s) && SnapshotOk(s, snap) && from <= snap.lsn && from <= n <= |s.wal.written|
    ensures var store := Recovered(snap.store, snap.lsn, s.wal.written[from..n]);
      var m := if n < snap.lsn then snap.lsn else n;
      Read(store, k) == Read(Fold(s.wal.written[..m]), k) <==> RightAt(s, snap, n, k)
    ensures k !in snap.leaked ==> RightAt(s, snap, n, k)
  {
    if n < snap.lsn {
      RecoversSnapshot(s, snap, from, n, k);
    } else {
      RecoversPrefix(s, snap, from, n, k);
    }
    if k !in snap.leaked {
      SnapshotRightOutside(s, snap, k);
    }
  }

  lemma FoldOfPrefix(s: State, n: nat)
    requires DataInv(s) && n <= |s.wal.written|
    ensures CommitCount(s.wal.written[..n]) <= |s.history|
    ensures Fold(s.wal.written[..n]) == RunAll(s.history[..CommitCount(s.wal.written[..n])])
  {
    WrittenPrefix(s.wal, 0, n);
    PrefixMatches(W.All(s.wal), s.history, n);
    MatchesFold(W.All(s.wal)[..n], s.history[..CommitCount(W.All(s.wal)[..n])]);
  }

  /** The transactions that count are exactly those whose COMMIT record survives. */
  lemma CountedCommits(s: State, n: nat, i: nat)
    requires LogInv(s) && DataInv(s) && n <= |s.wal.written| && i < |s.history|
    ensures CommitCount(s.wal.written[..n]) <= |s.history|
    ensures i < CommitCount(s.wal.written[..n]) <==> s.history[i].lsn <= n
  {
    var log := W.All(s.wal);
    WrittenPrefix(s.wal, 0, n);
    var c := CommitCount(log[..n]);
    PrefixMatches(log, s.history, n);
    assert Numbered(log[..n]);
    Serializability.HistoryAt(log, s.history, i);
    if i < c {
      Serializability.HistoryAt(log[..n], s.history[..c], i);
    } else if s.history[i].lsn <= n {
      var j := Serializability.HistoryCovers(log[..n], s.history[..c], s.history[i].lsn - 1);
      Serializability.HistoryAscends(log, s.history, j, i);
    }
  }

  /**
   * Exactly the transactions whose COMMIT record is among the first `n` or covered by the
   * snapshot count. The store shows the result of running them one by one in LSN order at
   * exactly those keys where the snapshot shows the result of those it covers, or where a
   * later one that counts wrote the key. The snapshot can be off only at keys leaked before
   * it was drafted; so if there were none, or there is no snapshot, the store is that result.
   */
  ghost predicate BringsBack(s: State, n: nat, store: Store) {
    && Reach(s, n) <= |s.wal.written|
    && var c := CommitCount(s.wal.written[..Reach(s, n)]);
    && c <= |s.history|
    && (forall k :: Read(store, k) == Read(RunAll(s.history[..c]), k) <==> RightAt(s, s.snapshot, n, k))
    && (forall k :: k !in s.snapshot.leaked ==> SnapshotRight(s, s.snapshot, k))
    && s.snapshot.leaked <= s.leaked
    && (s.snapshot.leaked == {} ==> store == RunAll(s.history[..c]))
    && (forall i :: 0 <= i < |s.history| ==> (i < c <==> s.history[i].lsn <= Reach(s, n)))
  }

  /**
   * Crash atomicity. After any run, and whatever prefix of the written records a crash
   * leaves, recovery from the disk yields the store of running, one by one in LSN order,
   * exactly the transactions whose COMMIT record survived in the log or is covered by the
   * snapshot; never part of one. At a key where a checkpoint has saved a store that had gone
   * apart from the log, it does so exactly if a surviving later commit wrote the key.
   */
  lemma CrashIsAtomic(run: seq<Action>, n: nat)
    requires Legal(run) && Survives(After(run), n)
    ensures After(run).truncated <= n && BringsBack(After(run), n, FromDisk(After(run), n))
  {
    InvAlways(run);
    var s := After(run);
    var m := Reach(s, n);
    FoldOfPrefix(s, m);
    var serial := Fold(s.wal.written[..m]);
    forall k
      ensures Read(FromDisk(s, n), k) == Read(serial, k) <==> RightAt(s, s.snapshot, n, k)
      ensures k !in s.snapshot.leaked ==> SnapshotRight(s, s.snapshot, k)
    {
      RecoversAt(s, n, k);
    }
    if s.snapshot.leaked == {} {
      StoresEqual(FromDisk(s, n), serial);
    }
    forall i | 0 <= i < |s.history|
      ensures i < CommitCount(s.wal.written[..m]) <==> s.history[i].lsn <= m
    {
      CountedCommits(s, m, i);
    }
  }

  lemma RecoversAt(s: State, n: nat, k: Key)
    requires LogInv(s) && CheckpointInv(s) && s.truncated <= n <= |s.wal.written|
    ensures Read(FromDisk(s, n), k) == Read(Fold(s.wal.written[..Reach(s, n)]), k) <==> RightAt(s, s.snapshot, n, k)
    ensures k !in s.snapshot.leaked ==> SnapshotRight(s, s.snapshot, k)
  {
    RecoversLonger(s, s.snapshot, s.truncated, n, k);
    if k !in s.snapshot.leaked {
      SnapshotRightOutside(s, s.snapshot, k);
    }
  }

  // ---------------------------------------------------------------- checkpoints

  /**
   * The crash points of a checkpoint, after any later commits and for every surviving log.
   * With the new snapshot renamed into place, and with the log truncated as far as the
   * checkpoint allows, recovery reaches the snapshot's LSN or further; before the rename it
   * reaches what the old snapshot and the log hold. So all three agree as soon as the log
   * that survives reaches the new snapshot's LSN.
   */
  lemma CheckpointPreservesRecovery(run: seq<Action>, n: nat, from: nat)
    requires Legal(run) && Survives(After(run), n) && After(run).checkpoint.Drafted?
    requires After(run).truncated <= from <= n && from <= After(run).checkpoint.draft.lsn
    ensures var s := After(run); var draft := s.checkpoint.draft;
      var after := if n < draft.lsn then draft.lsn else n;
      && s.snapshot.lsn <= draft.lsn && after <= |s.wal.written|
      && SameExcept(FromDisk(s, n), Fold(s.wal.written[..Reach(s, n)]), s.snapshot.leaked)
      && SameExcept(Recovered(draft.store, draft.lsn, s.wal.written[s.truncated..n]),
                    Fold(s.wal.written[..after]), draft.leaked)
      && SameExcept(Recovered(draft.store, draft.lsn, s.wal.written[from..n]),
                    Fold(s.wal.written[..after]), draft.leaked)
      && (draft.lsn <= n ==> Reach(s, n) == after == n)
  {
    InvAlways(run);
    var s := After(run);
    var draft := s.checkpoint.draft;
    forall k
      ensures k !in s.snapshot.leaked ==> Read(FromDisk(s, n), k) == Read(Fold(s.wal.written[..Reach(s, n)]), k)
      ensures k !in draft.leaked ==>
        && Read(Recovered(draft.store, draft.lsn, s.wal.written[s.truncated..n]), k)
           == Read(Fold(s.wal.written[..if n < draft.lsn then draft.lsn else n]), k)
        && Read(Recovered(draft.store, draft.lsn, s.wal.written[from..n]), k)
           == Read(Fold(s.wal.written[..if n < draft.lsn then draft.lsn else n]), k)
    {
      RecoversLonger(s, s.snapshot, s.truncated, n, k);
      RecoversLonger(s, draft, s.truncated, n, k);
      RecoversLonger(s, draft, from, n, k);
    }
  }

  lemma {:induction false} CountMore(log: seq<Record>, n: nat)
    requires n <= |log|
    ensures CommitCount(log[..n]) <= CommitCount(log)
    ensures CommitCount(log[..n]) == CommitCount(log) <==> (forall i :: n <= i < |log| ==> log[i].body != Commit)
    decreases |log|
  {
    if n == |log| {
      assert log[..n] == log;
    } else {
      var init := log[..|log| - 1];
      CountMore(init, n);
      assert init[..n] == log[..n];
      if forall i :: n <= i < |init| ==> init[i].body != Commit {
        assert forall i :: n <= i < |log| - 1 ==> log[i] == init[i];
      } else {
        var i :| n <= i < |init| && init[i].body == Commit;
        assert log[i] == init[i];
      }
    }
  }

  /**
   * The rename changes which transactions come back exactly if a COMMIT lies beyond what
   * survives and at or below the new snapshot's LSN; then more of them come back.
   */
  lemma RenameChangesIff(run: seq<Action>, n: nat)
    requires Legal(run) && Survives(After(run), n) && Enabled(After(run), InstallSnapshot)
    ensures var s := After(run); var s' := Do(s, InstallSnapshot);
      && Reach(s, n) <= Reach(s', n) <= |s.wal.written|
      && var c, c' := CommitCount(s.wal.written[..Reach(s, n)]), CommitCount(s.wal.written[..Reach(s', n)]);
      && c <= c'
      && (c == c' <==> forall i :: Reach(s, n) <= i < s.checkpoint.draft.lsn ==> s.wal.written[i].body != Commit)
  {
    InvAlways(run);
    var s := After(run);
    var m, m' := Reach(s, n), Reach(Do(s, InstallSnapshot), n);
    var log := s.wal.written[..m'];
    CountMore(log, m);
    assert log[..m] == s.wal.written[..m];
    assert forall i :: 0 <= i < m' ==> log[i] == s.wal.written[i];
  }
}
