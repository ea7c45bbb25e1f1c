// What an acknowledgement is worth: written always, durable outside the flusher's window.
module Durability {
  import opened Kv
  import opened LockTable
  import opened LockFacts
  import opened Log
  import opened Serial
  import opened Engine
  import opened EngineLocks
  import opened EngineLog
  import opened EngineData
  import opened EngineCheckpoint
  import opened CrashRecovery
  import opened Runs
  import Serializability
  import W = Wal

  /**
   * After every run the records written, in the flusher's hands and still buffered carry,
   * in this order, the LSNs 1, 2, ... up to the next one, and the flushed mark is the LSN of
   * the last record written.
   */
  lemma LogIsNumbered(run: seq<Action>)
    requires Legal(run)
    ensures var w := After(run).wal;
      && (forall i :: 0 <= i < |W.All(w)| ==> W.All(w)[i].lsn == i + 1)
      && w.nextLsn == |w.written| + |w.hands| + |w.buffer| + 1
      && w.flushed == |w.written|
      && (w.written != [] ==> w.written[|w.written| - 1].lsn == w.flushed)
  {
    InvAlways(run);
    WalIsNumbered(After(run).wal);
  }

  lemma WalIsNumbered(w: W.Wal)
    requires W.WalOk(w)
    ensures forall i :: 0 <= i < |W.All(w)| ==> W.All(w)[i].lsn == i + 1
    ensures w.nextLsn == |w.written| + |w.hands| + |w.buffer| + 1 && w.flushed == |w.written|
    ensures forall i :: 0 <= i < |w.written| ==> W.All(w)[i] == w.written[i] && w.written[i].lsn == i + 1
  {
  }

  /**
   * waitForCommit returns only after every record up to the COMMIT has been handed to the
   * log stream; the acknowledged transaction is in the history.
   */
  lemma AcknowledgedIsWritten(run: seq<Action>, lsn: Lsn)
    requires Legal(run) && lsn in After(run).acked
    ensures var s := After(run);
      && 0 < lsn <= |s.wal.written| && s.wal.written[lsn - 1].body == Commit
      && (forall i :: 0 <= i < lsn ==> s.wal.written[i].lsn == i + 1)
      && (exists i :: 0 <= i < |s.history| && s.history[i].lsn == lsn && s.history[i].txn == s.wal.written[lsn - 1].txn)
  {
    InvAlways(run);
    var s := After(run);
    var log := W.All(s.wal);
    WalIsNumbered(s.wal);
    var i := Serializability.HistoryCovers(log, s.history, lsn - 1);
  }

  // ---------------------------------------------------------------- durable or not

  /** The COMMIT of a logged transaction has this LSN. */
  predicate InHistory(s: State, lsn: Lsn) {
    exists i :: 0 <= i < |s.history| && s.history[i].lsn == lsn
  }

  /** Recovery after a crash that leaves `n` records brings back the transaction with this COMMIT LSN. */
  ghost predicate BroughtBack(s: State, n: nat, lsn: Lsn) {
    Reach(s, n) <= |s.wal.written| &&
    exists i :: 0 <= i < CommitCount(s.wal.written[..Reach(s, n)]) && i < |s.history| && s.history[i].lsn == lsn
  }

  /** Every crash that could happen now leaves a disk that brings it back. */
  ghost predicate Safe(s: State, lsn: Lsn) {
    forall n :: Survives(s, n) ==> BroughtBack(s, n, lsn)
  }

  /** A sync that covers the record, or the rename of a snapshot that covers it. */
  predicate Secures(s: State, a: Action, lsn: Lsn) {
    match a
    case Sync => lsn <= s.wal.passed
    case DraftSnapshot => lsn <= s.wal.passed
    case Truncate => lsn <= s.wal.passed
    case InstallSnapshot => s.checkpoint.Drafted? && lsn <= s.checkpoint.draft.lsn
    case _ => false
  }

  ghost predicate SecuredAt(run: seq<Action>, j: nat, lsn: Lsn) {
    j < |run| && Legal(run[..j]) && Secures(After(run[..j]), run[j], lsn)
  }

  /** How far the disk reaches whatever the crash. */
  function Floor(s: State): nat {
    Reach(s, s.wal.durable)
  }

  lemma FloorStep(s: State, a: Action, lsn: Lsn)
    requires LogInv(s) && CheckpointInv(s) && Enabled(s, a) && lsn > 0
    ensures lsn <= Floor(Do(s, a)) <==> lsn <= Floor(s) || Secures(s, a, lsn)
  {
    match a
    case By(t, m) => FloorMove(s, t, m);
    case _ =>
  }

  lemma FloorMove(s: State, t: TxnId, m: Move)
    requires CanMove(s, t, m)
    ensures Floor(DoMove(s, t, m)) == Floor(s)
  {
  }

  lemma {:induction false} FloorIsSecured(run: seq<Action>, lsn: Lsn)
    requires Legal(run) && lsn > 0
    ensures lsn <= Floor(After(run)) <==> exists j :: SecuredAt(run, j, lsn)
  {
    if run == [] {
      Start();
    } else {
      var init := run[..|run| - 1];
      Last(run);
      FloorIsSecured(init, lsn);
      InvAlways(init);
      FloorStep(After(init), run[|run| - 1], lsn);
      SecuredLonger(run, init, lsn);
    }
  }

  lemma SecuredLonger(run: seq<Action>, init: seq<Action>, lsn: Lsn)
    requires run != [] && init == run[..|run| - 1] && Legal(run) && Legal(init)
    ensures (exists j :: SecuredAt(run, j, lsn))
       <==> (exists j :: SecuredAt(init, j, lsn)) || Secures(After(init), run[|run| - 1], lsn)
  {
    forall j: nat | j < |init| ensures SecuredAt(run, j, lsn) <==> SecuredAt(init, j, lsn) {
      assert run[..j] == init[..j];
    }
    assert SecuredAt(run, |init|, lsn) <==> Secures(After(init), run[|run| - 1], lsn);
    if j: nat :| SecuredAt(run, j, lsn) {
      assert j < |init| || j == |init|;
    }
    if j: nat :| SecuredAt(init, j, lsn) {
      assert SecuredAt(run, j, lsn);
    }
  }

  lemma SafeIsFloor(run: seq<Action>, lsn: Lsn)
    requires Legal(run) && InHistory(After(run), lsn)
    ensures Safe(After(run), lsn) <==> lsn <= Floor(After(run))
  {
    var s := After(run);
    var i :| 0 <= i < |s.history| && s.history[i].lsn == lsn;
    InvAlways(run);
    forall n | Survives(s, n) ensures BroughtBack(s, n, lsn) <==> lsn <= Reach(s, n) {
      CrashIsAtomic(run, n);
    }
    assert Survives(s, s.wal.durable);
  }

  /**
   * A commit, acknowledged or not, is brought back after every crash that could happen now
   * exactly if at some point of the run a sync covered its record after the stream had
   * passed it on, or a snapshot covering it was renamed into place. An acknowledgement
   * promises neither: the mark is raised record by record, before the stream is flushed.
   */
  lemma CommitIsSafeIff(run: seq<Action>, lsn: Lsn)
    requires Legal(run) && InHistory(After(run), lsn)
    ensures Safe(After(run), lsn) <==> exists j :: SecuredAt(run, j, lsn)
  {
    InvAlways(run);
    var s := After(run);
    var i :| 0 <= i < |s.history| && s.history[i].lsn == lsn;
    Serializability.HistoryAt(W.All(s.wal), s.history, i);
    SafeIsFloor(run, lsn);
    FloorIsSecured(run, lsn);
  }

  /** An acknowledgement given while the flusher is between taking a batch and syncing it. */
  predicate AcksEarly(s: State, a: Action) {
    a.By? && a.move == Acknowledge && s.wal.flushing
  }

  ghost predicate FlushIsAtomic(run: seq<Action>) {
    forall i :: 0 <= i < |run| ==> Legal(run[..i]) && !AcksEarly(After(run[..i]), run[i])
  }

  lemma AckStep(s: State, a: Action)
    requires LogInv(s) && Enabled(s, a) && (forall lsn :: lsn in s.acked ==> lsn <= s.wal.durable)
    requires !AcksEarly(s, a)
    ensures forall lsn :: lsn in Do(s, a).acked ==> lsn <= Do(s, a).wal.durable
  {
    match a
    case By(t, m) => AckMove(s, t, m);
    case _ =>
  }

  lemma AckMove(s: State, t: TxnId, m: Move)
    requires CanMove(s, t, m)
    ensures DoMove(s, t, m).wal.durable == s.wal.durable
    ensures DoMove(s, t, m).acked == if m == Acknowledge then s.acked + {s.txns[t].pc.lsn} else s.acked
  {
  }

  lemma {:induction false} AckedIsDurable(run: seq<Action>)
    requires Legal(run) && FlushIsAtomic(run)
    ensures forall lsn :: lsn in After(run).acked ==> lsn <= After(run).wal.durable
  {
    if run == [] {
      Start();
    } else {
      var init := run[..|run| - 1];
      Last(run);
      assert forall i :: 0 <= i < |init| ==> init[..i] == run[..i] && init[i] == run[i];
      AckedIsDurable(init);
      InvAlways(init);
      AckStep(After(init), run[|run| - 1]);
    }
  }

  /**
   * Durability. If flushing a batch is atomic for those who wait on it, every acknowledged
   * commit is among the transactions that recovery brings back after any crash.
   */
  lemma AcknowledgedSurvives(run: seq<Action>, lsn: Lsn, n: nat)
    requires Legal(run) && FlushIsAtomic(run) && lsn in After(run).acked && Survives(After(run), n)
    ensures BroughtBack(After(run), n, lsn)
  {
    var s := After(run);
    AckedIsDurable(run);
    AcknowledgedIsWritten(run, lsn);
    CrashIsAtomic(run, n);
    var i :| 0 <= i < |s.history| && s.history[i].lsn == lsn;
  }

  // ---------------------------------------------------------------- acknowledged and brought back

  /** Whoever has logged its COMMIT has been acknowledged or is still waiting for it. */
  ghost predicate AckedOrAwaiting(s: State) {
    forall i :: 0 <= i < |s.history| ==>
      || s.history[i].lsn in s.acked
      || (s.history[i].txn in s.txns && s.txns[s.history[i].txn].pc == Awaiting(s.history[i].lsn))
  }

  lemma AwaitingMove(s: State, t: TxnId, m: Move)
    requires AckedOrAwaiting(s) && CanMove(s, t, m)
    ensures AckedOrAwaiting(DoMove(s, t, m))
  {
    MoveIsLocal(s, t, m);
    AckMove(s, t, m);
    var s' := DoMove(s, t, m);
    forall i | 0 <= i < |s'.history|
      ensures s'.history[i].lsn in s'.acked
           || (s'.history[i].txn in s'.txns && s'.txns[s'.history[i].txn].pc == Awaiting(s'.history[i].lsn))
    {
      if i < |s.history| {
        assert s'.history[i] == s.history[i];
      }
    }
  }

  /** Nobody waits for what has been acknowledged. */
  ghost predicate AwaitingNew(s: State) {
    forall t :: t in s.txns && s.txns[t].pc.Awaiting? ==> s.txns[t].pc.lsn !in s.acked
  }

  /** No two transactions wait for the same LSN. */
  lemma AwaitsAlone(s: State, t: TxnId, u: TxnId)
    requires LogInv(s) && t in s.txns && u in s.txns && s.txns[t].pc.Awaiting? && s.txns[u].pc == s.txns[t].pc
    ensures t == u
  {
    assert TxnLogged(W.All(s.wal), s.wal.flushed, t, s.txns[t]);
    assert TxnLogged(W.All(s.wal), s.wal.flushed, u, s.txns[u]);
  }

  lemma AwaitingNewMove(s: State, t: TxnId, m: Move)
    requires LogInv(s) && AwaitingNew(s) && CanMove(s, t, m)
    ensures AwaitingNew(DoMove(s, t, m))
  {
    MoveIsLocal(s, t, m);
    AckMove(s, t, m);
    var s' := DoMove(s, t, m);
    forall u | u in s'.txns && s'.txns[u].pc.Awaiting? ensures s'.txns[u].pc.lsn !in s'.acked {
      if u != t {
        if m == Acknowledge && s.txns[u].pc == s.txns[t].pc {
          AwaitsAlone(s, t, u);
        }
      }
    }
  }

  lemma {:induction false} AwaitingAlways(run: seq<Action>)
    requires Legal(run)
    ensures AckedOrAwaiting(After(run)) && AwaitingNew(After(run))
  {
    if run == [] {
      Start();
    } else {
      var init := run[..|run| - 1];
      Last(run);
      AwaitingAlways(init);
      InvAlways(init);
      match run[|run| - 1]
      case By(t, m) =>
        AwaitingMove(After(init), t, m);
        AwaitingNewMove(After(init), t, m);
      case _ =>
    }
  }

  predicate Awaited(s: State, lsn: Lsn) {
    exists t :: t in s.txns && s.txns[t].pc == Awaiting(lsn)
  }

  lemma BroughtBackIff(run: seq<Action>, n: nat, lsn: Lsn)
    requires Legal(run) && Survives(After(run), n)
    ensures BroughtBack(After(run), n, lsn) <==> lsn <= Reach(After(run), n) && InHistory(After(run), lsn)
  {
    CrashIsAtomic(run, n);
  }

  lemma CommitInHistory(log: seq<Record>, history: seq<Done>, lsn: Lsn, t: TxnId)
    requires Matches(log, history) && Numbered(log) && CommitAt(log, lsn, t)
    ensures exists i :: 0 <= i < |history| && history[i].lsn == lsn
  {
    var i := Serializability.HistoryCovers(log, history, lsn - 1);
  }

  lemma AwaitedInHistory(s: State, lsn: Lsn)
    requires LogInv(s) && Matches(W.All(s.wal), s.history) && Awaited(s, lsn)
    ensures InHistory(s, lsn)
  {
    var t :| t in s.txns && s.txns[t].pc == Awaiting(lsn);
    assert TxnLogged(W.All(s.wal), s.wal.flushed, t, s.txns[t]);
    CommitInHistory(W.All(s.wal), s.history, lsn, t);
  }

  /** What is in the history is acknowledged or awaited, never both. */
  lemma AcknowledgedOrAwaited(run: seq<Action>, lsn: Lsn)
    requires Legal(run)
    ensures var s := After(run);
      && (lsn in s.acked ==> InHistory(s, lsn))
      && (Awaited(s, lsn) ==> InHistory(s, lsn) && lsn !in s.acked)
      && (InHistory(s, lsn) ==> lsn in s.acked || Awaited(s, lsn))
  {
    var s := After(run);
    AwaitingAlways(run);
    if lsn in s.acked {
      AcknowledgedIsWritten(run, lsn);
    }
    if Awaited(s, lsn) {
      InvAlways(run);
      AwaitedInHistory(s, lsn);
    }
  }

  /**
   * Recovery brings back exactly the acknowledged transactions if and only if the disk
   * reaches every acknowledged COMMIT and no COMMIT that somebody still waits for.
   */
  lemma ExactlyAcknowledgedIff(run: seq<Action>, n: nat)
    requires Legal(run) && Survives(After(run), n)
    ensures var s := After(run);
      (forall lsn: Lsn :: BroughtBack(s, n, lsn) <==> lsn in s.acked)
        <==> (forall lsn: Lsn :: (Awaited(s, lsn) ==> lsn > Reach(s, n)) && (lsn in s.acked ==> lsn <= Reach(s, n)))
  {
    var s := After(run);
    forall lsn: Lsn
      ensures (BroughtBack(s, n, lsn) <==> lsn in s.acked)
         <==> (Awaited(s, lsn) ==> lsn > Reach(s, n)) && (lsn in s.acked ==> lsn <= Reach(s, n))
    {
      BroughtBackIff(run, n, lsn);
      AcknowledgedOrAwaited(run, lsn);
    }
  }

  /**
   * With flushing atomic, recovery brings back exactly the acknowledged transactions if and
   * only if nobody waits for a COMMIT that the disk already reaches.
   */
  lemma ExactlyAcknowledgedWhenAtomic(run: seq<Action>, n: nat)
    requires Legal(run) && FlushIsAtomic(run) && Survives(After(run), n)
    ensures var s := After(run);
      (forall lsn: Lsn :: BroughtBack(s, n, lsn) <==> lsn in s.acked)
        <==> (forall lsn: Lsn :: Awaited(s, lsn) ==> lsn > Reach(s, n))
  {
    AckedIsDurable(run);
    ExactlyAcknowledgedIff(run, n);
  }

  // ---------------------------------------------------------------- write locks at READ_COMMITTED

  ghost predicate HoldsItsWrites(s: State, t: TxnId)
    requires t in s.txns
  {
    forall k :: k in s.txns[t].buffer ==> Hold(s.locks, t, k) == Exclusive
  }

  lemma UnlockHolds(s: State, t: TxnId, j: Key)
    requires TableInv(s) && CanMove(s, t, Unlock)
    ensures Hold(DoMove(s, t, Unlock).locks, t, j)
         == if j == s.txns[t].pc.key then NoLock else Hold(s.locks, t, j)
  {
    var k := s.txns[t].pc.key;
    if k in s.locks {
      AwakeWaitsNowhere(s, t, k);
      DropEffect(s.locks[k], t);
    }
  }

  /**
   * The release at the end of a READ_COMMITTED GET keeps the transaction's write locks
   * exactly when the key is not one it has written.
   */
  lemma UnlockKeepsWritesIff(run: seq<Action>, t: TxnId)
    requires Legal(run) && CanMove(After(run), t, Unlock) && HoldsItsWrites(After(run), t)
    ensures HoldsItsWrites(DoMove(After(run), t, Unlock), t)
       <==> After(run).txns[t].pc.key !in After(run).txns[t].buffer
  {
    var s := After(run);
    assert TableInv(s) by {
      InvAlways(run);
    }
    forall j ensures Hold(DoMove(s, t, Unlock).locks, t, j)
                  == if j == s.txns[t].pc.key then NoLock else Hold(s.locks, t, j) {
      UnlockHolds(s, t, j);
    }
  }
}
