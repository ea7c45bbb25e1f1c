// What every action keeps between the store, the log and what clients have seen.
module EngineData {
  import opened Kv
  import opened KeyOrder
  import opened LockTable
  import opened Log
  import opened Serial
  import opened Engine
  import opened EngineLocks
  import opened EngineLog
  import W = Wal

  /**
   * The history lists the log's commits in LSN order, and at each of them the log's
   * serial meaning is the store of running those transactions one by one.
   */
  ghost predicate Matches(log: seq<Record>, history: seq<Done>) {
    if log == [] then history == []
    else
      var r := log[|log| - 1];
      var before := log[..|log| - 1];
      if r.body != Commit then Matches(before, history)
      else
        && history != []
        && history[|history| - 1].txn == r.txn && history[|history| - 1].lsn == r.lsn
        && Fold(log) == RunAll(history)
        && Matches(before, history[..|history| - 1])
  }

  /** Every committed REPEATABLE_READ transaction saw what the serial run shows it. */
  ghost predicate HistoryFaithful(history: seq<Done>, leaked: set<Key>) {
    forall i :: 0 <= i < |history| && history[i].level == RepeatableRead ==>
      Faithful(RunAll(history[..i]), history[i].trace, leaked)
  }

  predicate Uncommitted(pc: Pc) {
    !pc.Awaiting? && !pc.Applying? && !pc.Aborting?
  }

  /** The key has a logged commit by this transaction that the store does not show yet. */
  predicate Unapplied(x: Txn, k: Key) {
    match x.pc
    case Awaiting(_) => k in x.buffer
    case Applying(_, todo) => exists i :: 0 <= i < |todo| && todo[i].key == k
    case _ => false
  }

  ghost predicate TxnTraced(serial: Store, x: Txn, leaked: set<Key>) {
    && (x.pc != Aborting ==> x.buffer == BufferOf(x.trace))
    && (x.level == RepeatableRead && Uncommitted(x.pc) ==> Faithful(serial, x.trace, leaked))
  }

  ghost predicate TxnPending(serial: Store, x: Txn, leaked: set<Key>) {
    forall k :: Unapplied(x, k) && k !in leaked ==> k in x.buffer && Read(serial, k) == Effect(x.buffer[k])
  }

  /** Where no commit is waiting to be applied, the store shows the serial value. */
  ghost predicate Agrees(s: State, serial: Store, k: Key) {
    (forall t :: t in s.txns ==> !Unapplied(s.txns[t], k)) ==> Read(s.store, k) == Read(serial, k)
  }

  function SerialStore(s: State): Store {
    Fold(W.All(s.wal))
  }

  ghost predicate DataInv(s: State) {
    && Matches(W.All(s.wal), s.history)
    && HistoryFaithful(s.history, s.leaked)
    && (forall t :: t in s.txns ==> TxnTraced(SerialStore(s), s.txns[t], s.leaked))
    && (forall t :: t in s.txns ==> TxnPending(SerialStore(s), s.txns[t], s.leaked))
    && (forall k :: k !in s.leaked ==> Agrees(s, SerialStore(s), k))
  }

  // ---------------------------------------------------------------- framing

  lemma {:induction false} MatchesFold(log: seq<Record>, history: seq<Done>)
    requires Matches(log, history)
    ensures Fold(log) == RunAll(history)
  {
    if log != [] && log[|log| - 1].body != Commit {
      MatchesFold(log[..|log| - 1], history);
    }
  }

  lemma MatchesAppend(log: seq<Record>, r: Record, history: seq<Done>)
    requires Matches(log, history) && r.body != Commit
    ensures Matches(log + [r], history)
  {
    assert (log + [r])[..|log|] == log;
  }

  lemma MatchesCommit(log: seq<Record>, r: Record, history: seq<Done>, d: Done)
    requires Matches(log, history) && r.body == Commit
    requires d.txn == r.txn && d.lsn == r.lsn && Fold(log + [r]) == RunAll(history + [d])
    ensures Matches(log + [r], history + [d])
  {
    assert (log + [r])[..|log|] == log;
    assert (history + [d])[..|history|] == history;
  }

  /** A step by `t` keeps the agreement on a key that it leaves alone in the store, the log and its own queue. */
  lemma StillAgrees(s: State, s': State, t: TxnId, k: Key, serial: Store, serial': Store)
    requires Agrees(s, serial, k)
    requires forall u :: u in s.txns && u != t ==> u in s'.txns && s'.txns[u] == s.txns[u]
    requires t in s.txns && Unapplied(s.txns[t], k) ==> t in s'.txns && Unapplied(s'.txns[t], k)
    requires Read(s'.store, k) == Read(s.store, k) && Read(serial', k) == Read(serial, k)
    ensures Agrees(s', serial', k)
  {
    if forall u :: u in s'.txns ==> !Unapplied(s'.txns[u], k) {
      forall u | u in s.txns ensures !Unapplied(s.txns[u], k) {
        assert u != t ==> !Unapplied(s'.txns[u], k);
      }
    }
  }

  /** Nothing that the data invariant talks about has changed, except perhaps a program counter. */
  lemma QuietKeeps(s: State, s': State, t: TxnId, x': Txn)
    requires DataInv(s) && t in s.txns
    requires s'.txns == s.txns[t := x'] && s'.store == s.store
    requires s'.history == s.history && s'.leaked == s.leaked
    requires Matches(W.All(s'.wal), s.history) && SerialStore(s') == SerialStore(s)
    requires forall k :: Unapplied(x', k) <==> Unapplied(s.txns[t], k)
    requires x'.pc == Aborting || (x'.buffer == s.txns[t].buffer && s.txns[t].pc != Aborting)
    requires x'.trace == s.txns[t].trace && x'.level == s.txns[t].level
    requires Uncommitted(x'.pc) ==> Uncommitted(s.txns[t].pc)
    ensures DataInv(s')
  {
    var serial := SerialStore(s);
    assert TxnTraced(serial, s.txns[t], s.leaked) && TxnPending(serial, s.txns[t], s.leaked);
    forall k | k !in s.leaked ensures Agrees(s', serial, k) {
      StillAgrees(s, s', t, k, serial, serial);
    }
  }

  lemma AppendQuiet(s: State, t: TxnId, b: Body)
    requires DataInv(s) && b != Commit
    ensures Matches(W.All(W.Append(s.wal, t, b)), s.history)
    ensures Fold(W.All(W.Append(s.wal, t, b))) == SerialStore(s)
  {
    W.AppendAll(s.wal, t, b);
    var r := Record(s.wal.nextLsn, t, b);
    MatchesAppend(W.All(s.wal), r, s.history);
    FoldAppend(W.All(s.wal), r);
  }

  // ---------------------------------------------------------------- LogCommit

  /** Another transaction's unleaked write excludes every read and write of the key by `u`. */
  lemma WriterExcludes(s: State, t: TxnId, u: TxnId, k: Key)
    requires LockInv(s) && t in s.txns && u in s.txns && t != u
    requires k in s.txns[t].buffer && k !in s.leaked
    ensures k !in s.txns[u].buffer
    ensures s.txns[u].level == RepeatableRead ==> !HasRead(s.txns[u].trace, k)
    ensures Hold(s.locks, u, k) == NoLock
  {
    assert TxnHolds(s.locks, t, s.txns[t], s.leaked);
    assert TxnHolds(s.locks, u, s.txns[u], s.leaked);
    if Hold(s.locks, u, k) != NoLock {
      ExclusiveIsAlone(s.locks, t, u, k);
    }
  }

  /** The serial store after the commit is the serial store before it with the buffer laid over. */
  lemma CommitOverlays(s: State, t: TxnId, k: Key)
    requires LogInv(s) && CanMove(s, t, LogCommit)
    ensures Read(SerialStore(DoMove(s, t, LogCommit)), k) == ReadThrough(SerialStore(s), s.txns[t].buffer, k)
  {
    var log := W.All(s.wal);
    var x := s.txns[t];
    assert TxnLogged(log, s.wal.flushed, t, x);
    assert OpsOf(log, t) + [] == OpsOf(log, t);
    W.AppendAll(s.wal, t, Commit);
    FoldAppend(log, Record(s.wal.nextLsn, t, Commit));
    ApplyBuffer(Fold(log), x.buffer, Sorted(x.buffer.Keys), k);
  }

  lemma CommitRuns(s: State, t: TxnId)
    requires LogInv(s) && DataInv(s) && CanMove(s, t, LogCommit)
    ensures var s' := DoMove(s, t, LogCommit);
      SerialStore(s') == RunAll(s'.history) && Matches(W.All(s'.wal), s'.history)
  {
    var log := W.All(s.wal);
    var x := s.txns[t];
    var s' := DoMove(s, t, LogCommit);
    assert TxnTraced(SerialStore(s), x, s.leaked);
    MatchesFold(log, s.history);
    var d := Done(t, s.wal.nextLsn, x.level, x.trace);
    RunAllAppend(s.history, d);
    forall k ensures Read(SerialStore(s'), k) == Read(RunAll(s'.history), k) {
      CommitOverlays(s, t, k);
      BufferMeansTrace(SerialStore(s), x.trace, k);
    }
    StoresEqual(SerialStore(s'), RunAll(s'.history));
    W.AppendAll(s.wal, t, Commit);
    MatchesCommit(log, Record(s.wal.nextLsn, t, Commit), s.history, d);
  }

  /** `x` has read the key and may again, or has still to show its write of it. */
  ghost predicate Relies(x: Txn, k: Key) {
    (x.level == RepeatableRead && Uncommitted(x.pc) && HasRead(x.trace, k)) || Unapplied(x, k)
  }

  lemma CommitOthers(s: State, t: TxnId, u: TxnId, k: Key)
    requires LockInv(s) && LogInv(s) && DataInv(s) && CanMove(s, t, LogCommit) && u in s.txns && u != t
    requires Relies(s.txns[u], k) && k !in s.leaked
    ensures Read(SerialStore(DoMove(s, t, LogCommit)), k) == Read(SerialStore(s), k)
  {
    CommitOverlays(s, t, k);
    assert TxnPending(SerialStore(s), s.txns[u], s.leaked);
    if k in s.txns[t].buffer {
      WriterExcludes(s, t, u, k);
    }
  }

  lemma ReliedUponStays(serial: Store, serial': Store, x: Txn, leaked: set<Key>)
    requires TxnTraced(serial, x, leaked) && TxnPending(serial, x, leaked)
    requires forall k :: Relies(x, k) && k !in leaked ==> Read(serial', k) == Read(serial, k)
    ensures TxnTraced(serial', x, leaked) && TxnPending(serial', x, leaked)
  {
    if x.level == RepeatableRead && Uncommitted(x.pc) {
      forall k | HasRead(x.trace, k) && k !in leaked ensures Read(serial, k) == Read(serial', k) {
        assert Relies(x, k);
      }
      FaithfulFrame(serial, serial', x.trace, leaked, leaked);
    }
    forall k | Unapplied(x, k) && k !in leaked ensures Read(serial', k) == Read(serial, k) {
      assert Relies(x, k);
    }
  }

  lemma HistoryFaithfulAppend(history: seq<Done>, d: Done, leaked: set<Key>)
    requires HistoryFaithful(history, leaked)
    requires d.level == RepeatableRead ==> Faithful(RunAll(history), d.trace, leaked)
    ensures HistoryFaithful(history + [d], leaked)
  {
    var longer := history + [d];
    forall i | 0 <= i < |longer| && longer[i].level == RepeatableRead
      ensures Faithful(RunAll(longer[..i]), longer[i].trace, leaked)
    {
      assert longer[..i] == history[..i];
      if i == |history| {
        assert history[..i] == history;
      }
    }
  }

  lemma CommitOwn(s: State, t: TxnId)
    requires LogInv(s) && DataInv(s) && CanMove(s, t, LogCommit)
    ensures var s' := DoMove(s, t, LogCommit);
      TxnTraced(SerialStore(s'), s'.txns[t], s.leaked) && TxnPending(SerialStore(s'), s'.txns[t], s.leaked)
  {
    assert TxnTraced(SerialStore(s), s.txns[t], s.leaked);
    forall k ensures Read(SerialStore(DoMove(s, t, LogCommit)), k) == ReadThrough(SerialStore(s), s.txns[t].buffer, k) {
      CommitOverlays(s, t, k);
    }
  }

  lemma CommitAgrees(s: State, t: TxnId, k: Key)
    requires LogInv(s) && DataInv(s) && CanMove(s, t, LogCommit) && k !in s.leaked
    ensures var s' := DoMove(s, t, LogCommit); Agrees(s', SerialStore(s'), k)
  {
    var s' := DoMove(s, t, LogCommit);
    CommitOverlays(s, t, k);
    if k in s.txns[t].buffer {
      assert Unapplied(s'.txns[t], k);
    } else {
      StillAgrees(s, s', t, k, SerialStore(s), SerialStore(s'));
    }
  }

  lemma LogCommitKeeps(s: State, t: TxnId)
    requires LockInv(s) && LogInv(s) && DataInv(s) && CanMove(s, t, LogCommit)
    ensures DataInv(DoMove(s, t, LogCommit))
  {
    var s' := DoMove(s, t, LogCommit);
    var x := s.txns[t];
    var serial' := SerialStore(s');
    CommitRuns(s, t);
    assert TxnTraced(SerialStore(s), x, s.leaked);
    MatchesFold(W.All(s.wal), s.history);
    HistoryFaithfulAppend(s.history, Done(t, s.wal.nextLsn, x.level, x.trace), s.leaked);
    forall u | u in s'.txns
      ensures TxnTraced(serial', s'.txns[u], s.leaked) && TxnPending(serial', s'.txns[u], s.leaked)
    {
      if u != t {
        forall k | Relies(s.txns[u], k) && k !in s.leaked
          ensures Read(SerialStore(s'), k) == Read(SerialStore(s), k)
        {
          CommitOthers(s, t, u, k);
        }
        assert TxnTraced(SerialStore(s), s.txns[u], s.leaked);
        ReliedUponStays(SerialStore(s), SerialStore(s'), s.txns[u], s.leaked);
      } else {
        CommitOwn(s, t);
      }
    }
    forall k | k !in s.leaked ensures Agrees(s', serial', k) {
      CommitAgrees(s, t, k);
    }
  }

  // ---------------------------------------------------------------- ApplyNext

  lemma UnappliedStep(x: Txn, k: Key)
    requires x.pc.Applying? && x.pc.todo != []
    ensures var x' := x.(pc := Applying(x.pc.lsn, x.pc.todo[1..]));
      && (Unapplied(x', k) ==> Unapplied(x, k))
      && (Unapplied(x, k) && k != x.pc.todo[0].key ==> Unapplied(x', k))
      && Unapplied(x, x.pc.todo[0].key)
  {
    var todo := x.pc.todo;
    var x' := x.(pc := Applying(x.pc.lsn, todo[1..]));
    if Unapplied(x', k) {
      var i :| 0 <= i < |todo[1..]| && todo[1..][i].key == k;
      assert todo[i + 1].key == k;
    }
    if Unapplied(x, k) && k != todo[0].key {
      var i :| 0 <= i < |todo| && todo[i].key == k;
      assert todo[1..][i - 1].key == k;
    }
    assert todo[0].key == x.pc.todo[0].key;
  }

  lemma WritesAt(buffer: map<Key, Write>, i: nat)
    requires i < |Writes(buffer)|
    ensures Writes(buffer)[i].key in buffer && Writes(buffer)[i].write == buffer[Writes(buffer)[i].key]
  {
    var keys := Sorted(buffer.Keys);
    assert keys[i] in keys;
  }

  /** What is about to be applied is the buffered write of its key. */
  lemma TodoIsBuffered(log: seq<Record>, flushed: Lsn, t: TxnId, x: Txn)
    requires x.pc.Applying? && x.pc.todo != [] && TxnLogged(log, flushed, t, x)
    ensures x.pc.todo[0].key in x.buffer && x.pc.todo[0].write == x.buffer[x.pc.todo[0].key]
  {
    var all := Writes(x.buffer);
    SuffixRest(x.pc.todo, all);
    var i :| 0 <= i < |all| && all[i] == x.pc.todo[0];
    WritesAt(x.buffer, i);
  }

  /** The key just applied now shows its serial value. */
  lemma ApplyShows(s: State, t: TxnId)
    requires CanMove(s, t, ApplyNext) && s.txns[t].pc.todo[0].key !in s.leaked
    requires TxnLogged(W.All(s.wal), s.wal.flushed, t, s.txns[t]) && TxnPending(SerialStore(s), s.txns[t], s.leaked)
    ensures Agrees(DoMove(s, t, ApplyNext), SerialStore(s), s.txns[t].pc.todo[0].key)
  {
    UnappliedStep(s.txns[t], s.txns[t].pc.todo[0].key);
    TodoIsBuffered(W.All(s.wal), s.wal.flushed, t, s.txns[t]);
  }

  lemma ApplyLeaves(s: State, t: TxnId, k: Key)
    requires CanMove(s, t, ApplyNext) && k != s.txns[t].pc.todo[0].key && Agrees(s, SerialStore(s), k)
    ensures Agrees(DoMove(s, t, ApplyNext), SerialStore(s), k)
  {
    UnappliedStep(s.txns[t], k);
    StillAgrees(s, DoMove(s, t, ApplyNext), t, k, SerialStore(s), SerialStore(s));
  }

  lemma ApplyNextKeeps(s: State, t: TxnId)
    requires LogInv(s) && DataInv(s) && CanMove(s, t, ApplyNext)
    ensures DataInv(DoMove(s, t, ApplyNext))
  {
    var s' := DoMove(s, t, ApplyNext);
    var x := s.txns[t];
    var serial := SerialStore(s);
    assert TxnLogged(W.All(s.wal), s.wal.flushed, t, x);
    assert TxnTraced(serial, x, s.leaked) && TxnPending(serial, x, s.leaked);
    forall k ensures Unapplied(s'.txns[t], k) ==> Unapplied(x, k) {
      UnappliedStep(x, k);
    }
    assert TxnTraced(serial, s'.txns[t], s.leaked) && TxnPending(serial, s'.txns[t], s.leaked);
    forall k | k !in s.leaked ensures Agrees(s', serial, k) {
      if k == x.pc.todo[0].key {
        ApplyShows(s, t);
      } else {
        ApplyLeaves(s, t, k);
      }
    }
  }

  // ---------------------------------------------------------------- Finish

  /** A GET that goes to the store finds the serial value there. */
  lemma StoreReadIsSerial(s: State, t: TxnId)
    requires LockInv(s) && LogInv(s) && DataInv(s) && CanMove(s, t, Finish) && s.txns[t].pc.cmd.Get?
    requires s.txns[t].pc.cmd.key !in s.leaked
    ensures Read(s.store, s.txns[t].pc.cmd.key) == Read(SerialStore(s), s.txns[t].pc.cmd.key)
  {
    var k := s.txns[t].pc.cmd.key;
    assert TxnHolds(s.locks, t, s.txns[t], s.leaked);
    forall u | u in s.txns ensures !Unapplied(s.txns[u], k) {
      assert TxnPending(SerialStore(s), s.txns[u], s.leaked);
      if u != t && Unapplied(s.txns[u], k) {
        WriterExcludes(s, u, t, k);
      }
    }
    assert Agrees(s, SerialStore(s), k);
  }

  lemma LeakWeakens(serial: Store, x: Txn, leaked: set<Key>, more: set<Key>)
    requires TxnTraced(serial, x, leaked) && TxnPending(serial, x, leaked) && leaked <= more
    ensures TxnTraced(serial, x, more) && TxnPending(serial, x, more)
  {
    if x.level == RepeatableRead && Uncommitted(x.pc) {
      FaithfulFrame(serial, serial, x.trace, leaked, more);
    }
  }

  lemma HistoryWeakens(history: seq<Done>, leaked: set<Key>, more: set<Key>)
    requires HistoryFaithful(history, leaked) && leaked <= more
    ensures HistoryFaithful(history, more)
  {
    forall i | 0 <= i < |history| && history[i].level == RepeatableRead
      ensures Faithful(RunAll(history[..i]), history[i].trace, more)
    {
      FaithfulFrame(RunAll(history[..i]), RunAll(history[..i]), history[i].trace, leaked, more);
    }
  }

  lemma FinishTraced(s: State, t: TxnId)
    requires LockInv(s) && LogInv(s) && DataInv(s) && CanMove(s, t, Finish)
    ensures TxnTraced(SerialStore(s), DoFinish(s, t).txns[t], s.leaked)
  {
    var x := s.txns[t];
    var serial := SerialStore(s);
    assert TxnTraced(serial, x, s.leaked);
    var e := FinishEvent(s, t);
    BufferOfAppend(x.trace, e);
    if x.level == RepeatableRead {
      if e.Saw? && e.key !in s.leaked {
        StoreReadIsSerial(s, t);
      }
      FaithfulAppend(serial, x.trace, e, s.leaked);
    }
  }

  /** What a finished command adds to the trace, and what it leaves of the transaction. */
  lemma FinishEvent(s: State, t: TxnId) returns (e: Event)
    requires CanMove(s, t, Finish)
    ensures var x, x' := s.txns[t], DoFinish(s, t).txns[t];
      && x'.trace == x.trace + [e] && x'.level == x.level && Uncommitted(x'.pc)
      && x'.buffer == (if e.Wrote? then x.buffer[e.op.key := e.op.write] else x.buffer)
      && (e.Saw? ==> x.pc.cmd == Get(e.key) && e.result == ReadThrough(s.store, x.buffer, e.key))
  {
    e := match s.txns[t].pc.cmd
      case Modify(op) => Wrote(op)
      case Get(k) => Saw(k, ReadThrough(s.store, s.txns[t].buffer, k));
  }

  lemma FinishAgrees(s: State, t: TxnId, k: Key)
    requires DataInv(s) && CanMove(s, t, Finish) && k !in s.leaked
    ensures Agrees(DoFinish(s, t), SerialStore(s), k)
  {
    StillAgrees(s, DoFinish(s, t), t, k, SerialStore(s), SerialStore(s));
  }

  lemma FinishTxns(s: State, t: TxnId, u: TxnId)
    requires LockInv(s) && LogInv(s) && DataInv(s) && CanMove(s, t, Finish) && u in s.txns
    ensures var s' := DoFinish(s, t);
      TxnTraced(SerialStore(s), s'.txns[u], s'.leaked) && TxnPending(SerialStore(s), s'.txns[u], s'.leaked)
  {
    var s' := DoFinish(s, t);
    if u == t {
      FinishTraced(s, t);
    }
    LeakWeakens(SerialStore(s), s'.txns[u], s.leaked, s'.leaked);
  }

  lemma FinishKeeps(s: State, t: TxnId)
    requires LockInv(s) && LogInv(s) && DataInv(s) && CanMove(s, t, Finish)
    ensures DataInv(DoFinish(s, t))
  {
    var s' := DoFinish(s, t);
    var serial := SerialStore(s);
    HistoryWeakens(s.history, s.leaked, s'.leaked);
    forall u | u in s'.txns
      ensures TxnTraced(serial, s'.txns[u], s'.leaked) && TxnPending(serial, s'.txns[u], s'.leaked)
    {
      FinishTxns(s, t, u);
    }
    forall k | k !in s'.leaked ensures Agrees(s', serial, k) {
      FinishAgrees(s, t, k);
    }
  }

  // ---------------------------------------------------------------- the rest

  lemma AcknowledgeSame(x: Txn, lsn: Lsn, k: Key)
    requires x.pc.Awaiting?
    ensures Unapplied(x.(pc := Applying(lsn, Writes(x.buffer))), k) <==> Unapplied(x, k)
  {
    var keys := Sorted(x.buffer.Keys);
    var all := Writes(x.buffer);
    if k in x.buffer {
      assert k in keys;
      var i :| 0 <= i < |keys| && keys[i] == k;
      assert all[i].key == k;
    }
    if i :| 0 <= i < |all| && all[i].key == k {
      assert keys[i] in x.buffer.Keys;
    }
  }

  lemma ReleaseLocksKeeps(s: State, t: TxnId)
    requires DataInv(s) && CanMove(s, t, ReleaseLocks)
    ensures DataInv(DoMove(s, t, ReleaseLocks))
  {
    var s' := DoMove(s, t, ReleaseLocks);
    forall k | k !in s.leaked ensures Agrees(s', SerialStore(s), k) {
      StillAgrees(s, s', t, k, SerialStore(s), SerialStore(s));
    }
  }

  lemma BeginKeeps(s: State, session: SessionId, level: Isolation)
    requires DataInv(s) && Enabled(s, BeginTxn(session, level)) && s.nextTxn !in s.txns
    ensures DataInv(Do(s, BeginTxn(session, level)))
  {
    var s' := Do(s, BeginTxn(session, level));
    forall k | k !in s.leaked ensures Agrees(s', SerialStore(s), k) {
      StillAgrees(s, s', s.nextTxn, k, SerialStore(s), SerialStore(s));
    }
  }

  lemma AcknowledgeKeeps(s: State, t: TxnId)
    requires DataInv(s) && CanMove(s, t, Acknowledge)
    ensures DataInv(DoMove(s, t, Acknowledge))
  {
    var s' := DoMove(s, t, Acknowledge);
    forall k ensures Unapplied(s'.txns[t], k) <==> Unapplied(s.txns[t], k) {
      AcknowledgeSame(s.txns[t], s.txns[t].pc.lsn, k);
    }
    QuietKeeps(s, s', t, s'.txns[t]);
  }

  /** Moves that log something other than COMMIT. */
  lemma LoggingKeeps(s: State, t: TxnId, m: Move)
    requires DataInv(s) && CanMove(s, t, m) && (m == LogBegin || m == LogNext || m == AbortTxn)
    ensures DataInv(DoMove(s, t, m))
  {
    var s' := DoMove(s, t, m);
    AppendQuiet(s, t, if m == LogBegin then Begin else if m == LogNext then Change(s.txns[t].pc.todo[0]) else Abort);
    QuietKeeps(s, s', t, s'.txns[t]);
  }

  /** Moves that touch neither the log nor the store. */
  lemma SilentKeeps(s: State, t: TxnId, m: Move)
    requires DataInv(s) && CanMove(s, t, m)
    requires m.Ask? || m == Wake || m == TimeOut || m == Unlock || m == StartCommit
    ensures DataInv(DoMove(s, t, m))
  {
    var s' := DoMove(s, t, m);
    QuietKeeps(s, s', t, s'.txns[t]);
  }

  lemma DataInvMove(s: State, t: TxnId, m: Move)
    requires LockInv(s) && LogInv(s) && DataInv(s) && CanMove(s, t, m)
    ensures DataInv(DoMove(s, t, m))
  {
    match m
    case Finish => FinishKeeps(s, t);
    case LogCommit => LogCommitKeeps(s, t);
    case ApplyNext => ApplyNextKeeps(s, t);
    case ReleaseLocks => ReleaseLocksKeeps(s, t);
    case Acknowledge => AcknowledgeKeeps(s, t);
    case LogBegin => LoggingKeeps(s, t, m);
    case LogNext => LoggingKeeps(s, t, m);
    case AbortTxn => LoggingKeeps(s, t, m);
    case _ => SilentKeeps(s, t, m);
  }

  lemma FlushSame(s: State, s': State)
    requires DataInv(s) && W.All(s'.wal) == W.All(s.wal)
    requires s'.txns == s.txns && s'.store == s.store && s'.history == s.history && s'.leaked == s.leaked
    ensures DataInv(s')
  {
    forall k | k !in s.leaked ensures Agrees(s', SerialStore(s), k) {
      assert Agrees(s, SerialStore(s), k);
    }
  }

  lemma DataInvStep(s: State, a: Action)
    requires LockInv(s) && LogInv(s) && DataInv(s) && Enabled(s, a)
    ensures DataInv(Do(s, a))
  {
    match a
    case BeginTxn(session, level) => BeginKeeps(s, session, level);
    case By(t, m) => DataInvMove(s, t, m);
    case Fetch => W.FetchKeeps(s.wal); FlushSame(s, Do(s, a));
    case WriteRecord => W.WriteOneKeeps(s.wal); FlushSame(s, Do(s, a));
    case PassOn => W.PassKeeps(s.wal); FlushSame(s, Do(s, a));
    case Sync => W.SyncKeeps(s.wal); FlushSame(s, Do(s, a));
    case DraftSnapshot => W.CoverKeeps(s.wal); FlushSame(s, Do(s, a));
    case InstallSnapshot => FlushSame(s, Do(s, a));
    case Truncate => W.CoverKeeps(s.wal); FlushSame(s, Do(s, a));
  }
}
