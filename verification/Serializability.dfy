// Strict two-phase locking gives serializability in COMMIT-LSN order, over every run.
module Serializability {
  import opened Kv
  import opened LockTable
  import opened Log
  import opened Serial
  import opened Engine
  import opened EngineLocks
  import opened EngineLog
  import opened EngineData
  import opened EngineReads
  import opened Runs
  import W = Wal

  /**
   * Serializability. After any run of any mix of sessions, run the committed transactions
   * one at a time in COMMIT-LSN order: every committed REPEATABLE_READ transaction gets
   * exactly the GET results it saw, and the resulting store is the meaning of the log.
   * Keys whose write lock a READ_COMMITTED GET gave up are not judged.
   */
  lemma CommittedRunsAreSerial(run: seq<Action>)
    requires Legal(run)
    ensures var s := After(run);
      && HistoryFaithful(s.history, s.leaked)
      && RunAll(s.history) == Fold(W.All(s.wal))
  {
    InvAlways(run);
    MatchesFold(W.All(After(run).wal), After(run).history);
  }

  /** Each transaction of the history has its COMMIT record at the LSN it names. */
  lemma {:induction false} HistoryAt(log: seq<Record>, history: seq<Done>, i: nat)
    requires Matches(log, history) && Numbered(log) && i < |history|
    ensures CommitAt(log, history[i].lsn, history[i].txn)
    decreases |log|
  {
    var init := log[..|log| - 1];
    if log[|log| - 1].body != Commit {
      HistoryAt(init, history, i);
    } else if i < |history| - 1 {
      HistoryAt(init, history[..|history| - 1], i);
    }
  }

  lemma {:induction false} HistoryAscends(log: seq<Record>, history: seq<Done>, i: nat, j: nat)
    requires Matches(log, history) && Numbered(log) && i < j < |history|
    ensures history[i].lsn < history[j].lsn
    decreases |log|
  {
    var init := log[..|log| - 1];
    if log[|log| - 1].body != Commit {
      HistoryAscends(init, history, i, j);
    } else if j < |history| - 1 {
      HistoryAscends(init, history[..|history| - 1], i, j);
    } else {
      HistoryAt(init, history[..|history| - 1], i);
    }
  }

  lemma {:induction false} HistoryCovers(log: seq<Record>, history: seq<Done>, n: nat) returns (i: nat)
    requires Matches(log, history) && Numbered(log) && n < |log| && log[n].body == Commit
    ensures i < |history| && history[i].lsn == n + 1 && history[i].txn == log[n].txn
    decreases |log|
  {
    var init := log[..|log| - 1];
    if log[|log| - 1].body != Commit {
      i := HistoryCovers(init, history, n);
    } else if n < |log| - 1 {
      i := HistoryCovers(init, history[..|history| - 1], n);
    } else {
      i := |history| - 1;
    }
  }

  /** The history is exactly the list of the log's COMMIT records, in ascending LSN order. */
  lemma HistoryIsCommits(run: seq<Action>)
    requires Legal(run)
    ensures var s := After(run); var log := W.All(s.wal);
      && (forall i, j :: 0 <= i < j < |s.history| ==> s.history[i].lsn < s.history[j].lsn)
      && (forall i :: 0 <= i < |s.history| ==> CommitAt(log, s.history[i].lsn, s.history[i].txn))
      && (forall n :: 0 <= n < |log| && log[n].body == Commit ==>
            exists i :: 0 <= i < |s.history| && s.history[i].lsn == n + 1 && s.history[i].txn == log[n].txn)
  {
    InvAlways(run);
    var s := After(run);
    var log := W.All(s.wal);
    forall i, j | 0 <= i < j < |s.history| ensures s.history[i].lsn < s.history[j].lsn {
      HistoryAscends(log, s.history, i, j);
    }
    forall i | 0 <= i < |s.history| ensures CommitAt(log, s.history[i].lsn, s.history[i].txn) {
      HistoryAt(log, s.history, i);
    }
    forall n | 0 <= n < |log| && log[n].body == Commit
      ensures exists i :: 0 <= i < |s.history| && s.history[i].lsn == n + 1 && s.history[i].txn == log[n].txn
    {
      var i := HistoryCovers(log, s.history, n);
    }
  }

  /**
   * Agreement of store and log. At every key outside the leaked ones the store shows the
   * COMMIT-LSN-order fold of the logged commits, unless exactly one transaction with a
   * logged COMMIT has yet to apply the key; that one holds the key EXCLUSIVE, and the fold
   * shows what it is about to write.
   */
  lemma StoreAgreesWithLog(run: seq<Action>, k: Key)
    requires Legal(run) && k !in After(run).leaked
    ensures var s := After(run);
      || Read(s.store, k) == Read(Fold(W.All(s.wal)), k)
      || (exists t :: t in s.txns && Unapplied(s.txns[t], k) && Hold(s.locks, t, k) == Exclusive
                   && k in s.txns[t].buffer && Read(Fold(W.All(s.wal)), k) == Effect(s.txns[t].buffer[k])
                   && (forall u :: u in s.txns && Unapplied(s.txns[u], k) ==> u == t))
  {
    InvAlways(run);
    var s := After(run);
    var serial := SerialStore(s);
    if t :| t in s.txns && Unapplied(s.txns[t], k) {
      assert TxnPending(serial, s.txns[t], s.leaked);
      assert TxnHolds(s.locks, t, s.txns[t], s.leaked);
      forall u | u in s.txns && Unapplied(s.txns[u], k) ensures u == t {
        assert TxnPending(serial, s.txns[u], s.leaked);
        if u != t {
          WriterExcludes(s, t, u, k);
        }
      }
    } else {
      assert Agrees(s, serial, k);
    }
  }

  // ---------------------------------------------------------------- REPEATABLE_READ only

  predicate OnlyRepeatableRead(run: seq<Action>) {
    forall i :: 0 <= i < |run| && run[i].BeginTxn? ==> run[i].level == RepeatableRead
  }

  ghost predicate AllRepeatable(s: State) {
    && s.leaked == {}
    && (forall t :: t in s.txns ==> s.txns[t].level == RepeatableRead)
    && (forall i :: 0 <= i < |s.history| ==> s.history[i].level == RepeatableRead)
  }

  lemma RepeatableStep(s: State, a: Action)
    requires AllRepeatable(s) && Enabled(s, a) && (a.BeginTxn? ==> a.level == RepeatableRead)
    ensures AllRepeatable(Do(s, a))
  {
    match a
    case By(t, m) => RepeatableMove(s, t, m);
    case _ =>
  }

  lemma RepeatableMove(s: State, t: TxnId, m: Move)
    requires AllRepeatable(s) && CanMove(s, t, m)
    ensures AllRepeatable(DoMove(s, t, m))
  {
    MoveIsLocal(s, t, m);
  }

  lemma {:induction false} RepeatableAlways(run: seq<Action>)
    requires Legal(run) && OnlyRepeatableRead(run)
    ensures AllRepeatable(After(run))
  {
    if run == [] {
      Start();
    } else {
      var init := run[..|run| - 1];
      Last(run);
      assert OnlyRepeatableRead(init);
      RepeatableAlways(init);
      RepeatableStep(After(init), run[|run| - 1]);
    }
  }

  /**
   * In every run of REPEATABLE_READ transactions the serial run in COMMIT-LSN order shows
   * every committed transaction what it saw, and once no transaction is in progress the
   * store is the serial store.
   */
  lemma RepeatableReadIsSerializable(run: seq<Action>)
    requires Legal(run) && OnlyRepeatableRead(run)
    ensures var s := After(run);
      && (forall i :: 0 <= i < |s.history| ==> Faithful(RunAll(s.history[..i]), s.history[i].trace, {}))
      && (s.txns == map[] ==> s.store == RunAll(s.history))
  {
    var s := After(run);
    InvAlways(run);
    RepeatableAlways(run);
    MatchesFold(W.All(s.wal), s.history);
    if s.txns == map[] {
      forall k ensures Read(s.store, k) == Read(RunAll(s.history), k) {
        assert Agrees(s, SerialStore(s), k);
      }
      StoresEqual(s.store, RunAll(s.history));
    }
  }

  // ---------------------------------------------------------------- repeatable reads

  predicate Untouched(trace: seq<Event>, k: Key, i: nat, j: nat) {
    i <= j <= |trace| && forall n :: i <= n < j && trace[n].Wrote? ==> trace[n].op.key != k
  }

  lemma {:induction false} BufferUntouched(trace: seq<Event>, k: Key, i: nat, j: nat)
    requires Untouched(trace, k, i, j)
    ensures k in BufferOf(trace[..i]) <==> k in BufferOf(trace[..j])
    ensures k in BufferOf(trace[..i]) ==> BufferOf(trace[..i])[k] == BufferOf(trace[..j])[k]
    decreases j
  {
    if i < j {
      BufferUntouched(trace, k, i, j - 1);
      assert trace[..j][..j - 1] == trace[..j - 1];
    }
  }

  lemma FaithfulRepeats(store: Store, trace: seq<Event>, leaked: set<Key>, k: Key, i: nat, j: nat)
    requires Faithful(store, trace, leaked) && k !in leaked
    requires i < j < |trace| && Untouched(trace, k, i, j)
    requires trace[i].Saw? && trace[i].key == k && trace[j].Saw? && trace[j].key == k
    ensures trace[i].result == trace[j].result
  {
    FaithfulReads(store, trace, leaked, i);
    FaithfulReads(store, trace, leaked, j);
    BufferUntouched(trace, k, i, j);
  }

  /**
   * Repeatable reads: a REPEATABLE_READ transaction, committed or still at work, that reads
   * a key twice without writing it in between gets the same answer.
   */
  lemma ReadsRepeat(run: seq<Action>, t: TxnId, k: Key, i: nat, j: nat)
    requires Legal(run) && k !in After(run).leaked
    requires t in After(run).txns && After(run).txns[t].level == RepeatableRead && Uncommitted(After(run).txns[t].pc)
    requires var trace := After(run).txns[t].trace;
      && i < j < |trace| && Untouched(trace, k, i, j)
      && trace[i].Saw? && trace[i].key == k && trace[j].Saw? && trace[j].key == k
    ensures After(run).txns[t].trace[i].result == After(run).txns[t].trace[j].result
  {
    InvAlways(run);
    var s := After(run);
    assert TxnTraced(SerialStore(s), s.txns[t], s.leaked);
    FaithfulRepeats(SerialStore(s), s.txns[t].trace, s.leaked, k, i, j);
  }

  lemma CommittedReadsRepeat(run: seq<Action>, n: nat, k: Key, i: nat, j: nat)
    requires Legal(run) && k !in After(run).leaked
    requires n < |After(run).history| && After(run).history[n].level == RepeatableRead
    requires var trace := After(run).history[n].trace;
      && i < j < |trace| && Untouched(trace, k, i, j)
      && trace[i].Saw? && trace[i].key == k && trace[j].Saw? && trace[j].key == k
    ensures After(run).history[n].trace[i].result == After(run).history[n].trace[j].result
  {
    InvAlways(run);
    var s := After(run);
    FaithfulRepeats(RunAll(s.history[..n]), s.history[n].trace, s.leaked, k, i, j);
  }

  // ---------------------------------------------------------------- no dirty reads

  /**
   * No dirty reads, at either isolation level and in any mix: what a GET takes from the
   * store was written by a transaction whose COMMIT record is at or below the flushed mark
   * (or the key was never written), and what it takes from the buffer is the transaction's
   * own latest write.
   */
  lemma NoDirtyReads(run: seq<Action>, t: TxnId)
    requires Legal(run) && CanMove(After(run), t, Finish) && After(run).txns[t].pc.cmd.Get?
    ensures var s := After(run); var x := s.txns[t]; var k := x.pc.cmd.key;
      var seen := DoFinish(s, t).txns[t].trace;
      && |seen| == |x.trace| + 1 && seen[|x.trace|].Saw? && seen[|x.trace|].key == k
      && var result := seen[|x.trace|].result;
         if k in BufferOf(x.trace) then result == Effect(BufferOf(x.trace)[k])
         else if k in s.author then WrittenBy(W.All(s.wal), s.wal.flushed, k, result, s.author[k])
         else result == None
  {
    InvAlways(run);
    var s := After(run);
    var x := s.txns[t];
    assert TxnTraced(SerialStore(s), x, s.leaked);
    assert Authored(s, x.pc.cmd.key);
  }
}
