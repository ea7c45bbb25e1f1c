// Where the values in the store come from.
module EngineReads {
  import opened Kv
  import opened Log
  import opened Engine
  import opened EngineLog
  import W = Wal

  /** One of the operations writes this outcome to the key. */
  predicate Writes(ops: seq<Op>, k: Key, outcome: Option<Value>) {
    exists i :: 0 <= i < |ops| && ops[i].key == k && Effect(ops[i].write) == outcome
  }

  /** The outcome at the key was written by the transaction whose COMMIT record is at `lsn`, below the mark. */
  predicate WrittenBy(log: seq<Record>, flushed: Lsn, k: Key, outcome: Option<Value>, lsn: Lsn) {
    && 0 < lsn <= flushed && lsn <= |log| && log[lsn - 1].body == Commit
    && Writes(OpsOf(log, log[lsn - 1].txn), k, outcome)
  }

  predicate Authored(s: State, k: Key) {
    if k in s.author then WrittenBy(W.All(s.wal), s.wal.flushed, k, Read(s.store, k), s.author[k])
    else k !in s.store
  }

  ghost predicate ReadInv(s: State) {
    forall k :: Authored(s, k)
  }

  lemma WrittenAppend(log: seq<Record>, r: Record, flushed: Lsn, k: Key, outcome: Option<Value>, lsn: Lsn)
    requires WrittenBy(log, flushed, k, outcome, lsn) && Open(log, r.txn)
    ensures WrittenBy(log + [r], flushed, k, outcome, lsn)
  {
    OpsOfAppend(log, r, log[lsn - 1].txn);
  }

  lemma AppendKeeps(s: State, s': State, t: TxnId, b: Body)
    requires LogInv(s) && ReadInv(s) && Open(W.All(s.wal), t)
    requires s'.wal == W.Append(s.wal, t, b) && s'.store == s.store && s'.author == s.author
    ensures ReadInv(s')
  {
    W.AppendAll(s.wal, t, b);
    forall k ensures Authored(s', k) {
      assert Authored(s, k);
      if k in s.author {
        WrittenAppend(W.All(s.wal), Record(s.wal.nextLsn, t, b), s.wal.flushed, k, Read(s.store, k), s.author[k]);
      }
    }
  }

  lemma FlushKeeps(s: State, s': State)
    requires ReadInv(s) && W.All(s'.wal) == W.All(s.wal) && s'.wal.flushed >= s.wal.flushed
    requires s'.store == s.store && s'.author == s.author
    ensures ReadInv(s')
  {
    forall k ensures Authored(s', k) {
      assert Authored(s, k);
    }
  }

  lemma NextIsLogged(log: seq<Record>, flushed: Lsn, t: TxnId, x: Txn)
    requires x.pc.Applying? && x.pc.todo != [] && TxnLogged(log, flushed, t, x)
    ensures WrittenBy(log, flushed, x.pc.todo[0].key, Effect(x.pc.todo[0].write), x.pc.lsn)
  {
    var all := Engine.Writes(x.buffer);
    var n :| 0 <= n <= |all| && x.pc.todo == all[n..];
    assert all[n] == x.pc.todo[0];
  }

  lemma ApplyNextKeeps(s: State, t: TxnId)
    requires LogInv(s) && ReadInv(s) && CanMove(s, t, ApplyNext)
    ensures ReadInv(DoMove(s, t, ApplyNext))
  {
    var s' := DoMove(s, t, ApplyNext);
    var x := s.txns[t];
    assert TxnLogged(W.All(s.wal), s.wal.flushed, t, x);
    NextIsLogged(W.All(s.wal), s.wal.flushed, t, x);
    forall k ensures Authored(s', k) {
      assert Authored(s, k);
    }
  }

  lemma ReadInvMove(s: State, t: TxnId, m: Move)
    requires LogInv(s) && ReadInv(s) && CanMove(s, t, m)
    ensures ReadInv(DoMove(s, t, m))
  {
    var s' := DoMove(s, t, m);
    assert TxnLogged(W.All(s.wal), s.wal.flushed, t, s.txns[t]);
    match m
    case LogBegin => AppendKeeps(s, s', t, Begin);
    case LogNext => AppendKeeps(s, s', t, Change(s.txns[t].pc.todo[0]));
    case LogCommit => AppendKeeps(s, s', t, Commit);
    case AbortTxn => AppendKeeps(s, s', t, Abort);
    case ApplyNext => ApplyNextKeeps(s, t);
    case _ => SilentKeeps(s, t, m);
  }

  lemma SilentKeeps(s: State, t: TxnId, m: Move)
    requires ReadInv(s) && CanMove(s, t, m)
    requires m != LogBegin && m != LogNext && m != LogCommit && m != AbortTxn && m != ApplyNext
    ensures ReadInv(DoMove(s, t, m))
  {
    FlushKeeps(s, DoMove(s, t, m));
  }

  lemma ReadInvStep(s: State, a: Action)
    requires LogInv(s) && ReadInv(s) && Enabled(s, a)
    ensures ReadInv(Do(s, a))
  {
    match a
    case By(t, m) => ReadInvMove(s, t, m);
    case Fetch => W.FetchKeeps(s.wal); FlushKeeps(s, Do(s, a));
    case WriteRecord => W.WriteOneKeeps(s.wal); FlushKeeps(s, Do(s, a));
    case PassOn => W.PassKeeps(s.wal); FlushKeeps(s, Do(s, a));
    case Sync => W.SyncKeeps(s.wal); FlushKeeps(s, Do(s, a));
    case DraftSnapshot => W.CoverKeeps(s.wal); FlushKeeps(s, Do(s, a));
    case Truncate => W.CoverKeeps(s.wal); FlushKeeps(s, Do(s, a));
    case _ => FlushKeeps(s, Do(s, a));
  }
}
