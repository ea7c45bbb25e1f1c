// What a client of the server gets when nobody else is connected: whole transactions on the
// session object, for every key, every value and every state that any run has led to.
module Clients {
  import opened Kv
  import opened Engine
  import opened LockTable
  import opened SessionSteps
  import opened Sessions
  import LockOrder
  import Scenarios
  import WalManager

  /** The objects show the state after the run, and no transaction is in progress. */
  ghost predicate Quiet(tm: TransactionManager, run: seq<Action>)
    reads tm, tm.server, tm.locks, tm.wal, tm.group, tm.store
  {
    Legal(run) && tm.Shows(RoomOf(After(run))) && After(run).txns == map[] && !tm.active
  }

  /** The only transaction in progress gets every lock it asks for at once. */
  lemma AloneGetsLocks(run: seq<Action>, m: Mine, cmd: Cmd)
    requires Legal(run) && At(m, After(run), Active) && forall u :: u in After(run).txns ==> u == m.txnId
    ensures Grantable(EntryAt(After(run).locks, KeyOf(cmd)), m.txnId, ModeOf(cmd))
  {
    LockOrder.WaitsForSomebody(run, m.txnId, cmd);
  }

  lemma OnlyMine(run: seq<Action>, longer: seq<Action>, m: Mine)
    requires Goes(run, longer, m.session) && Rests(m, After(longer))
    requires forall u :: u in After(run).txns ==> After(run).txns[u].session == m.session
    ensures if m.active then forall u :: u in After(longer).txns ==> u == m.txnId else After(longer).txns == map[]
    ensures forall u :: u in After(longer).txns ==> After(longer).txns[u].session == m.session
  {
  }

  /** The session is in a transaction, the only one in progress, with these writes. */
  ghost predicate Busy(tm: TransactionManager, run: seq<Action>, buffer: map<Key, Write>)
    reads tm, tm.server, tm.locks, tm.wal, tm.group, tm.store
  {
    && Legal(run) && tm.Shows(RoomOf(After(run))) && tm.active && tm.pendingBuffer == buffer
    && At(tm.Own(), After(run), Active) && forall u :: u in After(run).txns ==> u == tm.txnId
  }

  method BeginAlone(tm: TransactionManager, isolation: Isolation, ghost run: seq<Action>)
    returns (r: Reply, ghost longer: seq<Action>)
    requires Quiet(tm, run) && tm.wal.nextLsn < WalManager.LSN_LIMIT
    modifies tm, tm.server`nextTxnId, tm.wal
    ensures r == Ok && Busy(tm, longer, map[]) && tm.wal.nextLsn == old(tm.wal.nextLsn) + 1
  {
    ghost var m := tm.Own();
    r, longer := tm.RunBegin(isolation, run);
    OnlyMine(run, longer, tm.Own());
  }

  method ModifyAlone(tm: TransactionManager, op: Op, ghost run: seq<Action>)
    returns (r: Reply, ghost longer: seq<Action>)
    requires Busy(tm, run, tm.pendingBuffer)
    modifies tm`pendingBuffer, tm`locksHeld, tm.locks
    ensures r == Ok && Busy(tm, longer, old(tm.pendingBuffer)[op.key := op.write])
  {
    AloneGetsLocks(run, tm.Own(), Cmd.Modify(op));
    r, longer := tm.RunModify(op, run);
    OnlyMine(run, longer, tm.Own());
  }

  method GetAlone(tm: TransactionManager, k: Key, ghost run: seq<Action>)
    returns (r: Reply, ghost longer: seq<Action>)
    requires Busy(tm, run, tm.pendingBuffer)
    modifies tm`locksHeld, tm.locks
    ensures Busy(tm, longer, old(tm.pendingBuffer)) && tm.Finds(r, tm.pendingBuffer, tm.store.data, k)
  {
    AloneGetsLocks(run, tm.Own(), Cmd.Get(k));
    r, longer := tm.RunGet(k, run);
    OnlyMine(run, longer, tm.Own());
  }

  method CommitAlone(tm: TransactionManager, ghost run: seq<Action>)
    returns (r: Reply, ghost longer: seq<Action>)
    requires Busy(tm, run, tm.pendingBuffer)
    requires tm.wal.nextLsn + |Writes(tm.pendingBuffer)| < WalManager.LSN_LIMIT
    modifies tm, tm.locks, tm.wal, tm.group, tm.store
    ensures r == Ok && Quiet(tm, longer)
    ensures forall k :: Stored(old(tm.pendingBuffer), old(tm.store.data), tm.store.data, k)
  {
    r, longer := tm.Commit(run);
    OnlyMine(run, longer, tm.Own());
  }

  method AbortAlone(tm: TransactionManager, ghost run: seq<Action>)
    returns (r: Reply, ghost longer: seq<Action>)
    requires Busy(tm, run, tm.pendingBuffer) && tm.wal.nextLsn < WalManager.LSN_LIMIT
    modifies tm, tm.locks, tm.wal
    ensures r == Ok && Quiet(tm, longer)
  {
    r, longer := tm.RunAbort(run);
    OnlyMine(run, longer, tm.Own());
  }

  // ---------------------------------------------------------------- whole transactions

  /** BEGIN, PUT or DELETE, GET of the same key, COMMIT. */
  method WriteTxn(tm: TransactionManager, op: Op, isolation: Isolation, ghost run: seq<Action>)
    returns (seen: Reply, ghost longer: seq<Action>)
    requires Quiet(tm, run) && tm.wal.nextLsn + 2 < WalManager.LSN_LIMIT
    modifies tm, tm.server`nextTxnId, tm.locks, tm.wal, tm.group, tm.store
    ensures Quiet(tm, longer)
    ensures seen == match op.write case Put(v) => Value(v) case Delete => KeyNotFound
    ensures tm.store.data == match op.write
      case Put(v) => old(tm.store.data)[op.key := v]
      case Delete => old(tm.store.data) - {op.key}
  {
    var r;
    ghost var a := run;
    r, a := BeginAlone(tm, isolation, run);
    r, a := ModifyAlone(tm, op, a);
    seen, a := GetAlone(tm, op.key, a);
    Scenarios.OneWrite(op.key, op.write);
    assert tm.pendingBuffer == map[op.key := op.write];
    ghost var before := tm.store.data;
    r, longer := CommitAlone(tm, a);
    OneStored(op, before, tm.store.data);
  }

  lemma OneStored(op: Op, before: Store, after: Store)
    requires forall k :: Stored(map[op.key := op.write], before, after, k)
    ensures after == match op.write case Put(v) => before[op.key := v] case Delete => before - {op.key}
  {
    var expected := match op.write case Put(v) => before[op.key := v] case Delete => before - {op.key};
    forall k ensures Read(after, k) == Read(expected, k) {
      assert Stored(map[op.key := op.write], before, after, k);
    }
    StoresEqual(after, expected);
  }

  /** BEGIN, GET, COMMIT: the reply is what the store has, and the store stays as it is. */
  method ReadTxn(tm: TransactionManager, k: Key, isolation: Isolation, ghost run: seq<Action>)
    returns (seen: Reply, ghost longer: seq<Action>)
    requires Quiet(tm, run) && tm.wal.nextLsn + 1 < WalManager.LSN_LIMIT
    modifies tm, tm.server`nextTxnId, tm.locks, tm.wal, tm.group, tm.store
    ensures Quiet(tm, longer) && tm.store.data == old(tm.store.data)
    ensures seen == if k in old(tm.store.data) then Value(old(tm.store.data)[k]) else KeyNotFound
  {
    var r;
    ghost var a := run;
    r, a := BeginAlone(tm, isolation, run);
    seen, a := GetAlone(tm, k, a);
    ghost var before := tm.store.data;
    r, longer := CommitAlone(tm, a);
    forall j ensures Read(tm.store.data, j) == Read(before, j) {
      assert Stored(map[], before, tm.store.data, j);
    }
    StoresEqual(tm.store.data, before);
  }

  /** BEGIN, PUT or DELETE, ABORT: the store stays as it is, and the server is as free as before. */
  method AbortTxn(tm: TransactionManager, op: Op, isolation: Isolation, ghost run: seq<Action>)
    returns (r: Reply, ghost longer: seq<Action>)
    requires Quiet(tm, run) && tm.wal.nextLsn + 1 < WalManager.LSN_LIMIT
    modifies tm, tm.server`nextTxnId, tm.locks, tm.wal
    ensures r == Ok && Quiet(tm, longer) && tm.store.data == old(tm.store.data) && tm.locks.table == map[]
  {
    ghost var a := run;
    r, a := BeginAlone(tm, isolation, run);
    r, a := ModifyAlone(tm, op, a);
    r, longer := AbortAlone(tm, a);
    NoTxnNoLock(longer);
  }

  lemma NoTxnNoLock(run: seq<Action>)
    requires Legal(run) && After(run).txns == map[]
    ensures After(run).locks == map[]
  {
    var locks := After(run).locks;
    forall k ensures k !in locks {
      NobodyHolds(run, k);
    }
  }

  lemma NobodyHolds(run: seq<Action>, k: Key)
    requires Legal(run) && After(run).txns == map[]
    ensures k !in After(run).locks
  {
    LockOrder.LockTableStaysWellFormed(run);
    if k in After(run).locks {
      var e := After(run).locks[k];
      var u :| u in e.holders;
      NothingIsLeft(run, u, k);
    }
  }
}
