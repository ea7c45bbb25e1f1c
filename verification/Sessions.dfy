// One session's transaction as an object, with the managers it drives, and the server that
// holds the sessions. The methods named as in the source work on the objects; each Run method
// carries a ghost run of the engine along: if the objects show the state after that run before
// the call, they show the state after a longer run when it returns. So whatever is proved of
// every run holds of these objects, between the calls of any number of sessions.
module Sessions {
  import opened Kv
  import opened LockTable
  import opened L = Log
  import opened Serial
  import opened Engine
  import opened RunSteps
  import opened SessionSteps
  import opened WalManager
  import opened GroupCommit
  import Codec
  import CrashRecovery
  import Disk
  import FileFaults
  import Framing
  import LM = LockManager
  import SnapshotFile
  import Truncation
  import W = Wal

  class KvStore {
    var data: Store

    constructor ()
      ensures data == map[]
    {
      data := map[];
    }
  }

  class TransactionManager {
    const session: SessionId
    const server: Server
    const locks: LM.LockManager
    const wal: WalManager
    const group: GroupCommitManager
    const store: KvStore

    var active: bool
    var txnId: TxnId
    var level: Isolation
    var pendingBuffer: map<Key, Write>
    var locksHeld: map<Key, LockMode>
    var totalCommits: nat
    var deadlockAborts: nat

    /** The shared objects show this, down to the bytes of the log file. */
    ghost predicate Shows(room: Room)
      reads server, locks, wal, group, store
    {
      && group.wal == wal && group.Valid()
      && server.nextTxnId == room.nextTxn
      && locks.table == room.locks
      && wal.model == room.wal && wal.FileShows(room.truncated)
      && store.data == room.store
    }

    ghost function Own(): Mine
      reads this
    {
      Mine(session, active, txnId, level, pendingBuffer)
    }

    constructor (session: SessionId, server: Server, locks: LM.LockManager, wal: WalManager,
                 group: GroupCommitManager, store: KvStore)
      ensures this.session == session && this.server == server && this.locks == locks
      ensures this.wal == wal && this.group == group && this.store == store
      ensures Own() == Idle(session) && locksHeld == map[]
    {
      this.session, this.server, this.locks := session, server, locks;
      this.wal, this.group, this.store := wal, group, store;
      active, txnId, level := false, 0, RepeatableRead;
      pendingBuffer, locksHeld := map[], map[];
      totalCommits, deadlockAborts := 0, 0;
    }

    // -------------------------------------------------------------- one shared object at a time

    method Log(body: Body, ghost room: Room) returns (lsn: Lsn)
      requires Shows(room) && wal.nextLsn < LSN_LIMIT
      modifies wal
      ensures Shows(room.(wal := W.Append(room.wal, txnId, body))) && lsn == room.wal.nextLsn
      ensures wal.nextLsn == lsn + 1
    {
      lsn := wal.LogRecord(txnId, body);
    }

    method Release(ghost room: Room)
      requires Shows(room)
      modifies locks
      ensures Shows(room.(locks := ReleaseAll(room.locks, txnId)))
    {
      locks.ReleaseAllLocks(txnId);
    }

    method Reset()
      modifies this
      ensures Own() == Idle(session) && locksHeld == map[]
      ensures totalCommits == old(totalCommits) && deadlockAborts == old(deadlockAborts)
    {
      active, txnId, level := false, 0, RepeatableRead;
      pendingBuffer, locksHeld := map[], map[];
    }

    // -------------------------------------------------------------- begin, put, delete_key, get, abort

    method Start(isolation: Isolation, ghost room: Room)
      requires Shows(room)
      modifies this, server`nextTxnId
      ensures Shows(room.(nextTxn := room.nextTxn + 1)) && Own() == Mine(session, true, room.nextTxn, isolation, map[])
      ensures locksHeld == map[] && totalCommits == old(totalCommits) && deadlockAborts == old(deadlockAborts)
    {
      txnId := server.AllocateTxnId();
      level, active := isolation, true;
      pendingBuffer, locksHeld := map[], map[];
    }

    method Begin(isolation: Isolation, ghost room: Room) returns (r: Reply)
      requires Shows(room) && wal.nextLsn < LSN_LIMIT
      modifies this, server`nextTxnId, wal
      ensures Shows(Begun(room, old(Own()), isolation).room) && Own() == Begun(room, old(Own()), isolation).mine
      ensures r == Begun(room, old(Own()), isolation).reply
      ensures r == if old(active) then AlreadyInTransaction else Ok
      ensures r == Ok ==> active && level == isolation && txnId == old(server.nextTxnId) && pendingBuffer == map[]
      ensures r == Ok ==> wal.model == W.Append(old(wal.model), txnId, L.Begin) && server.nextTxnId == txnId + 1
      ensures r != Ok ==> Own() == old(Own()) && wal.model == old(wal.model)
      ensures locksHeld == if r == Ok then map[] else old(locksHeld)
      ensures totalCommits == old(totalCommits) && deadlockAborts == old(deadlockAborts)
    {
      if active {
        return AlreadyInTransaction;
      }
      Start(isolation, room);
      var _ := Log(L.Begin, room.(nextTxn := room.nextTxn + 1));
      return Ok;
    }

    /** put and delete_key: asks for EXCLUSIVE, then records the write in the buffer; or stops at the wait. */
    method Modify(op: Op, ghost room: Room) returns (r: Reply)
      requires Shows(room)
      modifies this`pendingBuffer, this`locksHeld, locks
      ensures Shows(Modified(room, old(Own()), op).room) && Own() == Modified(room, old(Own()), op).mine
      ensures r == Modified(room, old(Own()), op).reply
      ensures !active <==> r == NotInTransaction
      ensures r == Ok ==> pendingBuffer == old(pendingBuffer)[op.key := op.write]
      ensures r != Ok ==> pendingBuffer == old(pendingBuffer)
      ensures locksHeld == if r == Ok then old(locksHeld)[op.key := Exclusive] else old(locksHeld)
    {
      if !active {
        return NotInTransaction;
      }
      var verdict := locks.RequestLock(txnId, op.key, Exclusive);
      if verdict == Queued {
        return Waiting;
      }
      locksHeld := locksHeld[op.key := Exclusive];
      pendingBuffer := pendingBuffer[op.key := op.write];
      return Ok;
    }

    method Abort(ghost room: Room) returns (r: Reply)
      requires Shows(room) && (active ==> wal.nextLsn < LSN_LIMIT)
      modifies this, locks, wal
      ensures Shows(Abandoned(room, old(Own())).room) && Own() == Abandoned(room, old(Own())).mine
      ensures r == Abandoned(room, old(Own())).reply
      ensures r == if old(active) then Ok else NotInTransaction
      ensures !active && (r == Ok ==> pendingBuffer == map[])
      ensures r == Ok ==> wal.model == W.Append(old(wal.model), old(txnId), L.Abort)
      ensures r == Ok ==> locks.table == ReleaseAll(old(locks.table), old(txnId))
      ensures locksHeld == if r == Ok then map[] else old(locksHeld)
      ensures totalCommits == old(totalCommits) && deadlockAborts == old(deadlockAborts)
    {
      if !active {
        return NotInTransaction;
      }
      var _ := Log(L.Abort, room);
      pendingBuffer := map[];
      Release(room.(wal := W.Append(room.wal, txnId, L.Abort)));
      Reset();
      return Ok;
    }

    /** The wait is over without the lock: the request is gone, and the transaction is aborted. */
    method Fail(k: Key, ghost room: Room) returns (r: Reply)
      requires active && Shows(room.(locks := GiveUp(room.locks, txnId, k))) && wal.nextLsn < LSN_LIMIT
      modifies this, locks, wal
      ensures Shows(GivenUp(room, old(Own()), k).room) && Own() == GivenUp(room, old(Own()), k).mine
      ensures r == DeadlockAborted && deadlockAborts == old(deadlockAborts) + 1 && totalCommits == old(totalCommits)
      ensures locksHeld == map[]
    {
      var _ := Abort(room.(locks := GiveUp(room.locks, txnId, k)));
      deadlockAborts := deadlockAborts + 1;
      return DeadlockAborted;
    }

    /** The rest of put or delete_key after the wait. */
    method ResumeModify(op: Op, ghost room: Room) returns (r: Reply)
      requires active && Shows(room) && op.key in room.locks && wal.nextLsn < LSN_LIMIT
      modifies this, locks, wal
      ensures Shows(ResumedModify(room, old(Own()), op).room) && Own() == ResumedModify(room, old(Own()), op).mine
      ensures r == ResumedModify(room, old(Own()), op).reply
      ensures r == if Waits(old(locks.table), old(txnId), op.key) then DeadlockAborted else Ok
      ensures r == Ok ==> active && pendingBuffer == old(pendingBuffer)[op.key := op.write]
      ensures r == DeadlockAborted ==> !active && wal.model == W.Append(old(wal.model), old(txnId), L.Abort)
      ensures locksHeld == if r == Ok then old(locksHeld)[op.key := Exclusive] else map[]
      ensures deadlockAborts == old(deadlockAborts) + if r == Ok then 0 else 1
    {
      var granted := locks.FinishWait(txnId, op.key);
      if granted {
        locksHeld := locksHeld[op.key := Exclusive];
        pendingBuffer := pendingBuffer[op.key := op.write];
        r := Ok;
      } else {
        r := Fail(op.key, room);
      }
    }

    /** The reply is the value that get has to return: the buffered write of the key, or else what the store has. */
    static predicate Finds(r: Reply, buffer: map<Key, Write>, data: Store, k: Key) {
      if k in buffer && buffer[k].Put? then r == Value(buffer[k].value)
      else if k in buffer then r == KeyNotFound
      else if k in data then r == Value(data[k])
      else r == KeyNotFound
    }

    /** The part of get under the lock: own buffer first, then the store; READ_COMMITTED gives the lock back. */
    method ReadUnderLock(k: Key, ghost room: Room) returns (r: Reply)
      requires Shows(room)
      modifies this`locksHeld, locks
      ensures Shows(Answered(room, Own(), k).room) && r == Answered(room, Own(), k).reply
      ensures Finds(r, pendingBuffer, store.data, k)
      ensures level == ReadCommitted ==> locks.table == LockTable.Release(old(locks.table), txnId, k)
      ensures level == RepeatableRead ==> locks.table == old(locks.table)
      ensures locksHeld == if level == ReadCommitted then old(locksHeld) - {k} else old(locksHeld)[k := Shared]
    {
      locksHeld := locksHeld[k := Shared];
      if k in pendingBuffer {
        r := if pendingBuffer[k].Put? then Value(pendingBuffer[k].value) else KeyNotFound;
      } else if k in store.data {
        r := Value(store.data[k]);
      } else {
        r := KeyNotFound;
      }
      if level == ReadCommitted {
        locks.ReleaseLock(txnId, k);
        locksHeld := locksHeld - {k};
      }
    }

    method Get(k: Key, ghost room: Room) returns (r: Reply)
      requires Shows(room)
      modifies this`locksHeld, locks
      ensures Shows(Gotten(room, Own(), k).room) && r == Gotten(room, Own(), k).reply
      ensures !active <==> r == NotInTransaction
      ensures r == NotInTransaction || r == Waiting || Finds(r, pendingBuffer, store.data, k)
      ensures locksHeld == if r == NotInTransaction || r == Waiting then old(locksHeld)
                           else if level == ReadCommitted then old(locksHeld) - {k} else old(locksHeld)[k := Shared]
    {
      if !active {
        return NotInTransaction;
      }
      var verdict := locks.RequestLock(txnId, k, Shared);
      if verdict == Queued {
        return Waiting;
      }
      r := ReadUnderLock(k, room.(locks := Request(room.locks, txnId, k, Shared)));
    }

    method ResumeGet(k: Key, ghost room: Room) returns (r: Reply)
      requires active && Shows(room) && k in room.locks && wal.nextLsn < LSN_LIMIT
      modifies this, locks, wal
      ensures Shows(ResumedGet(room, old(Own()), k).room) && Own() == ResumedGet(room, old(Own()), k).mine
      ensures r == ResumedGet(room, old(Own()), k).reply
      ensures if Waits(old(locks.table), old(txnId), k) then r == DeadlockAborted && !active
              else Finds(r, pendingBuffer, store.data, k) && Own() == old(Own())
      ensures deadlockAborts == old(deadlockAborts) + if r == DeadlockAborted then 1 else 0
      ensures locksHeld == if r == DeadlockAborted then map[]
                           else if level == ReadCommitted then old(locksHeld) - {k} else old(locksHeld)[k := Shared]
    {
      var granted := locks.FinishWait(txnId, k);
      if granted {
        r := ReadUnderLock(k, room);
      } else {
        r := Fail(k, room);
      }
    }

    // -------------------------------------------------------------- commit

    /** Logs the given writes in order and then COMMIT. */
    method LogAll(ops: seq<Op>, ghost room: Room) returns (lsn: Lsn)
      requires Shows(room) && wal.nextLsn + |ops| < LSN_LIMIT
      modifies wal
      ensures Shows(room.(wal := CommitLogged(room.wal, txnId, ops)))
      ensures lsn == CommitLsn(room.wal, txnId, ops) && lsn < wal.nextLsn
    {
      ghost var w := room.wal;
      assert ops[0..] == ops;
      for i := 0 to |ops|
        modifies wal
        invariant Shows(room.(wal := w)) && wal.nextLsn + |ops| - i < LSN_LIMIT
        invariant AppendOps(w, txnId, ops[i..]) == AppendOps(room.wal, txnId, ops)
      {
        var _ := Log(Change(ops[i]), room.(wal := w));
        assert ops[i..][1..] == ops[i + 1..];
        w := W.Append(w, txnId, Change(ops[i]));
      }
      lsn := Log(L.Commit, room.(wal := w));
    }

    /** Writes the buffered writes to the store in key order. */
    method ApplyPendingBuffer(ghost room: Room)
      requires Shows(room)
      modifies store, this`pendingBuffer
      ensures Shows(room.(store := ApplyOps(room.store, Writes(old(pendingBuffer))))) && pendingBuffer == map[]
    {
      ApplyAll(Writes(pendingBuffer), room);
      pendingBuffer := map[];
    }

    method ApplyAll(ops: seq<Op>, ghost room: Room)
      requires Shows(room)
      modifies store
      ensures Shows(room.(store := ApplyOps(room.store, ops)))
    {
      for i := 0 to |ops|
        modifies store
        invariant Shows(room.(store := ApplyOps(room.store, ops[..i])))
      {
        store.data := if ops[i].write.Put? then store.data[ops[i].key := ops[i].write.value]
                      else store.data - {ops[i].key};
        assert ops[..i + 1][..i] == ops[..i];
      }
      assert ops[..|ops|] == ops;
    }

    // -------------------------------------------------------------- the methods as runs of the engine

    /**
     * The command has had this outcome: the reply, the session's own fields and the shared
     * objects are those of the outcome, and the objects show the state after a longer run
     * that ends in it, with the client's trace grown by what the reply told.
     */
    ghost predicate Does(run: seq<Action>, longer: seq<Action>, o: Outcome, r: Reply, cmd: Cmd)
      reads this, server, locks, wal, group, store
    {
      Shown(run, longer, session, o, cmd) && Shows(o.room) && Own() == o.mine && r == o.reply
    }

    /** The transaction is over: it is not in the run any more, nothing is held or awaited, and ABORT is logged last. */
    ghost predicate HasEnded(run: seq<Action>, longer: seq<Action>, t: TxnId)
      reads locks
      requires Legal(run) && Legal(longer)
    {
      && t !in After(longer).txns && Adds(After(run), After(longer), t, L.Abort)
      && forall k :: Hold(locks.table, t, k) == NoLock && !Waits(locks.table, t, k)
    }

    /**
     * A GET is answered with the buffered value or the stored one, and no lock on the key is left
     * at READ_COMMITTED, but one at REPEATABLE_READ.
     */
    ghost predicate Replies(k: Key, r: Reply)
      reads this, locks, store
    {
      Finds(r, pendingBuffer, store.data, k) && (Hold(locks.table, txnId, k) == NoLock <==> level == ReadCommitted)
    }

    method RunBegin(isolation: Isolation, ghost run: seq<Action>) returns (r: Reply, ghost longer: seq<Action>)
      requires Legal(run) && Shows(RoomOf(After(run))) && Rests(Own(), After(run)) && wal.nextLsn < LSN_LIMIT
      modifies this, server`nextTxnId, wal
      ensures Does(run, longer, Begun(RoomOf(After(run)), old(Own()), isolation), r, Cmd.Get([]))
      ensures r == if old(active) then AlreadyInTransaction else Ok
      ensures r == Ok ==> active && level == isolation && pendingBuffer == map[] && txnId !in After(run).txns
      ensures r == Ok ==>
        txnId in After(longer).txns && After(longer).txns[txnId] == Txn(session, isolation, Active, map[], [])
      ensures r == Ok ==> Adds(After(run), After(longer), txnId, L.Begin)
      ensures r != Ok ==> Own() == old(Own())
    {
      longer := BeginOutcome(run, Own(), isolation, Cmd.Get([]));
      r := Begin(isolation, RoomOf(After(run)));
    }

    method RunModify(op: Op, ghost run: seq<Action>) returns (r: Reply, ghost longer: seq<Action>)
      requires Legal(run) && Shows(RoomOf(After(run))) && Rests(Own(), After(run))
      modifies this`pendingBuffer, this`locksHeld, locks
      ensures Does(run, longer, Modified(RoomOf(After(run)), old(Own()), op), r, Cmd.Modify(op))
      ensures r == if !active then NotInTransaction
                   else if Grantable(EntryAt(old(locks.table), op.key), txnId, Exclusive) then Ok else Waiting
      ensures r == Ok ==> pendingBuffer == old(pendingBuffer)[op.key := op.write]
      ensures r == Ok ==> Tells(After(run), After(longer), txnId, Wrote(op))
      ensures r == Ok ==> Hold(locks.table, txnId, op.key) == Exclusive
      ensures r == Waiting ==> Waits(locks.table, txnId, op.key)
      ensures r != Ok ==> pendingBuffer == old(pendingBuffer)
    {
      longer := ModifyRun(run, Own(), op);
      r := Modify(op, RoomOf(After(run)));
    }

    method RunResumeModify(op: Op, ghost run: seq<Action>) returns (r: Reply, ghost longer: seq<Action>)
      requires Legal(run) && Shows(RoomOf(After(run))) && At(Own(), After(run), Blocked(Cmd.Modify(op)))
      requires wal.nextLsn < LSN_LIMIT
      modifies this, locks, wal
      ensures Does(run, longer, ResumedModify(RoomOf(After(run)), old(Own()), op), r, Cmd.Modify(op))
      ensures r == if Waits(old(locks.table), old(txnId), op.key) then DeadlockAborted else Ok
      ensures r == Ok ==> active && txnId == old(txnId) && pendingBuffer == old(pendingBuffer)[op.key := op.write]
      ensures r == Ok ==> Tells(After(run), After(longer), txnId, Wrote(op))
      ensures r == Ok ==> Hold(locks.table, txnId, op.key) == Exclusive
      ensures r != Ok ==> !active && HasEnded(run, longer, old(txnId))
    {
      ghost var t := txnId;
      EntryIsThere(run, Own(), Cmd.Modify(op));
      longer := ResumeModifyRun(run, Own(), op);
      r := ResumeModify(op, RoomOf(After(run)));
      if r == DeadlockAborted {
        NothingLeft(longer, t);
      }
    }

    method RunGet(k: Key, ghost run: seq<Action>) returns (r: Reply, ghost longer: seq<Action>)
      requires Legal(run) && Shows(RoomOf(After(run))) && Rests(Own(), After(run))
      modifies this`locksHeld, locks
      ensures Does(run, longer, Gotten(RoomOf(After(run)), old(Own()), k), r, Cmd.Get(k))
      ensures !active <==> r == NotInTransaction
      ensures active ==> (r == Waiting <==> !Grantable(EntryAt(old(locks.table), k), txnId, Shared))
      ensures r == Waiting ==> Waits(locks.table, txnId, k)
      ensures active && r != Waiting ==> Replies(k, r)
      ensures r.Value? ==> Tells(After(run), After(longer), txnId, Saw(k, Some(r.value)))
      ensures r == KeyNotFound ==> Tells(After(run), After(longer), txnId, Saw(k, None))
    {
      longer := GetRun(run, Own(), k);
      r := Get(k, RoomOf(After(run)));
    }

    method RunResumeGet(k: Key, ghost run: seq<Action>) returns (r: Reply, ghost longer: seq<Action>)
      requires Legal(run) && Shows(RoomOf(After(run))) && At(Own(), After(run), Blocked(Cmd.Get(k)))
      requires wal.nextLsn < LSN_LIMIT
      modifies this, locks, wal
      ensures Does(run, longer, ResumedGet(RoomOf(After(run)), old(Own()), k), r, Cmd.Get(k))
      ensures if Waits(old(locks.table), old(txnId), k) then r == DeadlockAborted && !active
              else Own() == old(Own()) && Replies(k, r)
      ensures r == DeadlockAborted ==> HasEnded(run, longer, old(txnId))
      ensures r.Value? ==> Tells(After(run), After(longer), old(txnId), Saw(k, Some(r.value)))
      ensures r == KeyNotFound ==> Tells(After(run), After(longer), old(txnId), Saw(k, None))
    {
      ghost var t := txnId;
      EntryIsThere(run, Own(), Cmd.Get(k));
      longer := ResumeGetRun(run, Own(), k);
      r := ResumeGet(k, RoomOf(After(run)));
      if r == DeadlockAborted {
        NothingLeft(longer, t);
      }
    }

    method RunAbort(ghost run: seq<Action>) returns (r: Reply, ghost longer: seq<Action>)
      requires Legal(run) && Shows(RoomOf(After(run))) && Rests(Own(), After(run))
      requires active ==> wal.nextLsn < LSN_LIMIT
      modifies this, locks, wal
      ensures Does(run, longer, Abandoned(RoomOf(After(run)), old(Own())), r, Cmd.Get([]))
      ensures r == if old(active) then Ok else NotInTransaction
      ensures !active && (r == Ok ==> pendingBuffer == map[])
      ensures r == Ok ==> HasEnded(run, longer, old(txnId))
    {
      ghost var t := txnId;
      longer := AbandonRun(run, Own(), Cmd.Get([]));
      r := Abort(RoomOf(After(run)));
      if r == Ok {
        NothingLeft(longer, t);
      }
    }

    // -------------------------------------------------------------- commit, in the order of its effects

    method CommitLog(ghost run: seq<Action>) returns (lsn: Lsn, ghost longer: seq<Action>)
      requires Legal(run) && Shows(RoomOf(After(run))) && At(Own(), After(run), Active)
      requires wal.nextLsn + |Writes(pendingBuffer)| < LSN_LIMIT
      modifies wal
      ensures Goes(run, longer, session) && Shows(RoomOf(After(longer))) && At(Own(), After(longer), Awaiting(lsn))
      ensures lsn < wal.nextLsn && IsLogged(After(run), After(longer), Own())
      ensures lsn == CommitLsn(After(run).wal, txnId, Writes(pendingBuffer))
    {
      longer := LogRun(run, Own());
      lsn := LogAll(Writes(pendingBuffer), RoomOf(After(run)));
    }

    method CommitWait(lsn: Lsn, ghost run: seq<Action>) returns (ghost longer: seq<Action>)
      requires Legal(run) && Shows(RoomOf(After(run))) && At(Own(), After(run), Awaiting(lsn)) && lsn < wal.nextLsn
      modifies group, wal
      ensures Goes(run, longer, session) && Shows(RoomOf(After(longer))) && At(Own(), After(longer), Awaiting(lsn))
      ensures After(longer).wal.flushed >= lsn && W.All(After(longer).wal) == W.All(After(run).wal)
      ensures After(longer).store == After(run).store && After(longer).locks == After(run).locks
      ensures After(longer).history == After(run).history
    {
      ghost var s := After(run);
      longer := group.WaitForCommit(lsn, run, s.truncated);
      FlushStep(run, longer, Own(), Awaiting(lsn), wal.model);
    }

    method CommitShow(lsn: Lsn, ghost run: seq<Action>) returns (ghost longer: seq<Action>)
      requires Legal(run) && Shows(RoomOf(After(run)))
      requires At(Own(), After(run), Awaiting(lsn)) && After(run).wal.flushed >= lsn
      modifies store, this`pendingBuffer
      ensures Goes(run, longer, session) && Shows(RoomOf(After(longer)))
      ensures At(old(Own()), After(longer), Applying(lsn, []))
      ensures After(longer).store == ApplyOps(After(run).store, Writes(old(pendingBuffer))) && pendingBuffer == map[]
      ensures After(longer).wal == After(run).wal && After(longer).locks == After(run).locks
      ensures After(longer).history == After(run).history
    {
      longer := ShowRun(run, Own(), lsn);
      ApplyPendingBuffer(RoomOf(After(run)));
    }

    method CommitRelease(lsn: Lsn, ghost run: seq<Action>, ghost m: Mine) returns (ghost longer: seq<Action>)
      requires Legal(run) && Shows(RoomOf(After(run))) && At(m, After(run), Applying(lsn, []))
      requires m.session == session && m.txnId == txnId
      modifies this, locks
      ensures Goes(run, longer, session) && Shows(RoomOf(After(longer))) && Rests(Own(), After(longer))
      ensures Own() == Idle(session) && locksHeld == map[] && totalCommits == old(totalCommits) + 1
      ensures RoomOf(After(longer)) == RoomOf(After(run)).(locks := ReleaseAll(After(run).locks, m.txnId))
      ensures After(longer).history == After(run).history
    {
      longer := ReleaseStep(run, m, Applying(lsn, []));
      Release(RoomOf(After(run)));
      totalCommits := totalCommits + 1;
      Reset();
    }

    /** The commit up to the end of the wait: everything is in the log, and COMMIT is written. */
    method CommitToLog(ghost run: seq<Action>) returns (lsn: Lsn, ghost longer: seq<Action>)
      requires Legal(run) && Shows(RoomOf(After(run))) && At(Own(), After(run), Active)
      requires wal.nextLsn + |Writes(pendingBuffer)| < LSN_LIMIT
      modifies wal, group
      ensures Goes(run, longer, session) && Shows(RoomOf(After(longer))) && At(Own(), After(longer), Awaiting(lsn))
      ensures After(longer).wal.flushed >= lsn && IsLogged(After(run), After(longer), Own())
      ensures lsn == CommitLsn(After(run).wal, txnId, Writes(pendingBuffer))
    {
      ghost var logged := run;
      lsn, logged := CommitLog(run);
      longer := CommitWait(lsn, logged);
      GoesOn(run, logged, longer, session);
    }

    /** The rest of the commit: the writes are shown, and then the locks given up. */
    method CommitToStore(lsn: Lsn, ghost run: seq<Action>) returns (ghost longer: seq<Action>)
      requires Legal(run) && Shows(RoomOf(After(run)))
      requires At(Own(), After(run), Awaiting(lsn)) && After(run).wal.flushed >= lsn
      modifies this, locks, store
      ensures Goes(run, longer, session) && Shows(RoomOf(After(longer))) && Rests(Own(), After(longer))
      ensures Own() == Idle(session) && locksHeld == map[] && totalCommits == old(totalCommits) + 1
      ensures IsShown(After(run), After(longer), old(Own()))
    {
      ghost var m := Own();
      ghost var shown := CommitShow(lsn, run);
      longer := CommitRelease(lsn, shown, m);
      GoesOn(run, shown, longer, session);
    }

    /**
     * Commit: log everything, wait until the COMMIT record is written, and only then show the
     * writes in the store and give up the locks. The history gains exactly this transaction.
     */
    method Commit(ghost run: seq<Action>) returns (r: Reply, ghost longer: seq<Action>)
      requires Legal(run) && Shows(RoomOf(After(run))) && Rests(Own(), After(run))
      requires active ==> wal.nextLsn + |Writes(pendingBuffer)| < LSN_LIMIT
      modifies this, locks, wal, group, store
      ensures Goes(run, longer, session) && Shows(RoomOf(After(longer))) && Rests(Own(), After(longer))
      ensures !old(active) ==> r == NotInTransaction && longer == run && Own() == old(Own())
      ensures old(active) ==> r == Ok && Own() == Idle(session) && totalCommits == old(totalCommits) + 1
      ensures old(active) ==> IsCommitted(After(run), After(longer), old(Own()))
      ensures old(active) ==> !active && forall k :: Stored(old(pendingBuffer), old(store.data), store.data, k)
      ensures old(active) ==> After(run).wal.nextLsn + |Writes(old(pendingBuffer))| <= wal.flushedLsn
      ensures old(active) ==>
        W.All(wal.model) == W.All(old(wal.model))
                          + ChangeRecords(old(wal.nextLsn), old(txnId), Writes(old(pendingBuffer)))
                          + [Record(old(wal.nextLsn) + |Writes(old(pendingBuffer))|, old(txnId), L.Commit)]
      ensures old(active) ==> old(txnId) !in After(longer).txns
      ensures old(active) ==>
        forall k :: Hold(locks.table, old(txnId), k) == NoLock && !Waits(locks.table, old(txnId), k)
    {
      if !active {
        return NotInTransaction, run;
      }
      var lsn;
      ghost var m, logged := Own(), run;
      lsn, logged := CommitToLog(run);
      longer := CommitToStore(lsn, logged);
      GoesOn(run, logged, longer, session);
      LoggedThenShown(After(run), After(logged), After(longer), m);
      CommitMeans(After(run), After(longer), m);
      NothingLeft(longer, m.txnId);
      return Ok, longer;
    }
  }

  // ---------------------------------------------------------------- the server

  class Server {
    var nextTxnId: TxnId
    var sessions: map<SessionId, TransactionManager>

    constructor ()
      ensures nextTxnId == 1 && sessions == map[]
    {
      nextTxnId, sessions := 1, map[];
    }

    method AllocateTxnId() returns (t: TxnId)
      modifies this`nextTxnId
      ensures t == old(nextTxnId) && nextTxnId == t + 1
    {
      t := nextTxnId;
      nextTxnId := nextTxnId + 1;
    }

    method HasActiveTransactions() returns (any: bool)
      ensures any <==> exists i :: i in sessions && sessions[i].active
    {
      var todo := sessions.Keys;
      while todo != {}
        invariant todo <= sessions.Keys
        invariant forall i :: i in sessions && i !in todo ==> !sessions[i].active
        decreases |todo|
      {
        var i :| i in todo;
        if sessions[i].active {
          return true;
        }
        todo := todo - {i};
      }
      return false;
    }

    /** The transactions in progress are those of the sessions that are active. */
    ghost predicate Covers(s: State)
      reads this, sessions.Values
    {
      && (forall t :: t in s.txns ==> s.txns[t].session in sessions && sessions[s.txns[t].session].active)
      && (forall i :: i in sessions && sessions[i].active ==> exists t :: t in s.txns && s.txns[t].session == i)
    }

    /**
     * Refuses while any transaction is in progress, otherwise takes a checkpoint. The data
     * file and the log then show the engine's state after its checkpoint; the log file does
     * so exactly if the truncation finds in it no LSN above the checkpoint's.
     */
    method HandleCheckpoint(manager: CheckpointManager, ghost run: seq<Action>)
      returns (ok: bool, ghost longer: seq<Action>)
      requires Legal(run) && Covers(After(run)) && After(run).checkpoint.NoCheckpoint?
      requires manager.wal.Valid() && manager.wal.model == After(run).wal && manager.store.data == After(run).store
      modifies manager, manager.wal
      ensures ok <==> After(run).txns == map[]
      ensures Legal(longer) && run <= longer && After(longer) == if ok then Checkpointed(After(run)) else After(run)
      ensures manager.wal.Valid() && manager.wal.model == After(longer).wal
      ensures !ok ==> manager.dataFile == old(manager.dataFile) && manager.wal.file == old(manager.wal.file)
      ensures ok ==> manager.ShowsSnapshot(After(longer).snapshot.store, After(longer).snapshot.lsn)
      ensures ok ==> manager.wal.file == Truncation.Kept(old(manager.wal.file), After(longer).snapshot.lsn)
      ensures old(manager.wal.FileShows(After(run).truncated)) ==>
        (manager.wal.FileShows(After(longer).truncated) <==>
           !ok || Truncation.NoneAbove(Truncation.RawLsns(old(manager.wal.file)), After(run).wal.flushed))
    {
      var any := HasActiveTransactions();
      NobodyIsActive(After(run), any);
      if any {
        return false, run;
      }
      longer := CheckpointRun(run);
      manager.TakeCheckpoint(After(run));
      return true, longer;
    }

    lemma NobodyIsActive(s: State, any: bool)
      requires Covers(s) && (any <==> exists i :: i in sessions && sessions[i].active)
      ensures any <==> s.txns != map[]
    {
      if s.txns != map[] {
        var t :| t in s.txns;
      }
    }
  }

  // ---------------------------------------------------------------- the checkpoint manager

  class CheckpointManager {
    const store: KvStore
    const wal: WalManager
    var tempFile: Option<Bytes>
    var dataFile: Option<Bytes>

    constructor (store: KvStore, wal: WalManager)
      ensures this.store == store && this.wal == wal && dataFile == None
    {
      this.store, this.wal := store, wal;
      tempFile, dataFile := None, None;
    }

    /** The data file holds this snapshot. */
    ghost predicate ShowsSnapshot(data: Store, lsn: Lsn)
      reads this
    {
      exists entries ::
        SnapshotFile.Lists(entries, data) && dataFile == Some(SnapshotFile.FileBytes(entries, lsn))
    }

    method ListEntries() returns (entries: seq<SnapshotFile.Entry>)
      ensures SnapshotFile.Lists(entries, store.data)
    {
      entries := [];
      var todo := store.data.Keys;
      while todo != {}
        invariant todo <= store.data.Keys
        invariant forall i :: 0 <= i < |entries| ==>
          entries[i].key in store.data && store.data[entries[i].key] == entries[i].value
        invariant forall k :: k in store.data && k !in todo ==> SnapshotFile.Entry(k, store.data[k]) in entries
        decreases |todo|
      {
        var k :| k in todo;
        entries := entries + [SnapshotFile.Entry(k, store.data[k])];
        todo := todo - {k};
      }
    }

    /** Writes the snapshot to a temporary file and renames it over the data file. */
    method ReplaceDataFile(lsn: Lsn)
      modifies this
      ensures ShowsSnapshot(store.data, lsn) && tempFile == None
    {
      var entries := ListEntries();
      var bytes := SnapshotFile.WriteSnapshot(entries, lsn);
      tempFile := Some(bytes);
      dataFile, tempFile := tempFile, None;
    }

    /** Drops the covered records from the log file and syncs it. */
    method TruncateLog(lsn: Lsn)
      requires wal.Valid()
      modifies wal
      ensures wal.Valid() && wal.model == W.Cover(old(wal.model)) && wal.stream == old(wal.stream)
      ensures wal.file == Truncation.Kept(old(wal.file), lsn)
    {
      var remaining := Truncation.TruncateWal(wal.file, lsn);
      wal.ReplaceFile(remaining);
      wal.Fsync(false);
    }

    /** Sync, snapshot to a temporary file, rename, truncate the log file, sync it. */
    method CreateCheckpoint()
      requires wal.Valid()
      modifies this, wal
      ensures wal.Valid() && wal.model == W.Cover(old(wal.model)) && tempFile == None
      ensures ShowsSnapshot(store.data, wal.flushedLsn) && wal.flushedLsn == old(wal.flushedLsn)
      ensures wal.file == Truncation.Kept(old(wal.file), wal.flushedLsn) && wal.stream == old(wal.stream)
    {
      wal.Fsync(false);
      var lsn := wal.flushedLsn;
      ReplaceDataFile(lsn);
      TruncateLog(lsn);
    }

    /** The checkpoint of a state that the objects show. */
    method TakeCheckpoint(ghost s: State)
      requires wal.Valid() && wal.model == s.wal && store.data == s.store
      modifies this, wal
      ensures wal.Valid() && wal.model == Checkpointed(s).wal && ShowsSnapshot(s.store, s.wal.flushed)
      ensures wal.file == Truncation.Kept(old(wal.file), s.wal.flushed)
      ensures old(wal.FileShows(s.truncated)) ==>
        (wal.FileShows(Checkpointed(s).truncated) <==>
           Truncation.NoneAbove(Truncation.RawLsns(old(wal.file)), s.wal.flushed))
    {
      ghost var before, shown := wal.file, wal.FileShows(s.truncated);
      CreateCheckpoint();
      if shown {
        FileShownIff(wal, s, before);
      }
    }
  }

  // ---------------------------------------------------------------- from the objects to the disk and back

  lemma {:induction false} SameBytes(f: Record -> Bytes, g: Record -> Bytes, log: seq<Record>)
    requires forall r :: f(r) == g(r)
    ensures Framing.Write(f, log) == Framing.Write(g, log)
  {
    if log != [] {
      SameBytes(f, g, log[1..]);
    }
  }

  /**
   * Whatever calls of whatever sessions have brought the objects here: the bytes in the log
   * file object, read back by recovery, give the serial result of exactly the transactions
   * whose COMMIT has reached the file or is covered by the snapshot.
   */
  lemma FileRecovers(tm: TransactionManager, run: seq<Action>, s: State, seal: Codec.Seal, data: Option<Bytes>,
                     entries: seq<SnapshotFile.Entry>)
    requires Legal(run) && s == After(run) && tm.Shows(RoomOf(s))
    requires forall r :: tm.wal.ser(r) == Codec.Serialize(seal, r)
    requires Disk.DataFileShows(s, data, entries) && Disk.FitsFormat(s, entries)
    ensures CrashRecovery.BringsBack(s, s.wal.passed, Disk.RecoverFiles(seal, data, Some(tm.wal.file), map[], 0))
  {
    FileIsLogFile(tm, s, seal);
    Disk.RecoveryFromFile(seal, run, s, data, entries, s.wal.passed);
  }

  lemma FileIsLogFile(tm: TransactionManager, s: State, seal: Codec.Seal)
    requires tm.Shows(RoomOf(s)) && (forall r :: tm.wal.ser(r) == Codec.Serialize(seal, r))
    ensures s.truncated <= s.wal.passed <= |s.wal.written| && s.wal.durable <= s.wal.passed
    ensures tm.wal.file == Disk.LogFile(seal, s, s.truncated, s.wal.passed)
  {
    SameBytes(tm.wal.ser, (r: Record) => Codec.Serialize(seal, r), s.wal.written[s.truncated..s.wal.passed]);
  }

  /**
   * A checkpoint covers all that is in the file, so the file shows the engine's state
   * afterwards exactly if nothing is left in it: exactly if the truncation loop has met no
   * LSN above the checkpoint in what it takes for records.
   */
  lemma FileShownIff(wal: WalManager, s: State, before: Bytes)
    requires W.WalOk(s.wal) && wal.model == Checkpointed(s).wal && wal.file == Truncation.Kept(before, s.wal.flushed)
    requires wal.stream == Framing.Write(wal.ser, s.wal.written[s.wal.passed..])
    ensures wal.FileShows(Checkpointed(s).truncated) <==> wal.file == []
    ensures wal.file == [] <==> Truncation.NoneAbove(Truncation.RawLsns(before), s.wal.flushed)
  {
    assert Checkpointed(s).truncated == s.wal.passed;
    assert s.wal.written[s.wal.passed..s.wal.passed] == [];
    Truncation.KeptNothingIff(before, s.wal.flushed);
  }

  /**
   * The first checkpoint leaves objects that showed a run showing a run, unless the checksum
   * of the second record passes for a length that the file can hold.
   */
  lemma FirstCheckpointShows(wal: WalManager, run: seq<Action>, s: State, seal: Codec.Seal)
    requires Legal(run) && s == After(run) && s.truncated == 0 && wal.model == s.wal && wal.FileShows(0)
    requires forall r :: wal.ser(r) == Codec.Serialize(seal, r)
    requires 0 < s.wal.passed ==>
      Codec.Fits(s.wal.written[0]) && Truncation.StopsAt(seal, s.wal.written[0], s.wal.written[1..s.wal.passed])
    ensures Truncation.Kept(wal.file, s.wal.flushed) == []
  {
    SameBytes(wal.ser, (r: Record) => Codec.Serialize(seal, r), s.wal.written[0..s.wal.passed]);
    if 0 < s.wal.passed {
      FileFaults.FirstTruncationIff(seal, run, s, s.wal.flushed);
    }
  }
}
