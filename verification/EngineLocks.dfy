// What every action keeps between the lock table and the transactions in progress.
module EngineLocks {
  import opened Kv
  import opened LockTable
  import opened LockFacts
  import opened Serial
  import opened Engine

  /** The transaction named by a waiter sleeps in acquireLock on exactly that key and mode. */
  predicate WaiterBlocked(s: State, k: Key, w: Waiter) {
    && w.txn in s.txns
    && s.txns[w.txn].pc.Blocked?
    && KeyOf(s.txns[w.txn].pc.cmd) == k
    && ModeOf(s.txns[w.txn].pc.cmd) == w.mode
  }

  /** The table is well formed, and every holder and waiter in it is a transaction in progress. */
  ghost predicate TableInv(s: State) {
    && TableOk(s.locks)
    && (forall k, u :: k in s.locks && u in s.locks[k].holders ==> u in s.txns)
    && (forall k, w :: k in s.locks && w in s.locks[k].queue ==> WaiterBlocked(s, k, w))
  }

  /** A sleeper is queued, or has been served what it asked for. */
  predicate SleeperOk(locks: Table, t: TxnId, cmd: Cmd) {
    var k := KeyOf(cmd);
    || (k in locks && Waiter(t, ModeOf(cmd)) in locks[k].queue)
    || Rank(Hold(locks, t, k)) >= Rank(ModeOf(cmd))
  }

  /** Write locks last until release, except on leaked keys. */
  ghost predicate WritesHeld(locks: Table, t: TxnId, x: Txn, leaked: set<Key>) {
    forall k :: k in x.buffer && k !in leaked ==> Hold(locks, t, k) == Exclusive
  }

  /** Read locks last until release at REPEATABLE_READ. */
  ghost predicate ReadsHeld(locks: Table, t: TxnId, x: Txn) {
    x.level == RepeatableRead ==> forall k :: HasRead(x.trace, k) ==> Hold(locks, t, k) != NoLock
  }

  ghost predicate TxnHolds(locks: Table, t: TxnId, x: Txn, leaked: set<Key>) {
    && (x.pc.Blocked? ==> SleeperOk(locks, t, x.pc.cmd))
    && (x.pc.Holding? ==> Rank(Hold(locks, t, KeyOf(x.pc.cmd))) >= Rank(ModeOf(x.pc.cmd)))
    && (x.pc.Unlocking? ==> x.level == ReadCommitted && (x.pc.key in x.buffer ==> x.pc.key in leaked))
    && WritesHeld(locks, t, x, leaked)
    && ReadsHeld(locks, t, x)
  }

  ghost predicate LockInv(s: State) {
    && TableInv(s)
    && (forall t :: t in s.txns ==> TxnHolds(s.locks, t, s.txns[t], s.leaked))
  }

  // ---------------------------------------------------------------- framing

  lemma SleeperHasEntry(s: State, t: TxnId)
    requires LockInv(s) && t in s.txns && s.txns[t].pc.Blocked?
    ensures KeyOf(s.txns[t].pc.cmd) in s.locks
  {
    assert TxnHolds(s.locks, t, s.txns[t], s.leaked);
  }

  lemma SleeperKept(before: Table, after: Table, t: TxnId, u: TxnId, cmd: Cmd)
    requires Orderly(before, after, t) && u != t && SleeperOk(before, u, cmd)
    ensures SleeperOk(after, u, cmd)
  {
    assert OrderlyAt(before, after, t, KeyOf(cmd));
  }

  /** One critical section of `t` takes no lock away from another transaction. */
  lemma HoldsKept(before: Table, after: Table, t: TxnId, u: TxnId, x: Txn, leaked: set<Key>, more: set<Key>)
    requires Orderly(before, after, t) && u != t && leaked <= more
    requires TxnHolds(before, u, x, leaked)
    ensures TxnHolds(after, u, x, more)
  {
    forall k ensures Rank(Hold(before, u, k)) <= Rank(Hold(after, u, k)) {
      assert OrderlyAt(before, after, t, k);
    }
    if x.pc.Blocked? {
      SleeperKept(before, after, t, u, x.pc.cmd);
    }
  }

  lemma Unmoved(table: Table, t: TxnId)
    requires TableOk(table)
    ensures Orderly(table, table, t)
  {
  }

  /** Only the acting transaction's record may have changed. */
  ghost predicate OnlyMoved(s: State, s': State, t: TxnId) {
    && (forall u :: u != t ==> (u in s.txns <==> u in s'.txns))
    && (forall u :: u != t && u in s.txns ==> s'.txns[u] == s.txns[u])
    && s.leaked <= s'.leaked
  }

  lemma TableKept(s: State, s': State, t: TxnId)
    requires TableInv(s)
    requires Orderly(s.locks, s'.locks, t) && OnlyMoved(s, s', t)
    requires forall k :: Hold(s'.locks, t, k) != NoLock ==> t in s'.txns
    requires forall k, w :: k in s'.locks && w in s'.locks[k].queue && w.txn == t ==> WaiterBlocked(s', k, w)
    ensures TableInv(s')
  {
    forall k | k in s'.locks ensures EntryOk(s'.locks[k]) {
      assert OrderlyAt(s.locks, s'.locks, t, k);
    }
    forall k, u | k in s'.locks && u in s'.locks[k].holders ensures u in s'.txns {
      assert OrderlyAt(s.locks, s'.locks, t, k);
      if u == t {
        assert Hold(s'.locks, t, k) != NoLock;
      } else if u !in s.locks[k].holders {
        var i :| 0 <= i < |s.locks[k].queue| && s.locks[k].queue[i].txn == u;
        assert s.locks[k].queue[i] in s.locks[k].queue;
      }
    }
    forall k, w | k in s'.locks && w in s'.locks[k].queue ensures WaiterBlocked(s', k, w) {
      assert OrderlyAt(s.locks, s'.locks, t, k);
      if w.txn != t {
        assert w in s.locks[k].queue;
      }
    }
  }

  /** The induction step for the lock invariant: what is left to show concerns `t` alone. */
  lemma LockInvKept(s: State, s': State, t: TxnId)
    requires LockInv(s)
    requires Orderly(s.locks, s'.locks, t) && OnlyMoved(s, s', t)
    requires forall k :: Hold(s'.locks, t, k) != NoLock ==> t in s'.txns
    requires forall k, w :: k in s'.locks && w in s'.locks[k].queue && w.txn == t ==> WaiterBlocked(s', k, w)
    requires t in s'.txns ==> TxnHolds(s'.locks, t, s'.txns[t], s'.leaked)
    ensures LockInv(s')
  {
    TableKept(s, s', t);
    forall u | u in s'.txns ensures TxnHolds(s'.locks, u, s'.txns[u], s'.leaked) {
      if u != t {
        HoldsKept(s.locks, s'.locks, t, u, s.txns[u], s.leaked, s'.leaked);
      }
    }
  }

  /** A transaction that is not asleep waits nowhere. */
  lemma AwakeWaitsNowhere(s: State, t: TxnId, k: Key)
    requires TableInv(s)
    requires t in s.txns ==> !s.txns[t].pc.Blocked? || KeyOf(s.txns[t].pc.cmd) != k
    ensures !Waits(s.locks, t, k)
  {
    if k in s.locks {
      forall w | w in s.locks[k].queue ensures w.txn != t {
        assert WaiterBlocked(s, k, w);
      }
      NotInQueue(s.locks[k].queue, t);
    }
  }

  lemma AwakeHasNoWaiter(s: State, t: TxnId)
    requires TableInv(s) && (t in s.txns ==> !s.txns[t].pc.Blocked?)
    ensures forall k, w :: k in s.locks && w in s.locks[k].queue ==> w.txn != t
  {
    forall k, w | k in s.locks && w in s.locks[k].queue ensures w.txn != t {
      assert WaiterBlocked(s, k, w);
    }
  }

  // ---------------------------------------------------------------- actions

  /** Actions that leave the lock table alone, taken by a session that is awake. */
  lemma LocalMove(s: State, s': State, t: TxnId)
    requires LockInv(s) && s'.locks == s.locks && OnlyMoved(s, s', t)
    requires t in s.txns && t in s'.txns && !s.txns[t].pc.Blocked?
    requires TxnHolds(s'.locks, t, s'.txns[t], s'.leaked)
    ensures LockInv(s')
  {
    Unmoved(s.locks, t);
    AwakeHasNoWaiter(s, t);
    LockInvKept(s, s', t);
  }

  lemma AskKeeps(s: State, t: TxnId, cmd: Cmd)
    requires LockInv(s) && CanMove(s, t, Ask(cmd))
    ensures LockInv(DoAsk(s, t, cmd))
  {
    var s' := DoAsk(s, t, cmd);
    var k := KeyOf(cmd);
    var m := ModeOf(cmd);
    AwakeWaitsNowhere(s, t, k);
    AwakeHasNoWaiter(s, t);
    RequestOrderly(s.locks, t, k, m);
    RequestOwn(s.locks, t, k, m);
    forall j, w | j in s'.locks && w in s'.locks[j].queue && w.txn == t ensures WaiterBlocked(s', j, w) {
      assert j == k && w == Waiter(t, m);
      if s'.txns[t].pc.Holding? {
        InQueueIn(s'.locks[k].queue, w);
      }
    }
    forall j | j in s.txns[t].buffer && j !in s.leaked ensures Hold(s'.locks, t, j) == Exclusive {
      assert Rank(Hold(s'.locks, t, j)) >= Rank(Hold(s.locks, t, j));
    }
    forall j ensures Hold(s.locks, t, j) != NoLock ==> Hold(s'.locks, t, j) != NoLock {
      assert Rank(Hold(s'.locks, t, j)) >= Rank(Hold(s.locks, t, j));
    }
    LockInvKept(s, s', t);
  }

  lemma WakeKeeps(s: State, t: TxnId)
    requires LockInv(s) && CanMove(s, t, Wake)
    ensures LockInv(DoMove(s, t, Wake))
  {
    var s' := DoMove(s, t, Wake);
    var cmd := s.txns[t].pc.cmd;
    Unmoved(s.locks, t);
    forall k, w | k in s.locks && w in s.locks[k].queue ensures w.txn != t {
      assert WaiterBlocked(s, k, w);
      if k == KeyOf(cmd) {
        QueueWithout(s.locks[k].queue, t);
      }
    }
    assert TxnHolds(s.locks, t, s.txns[t], s.leaked);
    LockInvKept(s, s', t);
  }

  lemma TimeOutKeeps(s: State, t: TxnId)
    requires LockInv(s) && CanMove(s, t, TimeOut)
    ensures LockInv(DoMove(s, t, TimeOut))
  {
    var s' := DoMove(s, t, TimeOut);
    var k := KeyOf(s.txns[t].pc.cmd);
    GiveUpOrderly(s.locks, t, k);
    forall j, w | j in s'.locks && w in s'.locks[j].queue ensures w.txn != t {
      if j != k {
        assert WaiterBlocked(s, j, w);
      } else {
        QueueWithout(s'.locks[k].queue, t);
      }
    }
    assert TxnHolds(s.locks, t, s.txns[t], s.leaked);
    LockInvKept(s, s', t);
  }

  lemma FinishKeeps(s: State, t: TxnId)
    requires LockInv(s) && CanMove(s, t, Finish)
    ensures LockInv(DoFinish(s, t))
  {
    var s' := DoFinish(s, t);
    var x := s.txns[t];
    var x' := s'.txns[t];
    assert TxnHolds(s.locks, t, x, s.leaked);
    var e := x'.trace[|x.trace|];
    assert x'.trace == x.trace + [e];
    forall k ensures HasRead(x'.trace, k) <==> HasRead(x.trace, k) || (e.Saw? && e.key == k) {
      HasReadAppend(x.trace, e, k);
    }
    LocalMove(s, s', t);
  }

  lemma UnlockKeeps(s: State, t: TxnId)
    requires LockInv(s) && CanMove(s, t, Unlock)
    ensures LockInv(DoMove(s, t, Unlock))
  {
    var s' := DoMove(s, t, Unlock);
    var x := s.txns[t];
    assert TxnHolds(s.locks, t, x, s.leaked);
    AwakeWaitsNowhere(s, t, x.pc.key);
    AwakeHasNoWaiter(s, t);
    ReleaseOrderly(s.locks, t, x.pc.key);
    forall k, w | k in s'.locks && w in s'.locks[k].queue ensures w.txn != t {
      if k == x.pc.key {
        DropEffect(s.locks[k], t);
        assert w in s.locks[k].queue;
      }
    }
    LockInvKept(s, s', t);
  }

  lemma ReleaseLocksKeeps(s: State, t: TxnId)
    requires LockInv(s) && CanMove(s, t, ReleaseLocks)
    ensures LockInv(DoMove(s, t, ReleaseLocks))
  {
    var s' := DoMove(s, t, ReleaseLocks);
    forall k ensures !Waits(s.locks, t, k) {
      AwakeWaitsNowhere(s, t, k);
    }
    ReleaseAllOrderly(s.locks, t);
    forall k, w | k in s'.locks && w in s'.locks[k].queue ensures w.txn != t {
      assert !Waits(s'.locks, t, k);
      QueueWithout(s'.locks[k].queue, t);
    }
    LockInvKept(s, s', t);
  }

  lemma BeginKeeps(s: State, session: SessionId, level: Isolation)
    requires LockInv(s) && Enabled(s, BeginTxn(session, level)) && s.nextTxn !in s.txns
    ensures LockInv(Do(s, BeginTxn(session, level)))
  {
    var s' := Do(s, BeginTxn(session, level));
    Unmoved(s.locks, s.nextTxn);
    AwakeHasNoWaiter(s, s.nextTxn);
    LockInvKept(s, s', s.nextTxn);
  }

  lemma MoveKeepsLockInv(s: State, t: TxnId, m: Move)
    requires LockInv(s) && CanMove(s, t, m)
    ensures LockInv(DoMove(s, t, m))
  {
    match m
    case Ask(cmd) => AskKeeps(s, t, cmd);
    case Wake => WakeKeeps(s, t);
    case TimeOut => TimeOutKeeps(s, t);
    case Finish => FinishKeeps(s, t);
    case Unlock => UnlockKeeps(s, t);
    case ReleaseLocks => ReleaseLocksKeeps(s, t);
    case _ => LocalMoveKeeps(s, t, m);
  }

  lemma LocalMoveKeeps(s: State, t: TxnId, m: Move)
    requires LockInv(s) && CanMove(s, t, m)
    requires !m.Ask? && m != Wake && m != TimeOut && m != Finish && m != Unlock && m != ReleaseLocks
    ensures LockInv(DoMove(s, t, m))
  {
    var s' := DoMove(s, t, m);
    assert TxnHolds(s.locks, t, s.txns[t], s.leaked);
    assert TxnHolds(s'.locks, t, s'.txns[t], s'.leaked);
    LocalMove(s, s', t);
  }

  lemma LockInvStep(s: State, a: Action)
    requires LockInv(s) && Enabled(s, a) && s.nextTxn !in s.txns
    ensures LockInv(Do(s, a))
  {
    match a
    case BeginTxn(session, level) => BeginKeeps(s, session, level);
    case By(t, m) => MoveKeepsLockInv(s, t, m);
    case _ =>
  }
}
