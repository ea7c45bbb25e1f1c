// READ_COMMITTED gives its read locks back: what such a transaction holds over every run.
module ReadLocks {
  import opened Kv
  import opened LockTable
  import opened LockFacts
  import opened Engine
  import opened EngineLocks
  import opened Runs

  /** It has written the key, is in the middle of a command on it, or is on its way out. */
  predicate Needs(x: Txn, k: Key) {
    || k in x.buffer
    || ((x.pc.Blocked? || x.pc.Holding?) && KeyOf(x.pc.cmd) == k)
    || x.pc == Unlocking(k) || x.pc == TimedOut || x.pc == Aborting
  }

  ghost predicate HoldsFew(locks: Table, t: TxnId, x: Txn, leaked: set<Key>) {
    x.level == ReadCommitted ==> forall k :: Hold(locks, t, k) != NoLock && k !in leaked ==> Needs(x, k)
  }

  ghost predicate FewInv(s: State) {
    forall t :: t in s.txns ==> HoldsFew(s.locks, t, s.txns[t], s.leaked)
  }

  /** The induction step: others get a lock only by being served what they sleep for. */
  lemma FewKept(s: State, s': State, t: TxnId)
    requires TableInv(s) && FewInv(s) && Orderly(s.locks, s'.locks, t) && OnlyMoved(s, s', t)
    requires t in s'.txns ==> HoldsFew(s'.locks, t, s'.txns[t], s'.leaked)
    ensures FewInv(s')
  {
    forall u | u in s'.txns ensures HoldsFew(s'.locks, u, s'.txns[u], s'.leaked) {
      if u != t {
        OthersHoldFew(s, s', t, u);
      }
    }
  }

  lemma OthersHoldFew(s: State, s': State, t: TxnId, u: TxnId)
    requires TableInv(s) && Orderly(s.locks, s'.locks, t) && OnlyMoved(s, s', t)
    requires u != t && u in s.txns && HoldsFew(s.locks, u, s.txns[u], s.leaked)
    ensures HoldsFew(s'.locks, u, s'.txns[u], s'.leaked)
  {
    forall k | Hold(s'.locks, u, k) != NoLock && k !in s'.leaked && s.txns[u].level == ReadCommitted
      ensures Needs(s.txns[u], k)
    {
      assert OrderlyAt(s.locks, s'.locks, t, k);
      if u !in s.locks[k].holders {
        var i :| 0 <= i < |s.locks[k].queue| && s.locks[k].queue[i].txn == u;
        assert WaiterBlocked(s, k, s.locks[k].queue[i]);
      } else {
        assert EntryOk(s.locks[k]);
        assert Hold(s.locks, u, k) != NoLock;
      }
    }
  }

  lemma AskFew(s: State, t: TxnId, cmd: Cmd)
    requires LockInv(s) && FewInv(s) && CanMove(s, t, Ask(cmd))
    ensures FewInv(DoAsk(s, t, cmd))
  {
    var s' := DoAsk(s, t, cmd);
    AwakeWaitsNowhere(s, t, KeyOf(cmd));
    RequestOrderly(s.locks, t, KeyOf(cmd), ModeOf(cmd));
    assert HoldsFew(s.locks, t, s.txns[t], s.leaked);
    FewKept(s, s', t);
  }

  lemma UnlockFew(s: State, t: TxnId)
    requires LockInv(s) && FewInv(s) && CanMove(s, t, Unlock)
    ensures FewInv(DoMove(s, t, Unlock))
  {
    var k := s.txns[t].pc.key;
    AwakeWaitsNowhere(s, t, k);
    ReleaseOrderly(s.locks, t, k);
    if k in s.locks {
      DropEffect(s.locks[k], t);
    }
    assert HoldsFew(s.locks, t, s.txns[t], s.leaked);
    FewKept(s, DoMove(s, t, Unlock), t);
  }

  lemma ReleaseFew(s: State, t: TxnId)
    requires LockInv(s) && FewInv(s) && CanMove(s, t, ReleaseLocks)
    ensures FewInv(DoMove(s, t, ReleaseLocks))
  {
    forall k ensures !Waits(s.locks, t, k) {
      AwakeWaitsNowhere(s, t, k);
    }
    ReleaseAllOrderly(s.locks, t);
    FewKept(s, DoMove(s, t, ReleaseLocks), t);
  }

  lemma TimeOutFew(s: State, t: TxnId)
    requires LockInv(s) && FewInv(s) && CanMove(s, t, TimeOut)
    ensures FewInv(DoMove(s, t, TimeOut))
  {
    GiveUpOrderly(s.locks, t, KeyOf(s.txns[t].pc.cmd));
    FewKept(s, DoMove(s, t, TimeOut), t);
  }

  /** A step that leaves the table alone leaves the transaction needing what it needed. */
  lemma StillNeeds(s: State, t: TxnId, m: Move, k: Key)
    requires CanMove(s, t, m) && !m.Ask? && m != Unlock && m != ReleaseLocks && m != TimeOut
    requires s.txns[t].level == ReadCommitted && Needs(s.txns[t], k)
    ensures t in DoMove(s, t, m).txns && Needs(DoMove(s, t, m).txns[t], k)
  {
  }

  lemma QuietFew(s: State, t: TxnId, m: Move)
    requires LockInv(s) && FewInv(s) && CanMove(s, t, m)
    requires !m.Ask? && m != Unlock && m != ReleaseLocks && m != TimeOut
    ensures FewInv(DoMove(s, t, m))
  {
    var s' := DoMove(s, t, m);
    MoveReplaces(s, t, m);
    Unmoved(s.locks, t);
    assert HoldsFew(s.locks, t, s.txns[t], s.leaked);
    forall k | Hold(s.locks, t, k) != NoLock && k !in s'.leaked && s.txns[t].level == ReadCommitted
      ensures Needs(s'.txns[t], k)
    {
      StillNeeds(s, t, m, k);
    }
    FewKept(s, s', t);
  }

  lemma FewStep(s: State, a: Action)
    requires LockInv(s) && FewInv(s) && Enabled(s, a) && s.nextTxn !in s.txns
    ensures FewInv(Do(s, a))
  {
    match a
    case BeginTxn(session, level) =>
      Unmoved(s.locks, s.nextTxn);
      FewKept(s, Do(s, a), s.nextTxn);
    case By(t, m) => FewMove(s, t, m);
    case _ =>
  }

  lemma FewMove(s: State, t: TxnId, m: Move)
    requires LockInv(s) && FewInv(s) && CanMove(s, t, m)
    ensures FewInv(DoMove(s, t, m))
  {
    match m
    case Ask(cmd) => AskFew(s, t, cmd);
    case Unlock => UnlockFew(s, t);
    case ReleaseLocks => ReleaseFew(s, t);
    case TimeOut => TimeOutFew(s, t);
    case _ => QuietFew(s, t, m);
  }

  lemma {:induction false} FewAlways(run: seq<Action>)
    requires Legal(run)
    ensures FewInv(After(run))
  {
    if run == [] {
      Start();
    } else {
      var init := run[..|run| - 1];
      Last(run);
      FewAlways(init);
      InvAlways(init);
      FewStep(After(init), run[|run| - 1]);
    }
  }

  /** In every run, a READ_COMMITTED transaction between two commands holds exactly the keys it has written. */
  lemma ReadCommittedHoldsItsWrites(run: seq<Action>, t: TxnId, k: Key)
    requires Legal(run) && t in After(run).txns && After(run).txns[t].pc == Active && k !in After(run).leaked
    requires After(run).txns[t].level == ReadCommitted
    ensures Hold(After(run).locks, t, k) == if k in After(run).txns[t].buffer then Exclusive else NoLock
  {
    var s := After(run);
    InvAlways(run);
    FewAlways(run);
    assert HoldsFew(s.locks, t, s.txns[t], s.leaked);
    assert TxnHolds(s.locks, t, s.txns[t], s.leaked);
  }
}
