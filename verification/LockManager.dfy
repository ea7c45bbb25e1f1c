// The lock manager as an object that updates its table in place. Each method is one critical
// section, proved against the lock-table operations that the engine's actions use.
module LockManager {
  import opened Kv
  import opened LockTable

  /** What acquireLock finds when a transaction in progress calls it. */
  predicate Askable(table: Table, t: TxnId, k: Key, m: LockMode) {
    TableOk(table) && m != NoLock && !Waits(table, t, k)
  }

  lemma RequestGrantsIff(table: Table, t: TxnId, k: Key, m: LockMode)
    ensures Askable(table, t, k, m) ==>
      (Ask(EntryAt(table, k), t, m).1 == Granted <==> Grantable(EntryAt(table, k), t, m))
  {
    if Askable(table, t, k, m) {
      AskGrantsIff(EntryAt(table, k), t, m);
    }
  }

  lemma ReleasedAll(before: Table, after: Table, t: TxnId, all: set<Key>, erase: set<Key>)
    requires after.Keys == before.Keys && all == set k | k in before && t in before[k].holders
    requires forall k :: k in before && k !in all ==> after[k] == before[k]
    requires forall k :: k in all ==> after[k] == Drop(before[k], t)
    requires forall k :: k in erase <==> k in all && Spent(after[k])
    ensures after - erase == ReleaseAll(before, t)
  {
  }

  class LockManager {
    var table: Table

    constructor ()
      ensures table == map[]
    {
      table := map[];
    }

    /** acquireLock up to its return or the start of its wait. */
    method RequestLock(t: TxnId, k: Key, m: LockMode) returns (verdict: Verdict)
      modifies this`table
      ensures table == Request(old(table), t, k, m)
      ensures verdict == Ask(EntryAt(old(table), k), t, m).1
      ensures Askable(old(table), t, k, m) ==> (verdict == Granted <==> Grantable(EntryAt(old(table), k), t, m))
    {
      RequestGrantsIff(table, t, k, m);
      if k !in table {
        table := table[k := FRESH_ENTRY];
      }
      var e := table[k];
      verdict := Granted;
      if t in e.holders {
        if e.mode == Exclusive || m == Shared {
          return;
        }
        if |e.holders| == 1 {
          if e.queue == [] {
            table := table[k := e.(mode := Exclusive)];
            return;
          } else if e.queue[0].txn == t {
            table := table[k := e.(mode := Exclusive, queue := e.queue[1..])];
            return;
          }
        }
      } else if Compatible(e.mode, m) && e.queue == [] {
        e := e.(holders := e.holders + {t});
        if e.mode == NoLock {
          e := e.(mode := m);
        } else if m == Exclusive {
          e := e.(mode := Exclusive);
        }
        table := table[k := e];
        return;
      }
      table := table[k := e.(queue := e.queue + [Waiter(t, m)])];
      verdict := Queued;
    }

    /** The end of acquireLock's wait: granted in the meantime, or timed out and taken off the queue. */
    method FinishWait(t: TxnId, k: Key) returns (granted: bool)
      requires k in table
      modifies this`table
      ensures granted == !Waits(old(table), t, k)
      ensures table == if granted then old(table) else GiveUp(old(table), t, k)
    {
      granted := !InQueue(table[k].queue, t);
      if !granted {
        var q := table[k].queue;
        var kept: seq<Waiter> := [];
        for i := 0 to |q|
          invariant kept + Without(q[i..], t) == Without(q, t)
        {
          if q[i].txn != t {
            kept := kept + [q[i]];
          }
          assert q[i..][1..] == q[i + 1..];
        }
        assert q[|q|..] == [] && kept + [] == kept;
        table := table[k := table[k].(queue := kept)];
      }
    }

    method ProcessWaiters(k: Key)
      modifies this`table
      ensures table == if k in old(table) then old(table)[k := Drain(old(table)[k])] else old(table)
    {
      if k !in table {
        return;
      }
      ghost var before := table;
      while table[k].queue != [] && Compatible(table[k].mode, table[k].queue[0].mode)
        modifies this`table
        invariant k in table && table == before[k := table[k]]
        invariant Drain(table[k]) == Drain(before[k])
        decreases |table[k].queue|
      {
        var e := table[k];
        var w := e.queue[0];
        e := e.(holders := e.holders + {w.txn});
        if e.mode == NoLock {
          e := e.(mode := w.mode);
        } else if w.mode == Exclusive {
          e := e.(mode := Exclusive);
        }
        table := table[k := e.(queue := e.queue[1..])];
      }
    }

    /** Takes `t` off the holders and, if it was the last, serves the queue. */
    method DropHold(t: TxnId, k: Key)
      requires k in table
      modifies this`table
      ensures table == old(table)[k := Drop(old(table)[k], t)]
    {
      var e := table[k];
      table := table[k := e.(holders := e.holders - {t})];
      if table[k].holders == {} {
        table := table[k := table[k].(mode := NoLock)];
        ProcessWaiters(k);
      }
    }

    method ReleaseLock(t: TxnId, k: Key)
      modifies this`table
      ensures table == Release(old(table), t, k)
    {
      if k !in table {
        return;
      }
      DropHold(t, k);
      if Spent(table[k]) {
        table := table - {k};
      }
    }

    method ReleaseAllLocks(t: TxnId)
      modifies this`table
      ensures table == ReleaseAll(old(table), t)
    {
      ghost var before := table;
      var todo := set k | k in table && t in table[k].holders;
      ghost var all := todo;
      var erase: set<Key> := {};
      while todo != {}
        modifies this`table
        invariant todo <= all && table.Keys == before.Keys
        invariant forall k :: k in before && (k !in all || k in todo) ==> table[k] == before[k]
        invariant forall k :: k in all && k !in todo ==> table[k] == Drop(before[k], t)
        invariant forall k :: k in erase <==> k in all && k !in todo && Spent(table[k])
        decreases |todo|
      {
        var k :| k in todo;
        DropHold(t, k);
        if Spent(table[k]) {
          erase := erase + {k};
        }
        todo := todo - {k};
      }
      ReleasedAll(before, table, t, all, erase);
      table := table - erase;
    }

    /** The mode in which the transaction holds the key, or NoLock. */
    method HasLock(t: TxnId, k: Key) returns (m: LockMode)
      ensures m == NoLock <==> k !in table || t !in table[k].holders || table[k].mode == NoLock
      ensures m != NoLock ==> m == table[k].mode
      ensures TableOk(table) && m == Exclusive ==> forall u :: u != t ==> Hold(table, u, k) == NoLock
      ensures TableOk(table) && m == Shared ==> forall u :: Hold(table, u, k) != Exclusive
    {
      m := NoLock;
      if k in table && t in table[k].holders {
        m := table[k].mode;
      }
      if TableOk(table) && m == Exclusive {
        forall u | Hold(table, u, k) != NoLock ensures u == t {
          ExclusiveIsAlone(table, t, u, k);
        }
      }
    }
  }
}
