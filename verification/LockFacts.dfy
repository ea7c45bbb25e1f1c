// What each critical section of the lock manager means for the transactions that did
// not run it: nobody else loses a lock, a waiter leaves the queue only by being served,
// and the queue is first come, first served.
module LockFacts {
  import opened Kv
  import opened LockTable

  // ---------------------------------------------------------------- entries

  lemma TxnsMember(q: seq<Waiter>, u: TxnId)
    ensures u in Txns(q) <==> InQueue(q, u)
  {
    if u in Txns(q) {
      var w :| w in q && w.txn == u;
      var i :| 0 <= i < |q| && q[i] == w;
    }
    if InQueue(q, u) {
      var i :| 0 <= i < |q| && q[i].txn == u;
      assert q[i] in q;
    }
  }

  /** How many waiters leave the front of the queue when `t` drops its hold. */
  function Served(e: LockEntry, t: TxnId): nat
    ensures Served(e, t) <= |e.queue|
  {
    if e.holders - {t} == {} then Admitted(e.queue) else 0
  }

  lemma DropExact(e: LockEntry, t: TxnId)
    requires EntryOk(e)
    ensures var n := Served(e, t);
      Drop(e, t) ==
        if e.holders - {t} != {} then e.(holders := e.holders - {t})
        else LockEntry(if e.queue == [] then NoLock else e.queue[0].mode, Txns(e.queue[..n]), e.queue[n..])
  {
    DrainExact(e.queue);
  }

  lemma DropKeepsEntry(e: LockEntry, t: TxnId)
    requires EntryOk(e) && !InQueue(e.queue, t)
    ensures Spent(Drop(e, t)) <==> e.holders - {t} == {} && e.queue == []
    ensures !Spent(Drop(e, t)) ==> EntryOk(Drop(e, t))
  {
    DropExact(e, t);
    var r := Drop(e, t);
    if e.holders - {t} != {} {
      if e.mode == Exclusive {
        var u :| u in e.holders - {t};
        assert |e.holders - {u}| == 0;
        assert r.holders == e.holders;
      }
    } else if e.queue != [] {
      DrainExact(e.queue);
      var n := Admitted(e.queue);
      assert e.queue[0] in e.queue[..n];
      assert e.queue[0].txn in r.holders;
      if r.mode == Exclusive {
        assert e.queue[..1] == [e.queue[0]];
        assert r.holders == {e.queue[0].txn};
      }
      forall i | 0 <= i < |r.queue| ensures WaiterOk(r, r.queue[i]) {
        assert WaiterOk(e, e.queue[n + i]);
        TxnsMember(e.queue[..n], r.queue[i].txn);
      }
    }
  }

  /** Seen by the others, dropping a hold takes nothing away and serves waiters in full. */
  lemma DropEffect(e: LockEntry, t: TxnId)
    requires EntryOk(e) && !InQueue(e.queue, t)
    ensures var r := Drop(e, t);
      && t !in r.holders
      && (forall u :: u != t && u in e.holders ==> u in r.holders && r.mode == e.mode)
      && (forall u :: u in r.holders ==> u in e.holders || InQueue(e.queue[..Served(e, t)], u))
      && (forall u :: u in r.holders ==> u in e.holders || InQueue(e.queue, u))
      && r.queue == e.queue[Served(e, t)..]
      && (forall i :: 0 <= i < Served(e, t) ==> e.queue[i].txn in r.holders && r.mode == e.queue[i].mode)
  {
    DropExact(e, t);
    var n := Served(e, t);
    var r := Drop(e, t);
    if e.holders - {t} == {} {
      forall u | u in e.holders ensures u == t {
        assert u !in e.holders - {t};
      }
      DrainExact(e.queue);
      AdmittedMode(e);
      forall u ensures u in r.holders <==> InQueue(e.queue[..n], u) {
        TxnsMember(e.queue[..n], u);
      }
      forall i | 0 <= i < n ensures e.queue[i].txn in r.holders {
        assert e.queue[..n][i].txn == e.queue[i].txn;
      }
      forall u | u in r.holders ensures InQueue(e.queue, u) && u != t {
        var i :| 0 <= i < n && e.queue[..n][i].txn == u;
        assert e.queue[i].txn == u;
      }
    }
  }

  /** Whoever is admitted together asked for the same mode. */
  lemma AdmittedMode(e: LockEntry)
    requires EntryOk(e)
    ensures forall i :: 0 <= i < Admitted(e.queue) ==> e.queue[i].mode == e.queue[0].mode
  {
    DrainExact(e.queue);
    if e.queue != [] {
      assert WaiterOk(e, e.queue[0]);
    }
  }

  lemma {:induction false} WithoutMember(q: seq<Waiter>, t: TxnId, w: Waiter)
    ensures w in Without(q, t) <==> w in q && w.txn != t
  {
    if q != [] {
      WithoutMember(q[1..], t, w);
      assert q == [q[0]] + q[1..];
    }
  }

  lemma {:induction false} WithoutStranger(q: seq<Waiter>, t: TxnId)
    requires !InQueue(q, t)
    ensures Without(q, t) == q
  {
    if q != [] {
      assert q[0].txn != t;
      forall i | 0 <= i < |q[1..]| ensures q[1..][i].txn != t {
        assert q[i + 1].txn != t;
      }
      WithoutStranger(q[1..], t);
      assert q == [q[0]] + q[1..];
    }
  }

  lemma {:induction false} WithoutDistinct(q: seq<Waiter>, t: TxnId)
    requires Distinct(q)
    ensures Distinct(Without(q, t))
  {
    if q != [] {
      var r := Without(q[1..], t);
      WithoutDistinct(q[1..], t);
      if q[0].txn != t {
        forall j | 0 <= j < |r| ensures r[j].txn != q[0].txn {
          WithoutMember(q[1..], t, r[j]);
          var i :| 0 <= i < |q[1..]| && q[1..][i] == r[j];
          assert q[i + 1] == r[j];
        }
      }
    }
  }

  lemma GiveUpKeepsEntry(e: LockEntry, t: TxnId)
    requires EntryOk(e)
    ensures EntryOk(e.(queue := Without(e.queue, t)))
  {
    var q := Without(e.queue, t);
    WithoutDistinct(e.queue, t);
    forall i | 0 <= i < |q| ensures WaiterOk(e, q[i]) {
      WithoutMember(e.queue, t, q[i]);
      var j :| 0 <= j < |e.queue| && e.queue[j] == q[i];
    }
  }

  // ---------------------------------------------------------------- tables

  /** Nobody but `t` loses a lock or part of one. */
  ghost predicate OthersKeep(before: Table, after: Table, t: TxnId, k: Key) {
    forall u :: u != t ==> Rank(Hold(before, u, k)) <= Rank(Hold(after, u, k))
  }

  /** Whoever waited, other than `t`, still waits in the same mode or holds what it asked for. */
  ghost predicate OthersServed(before: Table, after: Table, t: TxnId, k: Key) {
    k in before ==> forall w :: w in before[k].queue && w.txn != t ==>
      (k in after && w in after[k].queue) || Rank(Hold(after, w.txn, k)) >= Rank(w.mode)
  }

  /** No holder or waiter appears from nowhere: each is `t` or was there before. */
  ghost predicate NoStrangers(before: Table, after: Table, t: TxnId, k: Key) {
    k in after ==>
      && (forall u :: u in after[k].holders ==>
            u == t || (k in before && (u in before[k].holders || InQueue(before[k].queue, u))))
      && (forall w :: w in after[k].queue ==>
            w.txn == t || (k in before && w in before[k].queue))
  }

  ghost predicate OrderlyAt(before: Table, after: Table, t: TxnId, k: Key) {
    && (k in after ==> EntryOk(after[k]))
    && OthersKeep(before, after, t, k)
    && OthersServed(before, after, t, k)
    && NoStrangers(before, after, t, k)
  }

  /** The whole table moved by one critical section of `t`. */
  ghost predicate Orderly(before: Table, after: Table, t: TxnId) {
    forall k :: OrderlyAt(before, after, t, k)
  }

  lemma InQueueIn(q: seq<Waiter>, w: Waiter)
    requires w in q
    ensures InQueue(q, w.txn)
  {
    var i :| 0 <= i < |q| && q[i] == w;
  }

  lemma NotInQueue(q: seq<Waiter>, t: TxnId)
    requires forall w :: w in q ==> w.txn != t
    ensures !InQueue(q, t)
  {
    forall i | 0 <= i < |q| ensures q[i].txn != t {
      assert q[i] in q;
    }
  }

  lemma QueueWithout(q: seq<Waiter>, t: TxnId)
    requires !InQueue(q, t)
    ensures forall w :: w in q ==> w.txn != t
  {
    forall w | w in q ensures w.txn != t {
      var i :| 0 <= i < |q| && q[i] == w;
    }
  }

  lemma RequestOrderly(table: Table, t: TxnId, k: Key, m: LockMode)
    requires TableOk(table) && m != NoLock && !Waits(table, t, k)
    ensures Orderly(table, Request(table, t, k, m), t)
  {
    var e := EntryAt(table, k);
    AskKeepsEntry(e, t, m);
    AskEffect(e, t, m);
    assert OrderlyAt(table, Request(table, t, k, m), t, k);
  }

  /** The asker itself: granted what it asked for and losing nothing, or queued. */
  lemma RequestOwn(table: Table, t: TxnId, k: Key, m: LockMode)
    requires TableOk(table) && m != NoLock && !Waits(table, t, k)
    ensures var after := Request(table, t, k, m);
      && (forall j :: Rank(Hold(after, t, j)) >= Rank(Hold(table, t, j)))
      && (Ask(EntryAt(table, k), t, m).1 == Granted ==>
            Rank(Hold(after, t, k)) >= Rank(m) && !Waits(after, t, k))
      && (Ask(EntryAt(table, k), t, m).1 == Queued ==> Waiter(t, m) in after[k].queue)
      && (forall j, w :: j in after && w in after[j].queue && w.txn == t ==>
            (j == k && w == Waiter(t, m)) || (j in table && w in table[j].queue))
  {
    var e := EntryAt(table, k);
    AskEffect(e, t, m);
  }

  lemma ReleaseOrderly(table: Table, t: TxnId, k: Key)
    requires TableOk(table) && !Waits(table, t, k)
    ensures Orderly(table, Release(table, t, k), t)
  {
    if k in table {
      var e := table[k];
      var after := Release(table, t, k);
      DropKeepsEntry(e, t);
      DropEffect(e, t);
      forall w | w in e.queue && w.txn != t
        ensures (k in after && w in after[k].queue) || Rank(Hold(after, w.txn, k)) >= Rank(w.mode)
      {
        var i :| 0 <= i < |e.queue| && e.queue[i] == w;
        if i >= Served(e, t) {
          assert Drop(e, t).queue[i - Served(e, t)] == w;
        }
      }
      assert OrderlyAt(table, after, t, k);
    }
  }

  lemma ReleaseAllAt(table: Table, t: TxnId, k: Key)
    requires TableOk(table) && !Waits(table, t, k)
    ensures OrderlyAt(table, ReleaseAll(table, t), t, k)
    ensures Hold(ReleaseAll(table, t), t, k) == NoLock && !Waits(ReleaseAll(table, t), t, k)
  {
    var after := ReleaseAll(table, t);
    ReleaseOrderly(table, t, k);
    if k in table && t in table[k].holders {
      DropEffect(table[k], t);
      var one := Release(table, t, k);
      assert OrderlyAt(table, one, t, k);
      assert k in one <==> k in after;
      assert k in one ==> one[k] == after[k];
      assert OrderlyAt(table, after, t, k);
    }
    if k in after {
      forall w | w in after[k].queue ensures w.txn != t {
        assert w in table[k].queue;
        InQueueIn(table[k].queue, w);
      }
      NotInQueue(after[k].queue, t);
    }
  }

  lemma ReleaseAllOrderly(table: Table, t: TxnId)
    requires TableOk(table) && (forall k :: !Waits(table, t, k))
    ensures Orderly(table, ReleaseAll(table, t), t)
    ensures forall k :: Hold(ReleaseAll(table, t), t, k) == NoLock && !Waits(ReleaseAll(table, t), t, k)
  {
    forall k
      ensures OrderlyAt(table, ReleaseAll(table, t), t, k)
      ensures Hold(ReleaseAll(table, t), t, k) == NoLock && !Waits(ReleaseAll(table, t), t, k)
    {
      ReleaseAllAt(table, t, k);
    }
  }

  lemma GiveUpOrderly(table: Table, t: TxnId, k: Key)
    requires TableOk(table)
    ensures Orderly(table, GiveUp(table, t, k), t)
    ensures forall u, j :: Hold(GiveUp(table, t, k), u, j) == Hold(table, u, j)
    ensures !Waits(GiveUp(table, t, k), t, k)
  {
    if k in table {
      GiveUpKeepsEntry(table[k], t);
      forall w ensures w in Without(table[k].queue, t) <==> w in table[k].queue && w.txn != t {
        WithoutMember(table[k].queue, t, w);
      }
      NotInQueue(Without(table[k].queue, t), t);
      assert OrderlyAt(table, GiveUp(table, t, k), t, k);
    }
  }
}
