// Recovery at the level of records: group by transaction, sort the commits by LSN, replay.
module Recovery {
  import opened Kv
  import opened Log

  datatype TxnState = TxnState(ops: seq<Op>, committed: bool, commitLsn: Lsn)

  datatype Mark = Mark(txn: TxnId, lsn: Lsn)

  datatype Scan = Scan(txns: map<TxnId, TxnState>, order: seq<Mark>)

  const NO_TXN := TxnState([], false, 0)

  function StateOf(txns: map<TxnId, TxnState>, t: TxnId): TxnState {
    if t in txns then txns[t] else NO_TXN
  }

  /** One accepted record: it creates its transaction's entry if need be and updates it. */
  function Note(sc: Scan, r: Record): Scan {
    var x := StateOf(sc.txns, r.txn);
    match r.body
    case Change(op) => sc.(txns := sc.txns[r.txn := x.(ops := x.ops + [op])])
    case Commit =>
      Scan(sc.txns[r.txn := x.(committed := true, commitLsn := r.lsn)], sc.order + [Mark(r.txn, r.lsn)])
    case Abort => sc.(txns := sc.txns[r.txn := x.(committed := false)])
    case _ => sc.(txns := sc.txns[r.txn := x])
  }

  function ScanAll(log: seq<Record>): Scan {
    if log == [] then Scan(map[], []) else Note(ScanAll(log[..|log| - 1]), log[|log| - 1])
  }

  /** The records that a checkpoint at `lsn` does not cover. */
  function Above(log: seq<Record>, lsn: Lsn): seq<Record> {
    if log == [] then []
    else
      var r := log[|log| - 1];
      var before := Above(log[..|log| - 1], lsn);
      if r.lsn <= lsn then before else before + [r]
  }

  function Insert(m: Mark, sorted: seq<Mark>): seq<Mark> {
    if sorted == [] || m.lsn >= sorted[|sorted| - 1].lsn then sorted + [m]
    else Insert(m, sorted[..|sorted| - 1]) + [sorted[|sorted| - 1]]
  }

  function SortByLsn(order: seq<Mark>): seq<Mark> {
    if order == [] then [] else Insert(order[|order| - 1], SortByLsn(order[..|order| - 1]))
  }

  /** Applies the transactions in the given order, passing over those not marked committed. */
  function Replay(base: Store, txns: map<TxnId, TxnState>, order: seq<Mark>): Store {
    if order == [] then base
    else
      var before := Replay(base, txns, order[..|order| - 1]);
      var x := StateOf(txns, order[|order| - 1].txn);
      if x.committed then ApplyOps(before, x.ops) else before
  }

  function ReplayScan(base: Store, sc: Scan): Store {
    Replay(base, sc.txns, SortByLsn(sc.order))
  }

  /** What recovery makes of a snapshot's store, its LSN and the records of the log file. */
  function Recovered(base: Store, checkpoint: Lsn, log: seq<Record>): Store {
    ReplayScan(base, ScanAll(Above(log, checkpoint)))
  }

  // ---------------------------------------------------------------- sorting

  predicate Ascending(order: seq<Mark>) {
    forall i, j :: 0 <= i < j < |order| ==> order[i].lsn <= order[j].lsn
  }

  predicate Below(marks: seq<Mark>, bound: Lsn) {
    forall i :: 0 <= i < |marks| ==> marks[i].lsn <= bound
  }

  lemma AscendingEnd(order: seq<Mark>)
    requires Ascending(order) && order != []
    ensures Ascending(order[..|order| - 1]) && Below(order[..|order| - 1], order[|order| - 1].lsn)
  {
  }

  lemma AscendingAppend(order: seq<Mark>, m: Mark)
    requires Ascending(order) && Below(order, m.lsn)
    ensures Ascending(order + [m])
  {
  }

  lemma {:induction false} InsertAscends(m: Mark, sorted: seq<Mark>)
    requires Ascending(sorted)
    ensures Ascending(Insert(m, sorted))
    ensures forall bound :: Below(sorted, bound) && m.lsn <= bound ==> Below(Insert(m, sorted), bound)
    decreases |sorted|
  {
    if sorted != [] {
      AscendingEnd(sorted);
      var init, last := sorted[..|sorted| - 1], sorted[|sorted| - 1];
      if m.lsn < last.lsn {
        InsertAscends(m, init);
        AscendingAppend(Insert(m, init), last);
      } else {
        AscendingAppend(sorted, m);
      }
    }
  }

  lemma {:induction false} InsertAdds(m: Mark, sorted: seq<Mark>)
    ensures multiset(Insert(m, sorted)) == multiset(sorted) + multiset{m}
  {
    if sorted != [] && m.lsn < sorted[|sorted| - 1].lsn {
      InsertAdds(m, sorted[..|sorted| - 1]);
      assert sorted == sorted[..|sorted| - 1] + [sorted[|sorted| - 1]];
    }
  }

  lemma SortStep(order: seq<Mark>, init: seq<Mark>, last: Mark)
    requires order == init + [last]
    ensures SortByLsn(order) == Insert(last, SortByLsn(init))
  {
    assert order[..|order| - 1] == init;
  }

  /** The sort really sorts: the same marks, in ascending LSN order. */
  lemma {:induction false} SortSorts(order: seq<Mark>)
    ensures Ascending(SortByLsn(order))
    ensures multiset(SortByLsn(order)) == multiset(order)
  {
    if order != [] {
      var init, last := order[..|order| - 1], order[|order| - 1];
      assert order == init + [last];
      SortSorts(init);
      var sorted := SortByLsn(init);
      SortStep(order, init, last);
      InsertAscends(last, sorted);
      InsertAdds(last, sorted);
    }
  }

  lemma InsertLast(m: Mark, sorted: seq<Mark>)
    requires Below(sorted, m.lsn)
    ensures Insert(m, sorted) == sorted + [m]
  {
  }

  /** Sorting what is already in order changes nothing. */
  lemma {:induction false} SortFixes(order: seq<Mark>)
    requires Ascending(order)
    ensures SortByLsn(order) == order
  {
    if order != [] {
      var init, last := order[..|order| - 1], order[|order| - 1];
      assert order == init + [last];
      AscendingEnd(order);
      SortFixes(init);
      SortStep(order, init, last);
      InsertLast(last, init);
    }
  }

  // ---------------------------------------------------------------- what the scan holds

  predicate Increasing(log: seq<Record>) {
    forall i, j :: 0 <= i < j < |log| ==> log[i].lsn < log[j].lsn
  }

  predicate Committed(log: seq<Record>, t: TxnId) {
    exists i :: 0 <= i < |log| && log[i].txn == t && log[i].body == Commit
  }

  lemma {:induction false} ScanOps(log: seq<Record>, t: TxnId)
    ensures StateOf(ScanAll(log).txns, t).ops == OpsOf(log, t)
  {
    if log != [] {
      ScanOps(log[..|log| - 1], t);
    }
  }

  lemma {:induction false} ScanCommitted(log: seq<Record>, t: TxnId)
    requires WellFormed(log)
    ensures StateOf(ScanAll(log).txns, t).committed <==> Committed(log, t)
  {
    if log != [] {
      var init := log[..|log| - 1];
      ScanCommitted(init, t);
      if Committed(init, t) {
        var i :| 0 <= i < |init| && init[i].txn == t && init[i].body == Commit;
        assert log[i] == init[i];
      }
      if Committed(log, t) && log[|log| - 1] != Record(log[|log| - 1].lsn, t, Commit) {
        var i :| 0 <= i < |log| && log[i].txn == t && log[i].body == Commit;
        assert init[i] == log[i];
      }
    }
  }

  lemma {:induction false} ScanOrder(log: seq<Record>, m: Mark)
    ensures m in ScanAll(log).order <==> exists i :: 0 <= i < |log| && log[i] == Record(m.lsn, m.txn, Commit)
  {
    if log != [] {
      var init := log[..|log| - 1];
      var r := log[|log| - 1];
      ScanOrder(init, m);
      assert log == init + [r];
      assert (exists i :: 0 <= i < |log| && log[i] == Record(m.lsn, m.txn, Commit))
        <==> Record(m.lsn, m.txn, Commit) in log;
      assert (exists i :: 0 <= i < |init| && init[i] == Record(m.lsn, m.txn, Commit))
        <==> Record(m.lsn, m.txn, Commit) in init;
    }
  }

  // ---------------------------------------------------------------- recovery is the serial meaning

  lemma {:induction false} ReplaySame(base: Store, a: map<TxnId, TxnState>, b: map<TxnId, TxnState>, order: seq<Mark>)
    requires forall m :: m in order ==>
      StateOf(a, m.txn).ops == StateOf(b, m.txn).ops && StateOf(a, m.txn).committed == StateOf(b, m.txn).committed
    ensures Replay(base, a, order) == Replay(base, b, order)
  {
    if order != [] {
      var last := order[|order| - 1];
      assert last in order;
      ReplaySame(base, a, b, order[..|order| - 1]);
    }
  }

  lemma {:induction false} ScanAscending(log: seq<Record>)
    requires Increasing(log)
    ensures Ascending(ScanAll(log).order)
  {
    if log != [] {
      var init := log[..|log| - 1];
      ScanAscending(init);
      var before := ScanAll(init).order;
      forall i | 0 <= i < |before| ensures before[i].lsn < log[|log| - 1].lsn {
        ScanOrder(init, before[i]);
      }
    }
  }

  /** A transaction that has committed in the earlier part of the log is left alone by the next record. */
  lemma NoteElsewhere(log: seq<Record>, m: Mark)
    requires log != [] && WellFormed(log) && m in ScanAll(log[..|log| - 1]).order
    ensures log[|log| - 1].txn != m.txn
  {
    var init := log[..|log| - 1];
    ScanOrder(init, m);
    var i :| 0 <= i < |init| && init[i] == Record(m.lsn, m.txn, Commit);
    assert log[i] == init[i];
  }

  lemma {:induction false} ReplayIsFold(base: Store, log: seq<Record>)
    requires WellFormed(log)
    ensures Replay(base, ScanAll(log).txns, ScanAll(log).order) == FoldFrom(base, log)
  {
    if log != [] {
      var init := log[..|log| - 1];
      var r := log[|log| - 1];
      var sc, sc' := ScanAll(init), ScanAll(log);
      ReplayIsFold(base, init);
      forall m | m in sc.order ensures StateOf(sc.txns, m.txn) == StateOf(sc'.txns, m.txn) {
        NoteElsewhere(log, m);
      }
      ReplaySame(base, sc.txns, sc'.txns, sc.order);
      if r.body == Commit {
        ScanOps(init, r.txn);
        assert sc'.order[..|sc'.order| - 1] == sc.order;
      }
    }
  }

  lemma {:induction false} AboveConcat(a: seq<Record>, b: seq<Record>, lsn: Lsn)
    ensures Above(a + b, lsn) == Above(a, lsn) + Above(b, lsn)
    decreases |b|
  {
    if b == [] {
      assert a + b == a;
    } else {
      var init := b[..|b| - 1];
      assert (a + b)[..|a + b| - 1] == a + init;
      AboveConcat(a, init, lsn);
    }
  }

  lemma {:induction false} AboveKeepsOrder(log: seq<Record>, lsn: Lsn, r: Record)
    ensures r in Above(log, lsn) <==> r in log && r.lsn > lsn
  {
    if log != [] {
      AboveKeepsOrder(log[..|log| - 1], lsn, r);
      assert log == log[..|log| - 1] + [log[|log| - 1]];
    }
  }

  /**
   * On a log with rising LSNs in which nobody logs after ending, grouping, sorting and
   * replaying is the serial meaning of the records above the checkpoint.
   */
  lemma RecoveredIsFold(base: Store, checkpoint: Lsn, log: seq<Record>)
    requires WellFormed(Above(log, checkpoint)) && Increasing(Above(log, checkpoint))
    ensures Recovered(base, checkpoint, log) == FoldFrom(base, Above(log, checkpoint))
  {
    var above := Above(log, checkpoint);
    ScanAscending(above);
    SortFixes(ScanAll(above).order);
    ReplayIsFold(base, above);
  }
}
