// The write-ahead log as a sequence of records: how it is filled and drained, and the
// serial meaning of its commits.
module Log {
  import opened Kv

  /** What a record says. Recovery skips types it does not know; no session logs them. */
  datatype Body = Begin | Change(op: Op) | Commit | Abort | Unknown(code: bv8)

  datatype Record = Record(lsn: Lsn, txn: TxnId, body: Body)

  // ---------------------------------------------------------------- the log's content

  predicate Terminal(b: Body) {
    b == Commit || b == Abort
  }

  /** The operations that a transaction has logged, in log order. */
  function OpsOf(log: seq<Record>, t: TxnId): seq<Op> {
    if log == [] then []
    else
      var r := log[|log| - 1];
      var before := OpsOf(log[..|log| - 1], t);
      if r.txn == t && r.body.Change? then before + [r.body.op] else before
  }

  /**
   * The serial meaning of a log on a store: at each COMMIT record, in log order, the
   * operations that its transaction had logged are applied, all of them at once.
   */
  function FoldFrom(base: Store, log: seq<Record>): Store {
    if log == [] then base
    else
      var r := log[|log| - 1];
      var before := log[..|log| - 1];
      if r.body == Commit then ApplyOps(FoldFrom(base, before), OpsOf(before, r.txn)) else FoldFrom(base, before)
  }

  function Fold(log: seq<Record>): Store {
    FoldFrom(map[], log)
  }

  predicate Open(log: seq<Record>, t: TxnId) {
    forall i :: 0 <= i < |log| && log[i].txn == t ==> !Terminal(log[i].body)
  }

  /** A transaction logs nothing after its COMMIT or ABORT. */
  predicate WellFormed(log: seq<Record>) {
    forall i, j :: 0 <= i < j < |log| && log[i].txn == log[j].txn ==> !Terminal(log[i].body)
  }

  /** LSNs count the records from 1. */
  predicate Numbered(log: seq<Record>) {
    forall i :: 0 <= i < |log| ==> log[i].lsn == i + 1
  }

  lemma OpsOfAppend(log: seq<Record>, r: Record, t: TxnId)
    ensures OpsOf(log + [r], t) == if r.txn == t && r.body.Change? then OpsOf(log, t) + [r.body.op] else OpsOf(log, t)
  {
    assert (log + [r])[..|log|] == log;
  }

  lemma FoldAppend(log: seq<Record>, r: Record)
    ensures Fold(log + [r]) == if r.body == Commit then ApplyOps(Fold(log), OpsOf(log, r.txn)) else Fold(log)
  {
    assert (log + [r])[..|log|] == log;
  }

  lemma WellFormedAppend(log: seq<Record>, r: Record)
    requires WellFormed(log) && Open(log, r.txn)
    ensures WellFormed(log + [r])
  {
  }

  lemma {:induction false} OpsOfStranger(log: seq<Record>, t: TxnId)
    requires forall i :: 0 <= i < |log| ==> log[i].txn != t
    ensures OpsOf(log, t) == []
  {
    if log != [] {
      OpsOfStranger(log[..|log| - 1], t);
    }
  }
}
