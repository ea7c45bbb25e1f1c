// Cutting a log in two: what its parts mean, and what a checkpoint may drop.
module LogFacts {
  import opened Kv
  import opened Log
  import opened Recovery

  /** No transaction has records below the cut and its COMMIT above it. */
  predicate CleanCut(log: seq<Record>, lsn: Lsn) {
    lsn <= |log| && forall i, j :: 0 <= i < lsn <= j < |log| && log[i].txn == log[j].txn ==> log[j].body != Commit
  }

  lemma {:induction false} OpsOfSuffix(log: seq<Record>, n: nat, t: TxnId)
    requires n <= |log| && forall i :: 0 <= i < n ==> log[i].txn != t
    ensures OpsOf(log, t) == OpsOf(log[n..], t)
    decreases |log|
  {
    if n == |log| {
      OpsOfStranger(log, t);
      assert log[n..] == [];
    } else {
      var init := log[..|log| - 1];
      OpsOfSuffix(init, n, t);
      assert log[n..][..|log[n..]| - 1] == init[n..];
    }
  }

  /** A clean cut splits the meaning of a log: the part below, then the part above on top of it. */
  lemma {:induction false} FoldSplit(base: Store, log: seq<Record>, n: nat)
    requires CleanCut(log, n)
    ensures FoldFrom(base, log) == FoldFrom(FoldFrom(base, log[..n]), log[n..])
    decreases |log|
  {
    if n == |log| {
      assert log[..n] == log && log[n..] == [];
    } else {
      var init := log[..|log| - 1];
      var r := log[|log| - 1];
      assert CleanCut(init, n) by {
        assert forall i :: 0 <= i < |init| ==> init[i] == log[i];
      }
      FoldSplit(base, init, n);
      assert init[..n] == log[..n];
      assert log[n..][..|log[n..]| - 1] == init[n..];
      if r.body == Commit {
        OpsOfSuffix(init, n, r.txn);
      }
    }
  }

  lemma {:induction false} ApplyOpsAt(a: Store, b: Store, ops: seq<Op>, k: Key)
    requires Read(a, k) == Read(b, k)
    ensures Read(ApplyOps(a, ops), k) == Read(ApplyOps(b, ops), k)
  {
    if ops != [] {
      ApplyOpsAt(a, b, ops[..|ops| - 1], k);
    }
  }

  /** Replay acts on each key by itself. */
  lemma {:induction false} FoldAt(a: Store, b: Store, log: seq<Record>, k: Key)
    requires Read(a, k) == Read(b, k)
    ensures Read(FoldFrom(a, log), k) == Read(FoldFrom(b, log), k)
  {
    if log != [] {
      var init := log[..|log| - 1];
      FoldAt(a, b, init, k);
      if log[|log| - 1].body == Commit {
        ApplyOpsAt(FoldFrom(a, init), FoldFrom(b, init), OpsOf(init, log[|log| - 1].txn), k);
      }
    }
  }

  /** In a numbered log the records above an LSN are a suffix, however much below it is gone. */
  lemma {:induction false} AboveSuffix(log: seq<Record>, from: nat, lsn: Lsn)
    requires Numbered(log) && from <= lsn <= |log|
    ensures Above(log[from..], lsn) == log[lsn..]
    decreases |log|
  {
    var part := log[from..];
    if part == [] {
      assert log[lsn..] == [];
    } else {
      var init := log[..|log| - 1];
      assert part[..|part| - 1] == init[from..];
      assert part[|part| - 1] == log[|log| - 1];
      if lsn < |log| {
        AboveSuffix(init, from, lsn);
        assert log[lsn..] == init[lsn..] + [log[|log| - 1]];
      } else {
        AboveNothing(init[from..], lsn);
        assert log[lsn..] == [];
      }
    }
  }

  lemma {:induction false} AboveNothing(log: seq<Record>, lsn: Lsn)
    requires forall i :: 0 <= i < |log| ==> log[i].lsn <= lsn
    ensures Above(log, lsn) == []
  {
    if log != [] {
      AboveNothing(log[..|log| - 1], lsn);
    }
  }

  /** Filtering twice by the same LSN is filtering once: truncation changes nothing for recovery. */
  lemma {:induction false} AboveTwice(log: seq<Record>, lsn: Lsn)
    ensures Above(Above(log, lsn), lsn) == Above(log, lsn)
  {
    if log != [] {
      var init := log[..|log| - 1];
      var r := log[|log| - 1];
      AboveTwice(init, lsn);
      if r.lsn > lsn {
        assert (Above(init, lsn) + [r])[..|Above(init, lsn)|] == Above(init, lsn);
      }
    }
  }

  // ---------------------------------------------------------------- what replay overwrites

  /** The record is a write of the key by `t`. */
  predicate WritesKey(r: Record, t: TxnId, k: Key) {
    r.txn == t && r.body.Change? && r.body.op.key == k
  }

  /** A transaction with its COMMIT in this part of the log wrote the key before it. */
  predicate Rewrites(log: seq<Record>, k: Key) {
    exists i, j :: 0 <= j < i < |log| && log[i].body == Commit && WritesKey(log[j], log[i].txn, k)
  }

  predicate Touches(ops: seq<Op>, k: Key) {
    exists i :: 0 <= i < |ops| && ops[i].key == k
  }

  lemma {:induction false} ApplyOpsTouching(a: Store, b: Store, ops: seq<Op>, k: Key)
    requires Touches(ops, k)
    ensures Read(ApplyOps(a, ops), k) == Read(ApplyOps(b, ops), k)
  {
    var init := ops[..|ops| - 1];
    if ops[|ops| - 1].key != k {
      var i :| 0 <= i < |ops| && ops[i].key == k;
      assert init[i].key == k;
      ApplyOpsTouching(a, b, init, k);
    }
  }

  lemma {:induction false} OpsOfTouches(log: seq<Record>, t: TxnId, k: Key)
    ensures Touches(OpsOf(log, t), k) <==> exists j :: 0 <= j < |log| && WritesKey(log[j], t, k)
  {
    if log != [] {
      var init := log[..|log| - 1];
      var r := log[|log| - 1];
      OpsOfTouches(init, t, k);
      TouchesAppend(OpsOf(init, t), OpsOf(log, t), k);
      if j :| 0 <= j < |init| && WritesKey(init[j], t, k) {
        assert WritesKey(log[j], t, k);
      }
      if j :| 0 <= j < |log| && WritesKey(log[j], t, k) {
        assert j < |init| ==> WritesKey(init[j], t, k);
      }
      if WritesKey(r, t, k) {
        assert WritesKey(log[|init|], t, k);
      }
    }
  }

  lemma TouchesAppend(ops: seq<Op>, longer: seq<Op>, k: Key)
    requires ops <= longer && |longer| <= |ops| + 1
    ensures Touches(longer, k) <==> Touches(ops, k) || (|longer| > |ops| && longer[|ops|].key == k)
  {
    if i :| 0 <= i < |ops| && ops[i].key == k {
      assert longer[i].key == k;
    }
    if i :| 0 <= i < |longer| && longer[i].key == k {
      assert i < |ops| ==> ops[i].key == k;
    }
  }

  lemma RewritesLonger(log: seq<Record>, k: Key)
    requires log != []
    ensures var init := log[..|log| - 1]; var r := log[|log| - 1];
      Rewrites(log, k) <==> Rewrites(init, k) || (r.body == Commit && Touches(OpsOf(init, r.txn), k))
  {
    var init := log[..|log| - 1];
    var r := log[|log| - 1];
    OpsOfTouches(init, r.txn, k);
    if i, j :| 0 <= j < i < |init| && init[i].body == Commit && WritesKey(init[j], init[i].txn, k) {
      assert log[i].body == Commit && WritesKey(log[j], log[i].txn, k);
    }
    if r.body == Commit && Touches(OpsOf(init, r.txn), k) {
      var j :| 0 <= j < |init| && WritesKey(init[j], r.txn, k);
      assert log[|init|].body == Commit && WritesKey(log[j], log[|init|].txn, k);
    }
    if i, j :| 0 <= j < i < |log| && log[i].body == Commit && WritesKey(log[j], log[i].txn, k) {
      assert WritesKey(init[j], log[i].txn, k);
      assert i < |init| ==> init[i] == log[i];
    }
  }

  /** Replay leaves a key as it was, or overwrites it whatever was there. */
  lemma {:induction false} FoldRewrites(a: Store, b: Store, log: seq<Record>, k: Key)
    ensures Rewrites(log, k) ==> Read(FoldFrom(a, log), k) == Read(FoldFrom(b, log), k)
    ensures !Rewrites(log, k) ==> Read(FoldFrom(a, log), k) == Read(a, k)
  {
    if log != [] {
      var init := log[..|log| - 1];
      var r := log[|log| - 1];
      RewritesLonger(log, k);
      FoldRewrites(a, b, init, k);
      if r.body == Commit {
        var ops := OpsOf(init, r.txn);
        if Touches(ops, k) {
          ApplyOpsTouching(FoldFrom(a, init), FoldFrom(b, init), ops, k);
        } else {
          ApplyOpsElsewhere(FoldFrom(a, init), ops, k);
          ApplyOpsElsewhere(FoldFrom(b, init), ops, k);
          assert Rewrites(log, k) <==> Rewrites(init, k);
        }
      }
    }
  }

  /**
   * Recovery from a snapshot and from any part of the log that reaches back at least to its
   * LSN gives at a key the meaning of the whole log exactly if the snapshot shows there the
   * meaning of the log up to its LSN, or the log above it overwrites the key.
   */
  lemma SnapshotStandsForPrefix(log: seq<Record>, snapshot: Store, lsn: Lsn, from: nat, k: Key)
    requires Numbered(log) && WellFormed(log) && CleanCut(log, lsn) && from <= lsn
    ensures Read(Recovered(snapshot, lsn, log[from..]), k) == Read(Fold(log), k) <==>
      Read(snapshot, k) == Read(Fold(log[..lsn]), k) || Rewrites(log[lsn..], k)
  {
    AboveSuffix(log, from, lsn);
    assert WellFormed(log[lsn..]) && Increasing(log[lsn..]);
    RecoveredIsFold(snapshot, lsn, log[from..]);
    FoldSplit(map[], log, lsn);
    FoldRewrites(snapshot, Fold(log[..lsn]), log[lsn..], k);
    FoldRewrites(Fold(log[..lsn]), snapshot, log[lsn..], k);
    if Read(snapshot, k) == Read(Fold(log[..lsn]), k) {
      FoldAt(snapshot, Fold(log[..lsn]), log[lsn..], k);
    }
  }
}
