// The reference model: the simplest account of what the committed transactions amount to,
// and its agreement with recovery.
module Reference {
  import opened Kv
  import opened Log
  import opened Recovery

  datatype RefTxn = RefTxn(ops: seq<Op>, committed: bool, commitOrder: Lsn)

  const NO_REF := RefTxn([], false, 0)

  function RefOf(txns: map<TxnId, RefTxn>, t: TxnId): RefTxn {
    if t in txns then txns[t] else NO_REF
  }

  /** The marks of the committed transactions, as the hash map happens to list them. */
  function Collected(txns: map<TxnId, RefTxn>, listing: seq<TxnId>): seq<Mark> {
    if listing == [] then []
    else
      var t := listing[|listing| - 1];
      var before := Collected(txns, listing[..|listing| - 1]);
      if RefOf(txns, t).committed then before + [Mark(t, RefOf(txns, t).commitOrder)] else before
  }

  function ApplyMarks(txns: map<TxnId, RefTxn>, order: seq<Mark>): Store {
    if order == [] then map[]
    else ApplyOps(ApplyMarks(txns, order[..|order| - 1]), RefOf(txns, order[|order| - 1].txn).ops)
  }

  function Replayed(txns: map<TxnId, RefTxn>, listing: seq<TxnId>): Store {
    ApplyMarks(txns, SortByLsn(Collected(txns, listing)))
  }

  ghost predicate Lists(listing: seq<TxnId>, txns: map<TxnId, RefTxn>) {
    && (forall t :: t in listing <==> t in txns)
    && (forall i, j :: 0 <= i < j < |listing| ==> listing[i] != listing[j])
  }

  class ReferenceModel {
    var txns: map<TxnId, RefTxn>
    var db: Store

    constructor ()
      ensures txns == map[] && db == map[]
    {
      txns, db := map[], map[];
    }

    method BeginTxn(t: TxnId)
      modifies this`txns
      ensures txns == old(txns)[t := NO_REF]
    {
      txns := txns[t := NO_REF];
    }

    method AddOp(t: TxnId, op: Op)
      modifies this`txns
      ensures txns == old(txns)[t := RefOf(old(txns), t).(ops := RefOf(old(txns), t).ops + [op])]
    {
      var x := RefOf(txns, t);
      txns := txns[t := x.(ops := x.ops + [op])];
    }

    method CommitTxn(t: TxnId, order: Lsn)
      modifies this`txns
      ensures txns == old(txns)[t := RefOf(old(txns), t).(committed := true, commitOrder := order)]
    {
      txns := txns[t := RefOf(txns, t).(committed := true, commitOrder := order)];
    }

    method AbortTxn(t: TxnId)
      modifies this`txns
      ensures txns == old(txns)[t := RefOf(old(txns), t).(committed := false)]
    {
      txns := txns[t := RefOf(txns, t).(committed := false)];
    }

    /** Collects the committed transactions, sorts them by commit order and applies them to an empty store. */
    method ReplayCommitted() returns (ghost listing: seq<TxnId>)
      modifies this`db
      ensures Lists(listing, txns) && db == Replayed(txns, listing)
    {
      var order: seq<Mark> := [];
      listing := [];
      var todo := txns.Keys;
      while todo != {}
        invariant todo <= txns.Keys
        invariant forall t :: t in listing <==> t in txns && t !in todo
        invariant forall i, j :: 0 <= i < j < |listing| ==> listing[i] != listing[j]
        invariant order == Collected(txns, listing)
        decreases |todo|
      {
        var t :| t in todo;
        if txns[t].committed {
          order := order + [Mark(t, txns[t].commitOrder)];
        }
        assert (listing + [t])[..|listing|] == listing;
        listing := listing + [t];
        todo := todo - {t};
      }
      order := SortByLsn(order);
      db := map[];
      for i := 0 to |order|
        modifies this`db
        invariant db == ApplyMarks(txns, order[..i])
      {
        var ops := RefOf(txns, order[i].txn).ops;
        var before := db;
        for j := 0 to |ops|
          modifies this`db
          invariant db == ApplyOps(before, ops[..j])
        {
          db := if ops[j].write.Put? then db[ops[j].key := ops[j].write.value] else db - {ops[j].key};
          assert ops[..j + 1][..j] == ops[..j];
        }
        assert ops[..|ops|] == ops;
        assert order[..i + 1][..i] == order[..i];
      }
      assert order[..|order|] == order;
    }

    /** Tells the model one record of a log; it has no call for types it does not know. */
    method Tell(r: Record)
      modifies this`txns
      ensures txns == Told(old(txns), r)
    {
      match r.body
      case Begin => BeginTxn(r.txn);
      case Change(op) => AddOp(r.txn, op);
      case Commit => CommitTxn(r.txn, r.lsn);
      case Abort => AbortTxn(r.txn);
      case Unknown(_) =>
    }

    /**
     * The oracle of the chaos tests: told a log in which nobody logs after its single COMMIT
     * or ABORT, the model replays to the store that recovery makes of the same log.
     */
    method Judge(log: seq<Record>)
      requires txns == map[] && WellFormed(log) && BeginsFirst(log) && CommitLsnsDiffer(log)
      modifies this
      ensures txns == ToldAll(log) && db == ReplayScan(map[], ScanAll(log))
    {
      for i := 0 to |log|
        modifies this`txns
        invariant txns == ToldAll(log[..i])
      {
        Tell(log[i]);
        assert log[..i + 1][..i] == log[..i];
      }
      assert log[..|log|] == log;
      ghost var listing := ReplayCommitted();
      RecoveryMatchesReference(log, listing);
    }
  }

  // ---------------------------------------------------------------- feeding it a log

  function Told(txns: map<TxnId, RefTxn>, r: Record): map<TxnId, RefTxn> {
    var x := RefOf(txns, r.txn);
    match r.body
    case Begin => txns[r.txn := NO_REF]
    case Change(op) => txns[r.txn := x.(ops := x.ops + [op])]
    case Commit => txns[r.txn := x.(committed := true, commitOrder := r.lsn)]
    case Abort => txns[r.txn := x.(committed := false)]
    case Unknown(_) => txns
  }

  function ToldAll(log: seq<Record>): map<TxnId, RefTxn> {
    if log == [] then map[] else Told(ToldAll(log[..|log| - 1]), log[|log| - 1])
  }

  /** A transaction's BEGIN, if there is one, is its first record. */
  predicate BeginsFirst(log: seq<Record>) {
    forall i, j :: 0 <= i < j < |log| && log[i].txn == log[j].txn ==> log[j].body != Begin
  }

  predicate CommitLsnsDiffer(log: seq<Record>) {
    forall i, j :: 0 <= i < j < |log| && log[i].body == Commit && log[j].body == Commit ==> log[i].lsn != log[j].lsn
  }

  lemma {:induction false} ToldOps(log: seq<Record>, t: TxnId)
    requires BeginsFirst(log)
    ensures RefOf(ToldAll(log), t).ops == OpsOf(log, t)
  {
    if log != [] {
      var init := log[..|log| - 1];
      var r := log[|log| - 1];
      assert forall i :: 0 <= i < |init| ==> init[i] == log[i];
      ToldOps(init, t);
      if r.txn == t && r.body == Begin {
        OpsOfStranger(init, t);
      }
    }
  }

  lemma {:induction false} ToldCommitted(log: seq<Record>, t: TxnId)
    requires BeginsFirst(log) && WellFormed(log)
    ensures RefOf(ToldAll(log), t).committed ==>
      exists i :: 0 <= i < |log| && log[i] == Record(RefOf(ToldAll(log), t).commitOrder, t, Commit)
    ensures RefOf(ToldAll(log), t).committed ==> t in ToldAll(log)
  {
    if log != [] {
      var init := log[..|log| - 1];
      assert forall i :: 0 <= i < |init| ==> init[i] == log[i];
      ToldCommitted(init, t);
      assert log[|log| - 1] == log[|log| - 1];
    }
  }

  lemma {:induction false} ToldMark(log: seq<Record>, m: Mark)
    requires BeginsFirst(log) && WellFormed(log) && Record(m.lsn, m.txn, Commit) in log
    ensures RefOf(ToldAll(log), m.txn).committed && RefOf(ToldAll(log), m.txn).commitOrder == m.lsn
    ensures m.txn in ToldAll(log)
  {
    var init := log[..|log| - 1];
    var r := log[|log| - 1];
    assert log == init + [r];
    if r != Record(m.lsn, m.txn, Commit) {
      assert forall i :: 0 <= i < |init| ==> init[i] == log[i];
      ToldMark(init, m);
      var i :| 0 <= i < |init| && init[i] == Record(m.lsn, m.txn, Commit);
      assert r.txn != m.txn;
    }
  }

  // ---------------------------------------------------------------- one sorted order

  lemma CountOne(order: seq<Mark>, m: Mark)
    ensures multiset(order)[m] > 0 <==> m in order
  {
  }

  ghost predicate OneLsnOneMark(order: seq<Mark>) {
    forall a, b :: a in order && b in order && a.lsn == b.lsn ==> a == b
  }

  lemma ButLast(a: seq<Mark>)
    requires a != []
    ensures multiset(a[..|a| - 1]) == multiset(a) - multiset{a[|a| - 1]}
  {
    assert a == a[..|a| - 1] + [a[|a| - 1]];
  }

  lemma ButLastOrdered(a: seq<Mark>)
    requires a != [] && Ascending(a) && OneLsnOneMark(a)
    ensures Ascending(a[..|a| - 1]) && OneLsnOneMark(a[..|a| - 1])
  {
  }

  lemma NothingLeft(b: seq<Mark>)
    requires multiset(b) == multiset{}
    ensures b == []
  {
    assert |b| == |multiset(b)|;
  }

  /** There is only one way to put marks with different LSNs in order. */
  lemma {:induction false} OneOrder(a: seq<Mark>, b: seq<Mark>)
    requires Ascending(a) && Ascending(b) && multiset(a) == multiset(b) && OneLsnOneMark(a)
    ensures a == b
    decreases |a|
  {
    if a == [] {
      NothingLeft(b);
    } else {
      if b == [] {
        NothingLeft(a);
      }
      SameLast(a, b);
      ButLast(a);
      ButLast(b);
      ButLastOrdered(a);
      OneOrder(a[..|a| - 1], b[..|b| - 1]);
      assert a == a[..|a| - 1] + [a[|a| - 1]];
      assert b == b[..|b| - 1] + [b[|b| - 1]];
    }
  }

  lemma SameLast(a: seq<Mark>, b: seq<Mark>)
    requires a != [] && b != [] && Ascending(a) && Ascending(b) && multiset(a) == multiset(b) && OneLsnOneMark(a)
    ensures a[|a| - 1] == b[|b| - 1]
  {
    var x, y := a[|a| - 1], b[|b| - 1];
    CountOne(a, x);
    CountOne(b, x);
    CountOne(a, y);
    CountOne(b, y);
    assert x in a && y in b;
    var i :| 0 <= i < |b| && b[i] == x;
    var j :| 0 <= j < |a| && a[j] == y;
  }

  lemma {:induction false} CollectedMember(txns: map<TxnId, RefTxn>, listing: seq<TxnId>, m: Mark)
    ensures m in Collected(txns, listing) <==>
      m.txn in listing && RefOf(txns, m.txn).committed && RefOf(txns, m.txn).commitOrder == m.lsn
  {
    if listing != [] {
      CollectedMember(txns, listing[..|listing| - 1], m);
      assert listing == listing[..|listing| - 1] + [listing[|listing| - 1]];
    }
  }

  lemma {:induction false} CollectedOnce(txns: map<TxnId, RefTxn>, listing: seq<TxnId>, m: Mark)
    requires forall i, j :: 0 <= i < j < |listing| ==> listing[i] != listing[j]
    ensures multiset(Collected(txns, listing))[m] <= 1
  {
    if listing != [] {
      var init := listing[..|listing| - 1];
      CollectedOnce(txns, init, m);
      CollectedMember(txns, init, m);
    }
  }

  lemma {:induction false} ScannedOnce(log: seq<Record>, m: Mark)
    requires WellFormed(log)
    ensures multiset(ScanAll(log).order)[m] <= 1
  {
    if log != [] {
      var init := log[..|log| - 1];
      assert forall i :: 0 <= i < |init| ==> init[i] == log[i];
      ScannedOnce(init, m);
      if m in ScanAll(init).order {
        NoteElsewhere(log, m);
      }
    }
  }

  lemma SameMembers(log: seq<Record>, listing: seq<TxnId>, m: Mark)
    requires BeginsFirst(log) && WellFormed(log) && Lists(listing, ToldAll(log))
    ensures m in ScanAll(log).order <==> m in Collected(ToldAll(log), listing)
  {
    ScanOrder(log, m);
    CollectedMember(ToldAll(log), listing, m);
    if m in ScanAll(log).order {
      ToldMark(log, m);
    }
    if m in Collected(ToldAll(log), listing) {
      ToldCommitted(log, m.txn);
    }
  }

  lemma SameMarks(log: seq<Record>, listing: seq<TxnId>)
    requires BeginsFirst(log) && WellFormed(log) && Lists(listing, ToldAll(log))
    ensures multiset(ScanAll(log).order) == multiset(Collected(ToldAll(log), listing))
  {
    var a, b := ScanAll(log).order, Collected(ToldAll(log), listing);
    forall m ensures multiset(a)[m] == multiset(b)[m] {
      SameMembers(log, listing, m);
      ScannedOnce(log, m);
      CollectedOnce(ToldAll(log), listing, m);
    }
  }

  lemma ScannedOneMark(log: seq<Record>, marks: seq<Mark>)
    requires CommitLsnsDiffer(log) && multiset(marks) == multiset(ScanAll(log).order)
    ensures OneLsnOneMark(marks)
  {
    forall x, y | x in marks && y in marks && x.lsn == y.lsn ensures x == y {
      CountOne(marks, x);
      CountOne(marks, y);
      CountOne(ScanAll(log).order, x);
      CountOne(ScanAll(log).order, y);
      ScanOrder(log, x);
      ScanOrder(log, y);
    }
  }

  lemma SameOrder(log: seq<Record>, listing: seq<TxnId>)
    requires BeginsFirst(log) && WellFormed(log) && CommitLsnsDiffer(log) && Lists(listing, ToldAll(log))
    ensures SortByLsn(ScanAll(log).order) == SortByLsn(Collected(ToldAll(log), listing))
  {
    var a, b := ScanAll(log).order, Collected(ToldAll(log), listing);
    SameMarks(log, listing);
    var x, y := SortByLsn(a), SortByLsn(b);
    SortSorts(a);
    SortSorts(b);
    ScannedOneMark(log, x);
    OneOrder(x, y);
  }

  lemma {:induction false} SameReplay(txns: map<TxnId, TxnState>, refs: map<TxnId, RefTxn>, order: seq<Mark>)
    requires forall m :: m in order ==>
      StateOf(txns, m.txn).committed && StateOf(txns, m.txn).ops == RefOf(refs, m.txn).ops
    ensures Replay(map[], txns, order) == ApplyMarks(refs, order)
  {
    if order != [] {
      var last := order[|order| - 1];
      assert last in order;
      SameReplay(txns, refs, order[..|order| - 1]);
    }
  }

  /**
   * Recovery agrees with the reference model: for every log in which nobody logs after its
   * single COMMIT or ABORT, grouping and sorted replay give the store that replayCommitted
   * gives for the same history with commit order = LSN, whatever order the hash map lists
   * the transactions in.
   */
  lemma RecoveryMatchesReference(log: seq<Record>, listing: seq<TxnId>)
    requires WellFormed(log) && BeginsFirst(log) && CommitLsnsDiffer(log) && Lists(listing, ToldAll(log))
    ensures ReplayScan(map[], ScanAll(log)) == Replayed(ToldAll(log), listing)
  {
    var sc := ScanAll(log);
    SameOrder(log, listing);
    var order := SortByLsn(sc.order);
    SortSorts(sc.order);
    forall m | m in order
      ensures StateOf(sc.txns, m.txn).committed && StateOf(sc.txns, m.txn).ops == RefOf(ToldAll(log), m.txn).ops
    {
      CountOne(order, m);
      CountOne(sc.order, m);
      ScanOrder(log, m);
      ScanCommitted(log, m.txn);
      ScanOps(log, m.txn);
      ToldOps(log, m.txn);
    }
    SameReplay(sc.txns, ToldAll(log), order);
  }
}
