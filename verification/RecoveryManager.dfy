// The recovery manager as an object: it loads the snapshot, reads the log record by record
// while grouping, sorts the commits and replays them into the store.
module RecoveryManager {
  import opened Kv
  import opened LittleEndian
  import opened Log
  import opened Codec
  import opened Recovery
  import opened SnapshotFile
  import opened Disk
  import Framing

  class RecoveryManager {
    var store: Store
    var checkpointLsn: Lsn

    constructor (initial: Store)
      ensures store == initial && checkpointLsn == 0
    {
      store, checkpointLsn := initial, 0;
    }

    method LoadSnapshot(data: Option<Bytes>)
      modifies this
      ensures (store, checkpointLsn) == Loaded(data, old(store), old(checkpointLsn))
    {
      if data.None? || !HeaderOk(data.value) {
        return;
      }
      var b := data.value;
      checkpointLsn := Decode(b[8..16]);
      var count, at, i := Decode(b[16..24]), 24, 0;
      while i < count
        modifies this`store
        invariant i <= count
        invariant LoadEntries(b, at, count - i, store) == LoadEntries(b, 24, count, old(store))
      {
        var e := ReadEntry(b, at);
        if e.None? {
          return;
        }
        store := store[e.value.0.key := e.value.0.value];
        at, i := e.value.1, i + 1;
      }
    }

    method Apply(ops: seq<Op>)
      modifies this`store
      ensures store == ApplyOps(old(store), ops)
    {
      for i := 0 to |ops|
        modifies this`store
        invariant store == ApplyOps(old(store), ops[..i])
      {
        store := if ops[i].write.Put? then store[ops[i].key := ops[i].write.value] else store - {ops[i].key};
        assert ops[..i + 1][..i] == ops[..i];
      }
      assert ops[..|ops|] == ops;
    }

    /** Step 3: the committed transactions in LSN order. */
    method ReplayAll(txns: map<TxnId, TxnState>, order: seq<Mark>)
      modifies this`store
      ensures store == ReplayScan(old(store), Scan(txns, order))
    {
      var sorted := SortByLsn(order);
      for i := 0 to |sorted|
        modifies this`store
        invariant store == Replay(old(store), txns, sorted[..i])
      {
        var x := StateOf(txns, sorted[i].txn);
        if x.committed {
          Apply(x.ops);
        }
        assert sorted[..i + 1][..i] == sorted[..i];
      }
      assert sorted[..|sorted|] == sorted;
    }

    static method NoteRecord(txns: map<TxnId, TxnState>, order: seq<Mark>, r: Record)
      returns (txns': map<TxnId, TxnState>, order': seq<Mark>)
      ensures Scan(txns', order') == Note(Scan(txns, order), r)
    {
      txns', order' := txns, order;
      var x := StateOf(txns, r.txn);
      match r.body
      case Change(op) => txns' := txns[r.txn := x.(ops := x.ops + [op])];
      case Commit =>
        txns' := txns[r.txn := x.(committed := true, commitLsn := r.lsn)];
        order' := order + [Mark(r.txn, r.lsn)];
      case Abort => txns' := txns[r.txn := x.(committed := false)];
      case _ => txns' := txns[r.txn := x];
    }

    /** Step 2: reads records until the first that is missing, torn or fails its checksum. */
    method ScanLog(read: Bytes -> Option<(Record, nat)>, log: Bytes)
      returns (txns: map<TxnId, TxnState>, order: seq<Mark>)
      requires Progresses(read)
      ensures Scan(txns, order) == ScanAll(Above(Framing.Parse(read, log), checkpointLsn))
    {
      txns, order := map[], [];
      var rest := log;
      ghost var seen: seq<Record> := [];
      var next := read(rest);
      while next.Some?
        invariant next == read(rest)
        invariant SoFar(read, log, seen, rest, Scan(txns, order), checkpointLsn)
        decreases |rest|
      {
        var (r, n) := next.value;
        Turn(read, log, seen, rest, Scan(txns, order), checkpointLsn);
        seen := seen + [r];
        if r.lsn > checkpointLsn {
          txns, order := NoteRecord(txns, order, r);
        }
        rest := rest[n..];
        next := read(rest);
      }
      LastTurn(read, log, seen, rest, Scan(txns, order), checkpointLsn);
    }

    method Recover(seal: Seal, data: Option<Bytes>, wal: Option<Bytes>)
      modifies this
      ensures store == RecoverFiles(seal, data, wal, old(store), old(checkpointLsn))
    {
      LoadSnapshot(data);
      if wal.None? {
        return;
      }
      var read := (b: Bytes) => ReadRecord(seal, b);
      ReadProgresses(seal);
      var txns, order := ScanLog(read, wal.value);
      ReplayAll(txns, order);
    }
  }

  /** An accepted record takes up some of the bytes. */
  ghost predicate Progresses(read: Bytes -> Option<(Record, nat)>) {
    forall b :: read(b).Some? ==> 0 < read(b).value.1 <= |b|
  }

  lemma ReadProgresses(seal: Seal)
    ensures Progresses((b: Bytes) => ReadRecord(seal, b))
  {
    forall b: Bytes | ReadRecord(seal, b).Some? ensures 0 < ReadRecord(seal, b).value.1 <= |b| {
      var (r, n) := ReadRecord(seal, b).value;
      ReadRecordBack(seal, b, r, n);
    }
  }

  /** The scan covers the records seen, and the rest of the bytes hold the rest of the records. */
  ghost predicate SoFar(read: Bytes -> Option<(Record, nat)>, log: Bytes, seen: seq<Record>, rest: Bytes,
                        sc: Scan, lsn: Lsn) {
    Framing.Parse(read, log) == seen + Framing.Parse(read, rest) && sc == ScanAll(Above(seen, lsn))
  }

  lemma SeenNext(seen: seq<Record>, r: Record, lsn: Lsn)
    ensures ScanAll(Above(seen + [r], lsn))
         == if r.lsn > lsn then Note(ScanAll(Above(seen, lsn)), r) else ScanAll(Above(seen, lsn))
  {
    assert (seen + [r])[..|seen|] == seen;
    var before := Above(seen, lsn);
    assert (before + [r])[..|before|] == before;
  }

  lemma Turn(read: Bytes -> Option<(Record, nat)>, log: Bytes, seen: seq<Record>, rest: Bytes, sc: Scan, lsn: Lsn)
    requires SoFar(read, log, seen, rest, sc, lsn) && Progresses(read) && read(rest).Some?
    ensures var (r, n) := read(rest).value;
      0 < n <= |rest| && SoFar(read, log, seen + [r], rest[n..], if r.lsn > lsn then Note(sc, r) else sc, lsn)
  {
    var (r, n) := read(rest).value;
    SeenNext(seen, r, lsn);
    TurnParses(read, seen, rest, r, n);
  }

  lemma TurnParses(read: Bytes -> Option<(Record, nat)>, seen: seq<Record>, rest: Bytes, r: Record, n: nat)
    requires read(rest) == Some((r, n)) && 0 < n <= |rest|
    ensures seen + Framing.Parse(read, rest) == seen + [r] + Framing.Parse(read, rest[n..])
  {
    assert Framing.Parse(read, rest) == [r] + Framing.Parse(read, rest[n..]);
  }

  lemma LastTurn(read: Bytes -> Option<(Record, nat)>, log: Bytes, seen: seq<Record>, rest: Bytes, sc: Scan, lsn: Lsn)
    requires SoFar(read, log, seen, rest, sc, lsn) && read(rest) == None
    ensures sc == ScanAll(Above(Framing.Parse(read, log), lsn))
  {
    assert seen + [] == seen;
  }
}
