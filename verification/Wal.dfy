// The log manager and its flusher as a value: LSNs are handed out under one mutex, and a
// single flusher takes the buffer, writes it record by record, and syncs.
module Wal {
  import opened Kv
  import opened Log

  datatype Wal = Wal(
    nextLsn: Lsn,             // next_lsn_
    flushed: Lsn,             // flushed_lsn_
    buffer: seq<Record>,      // buffer_
    flushing: bool,           // the flusher is between taking a batch and syncing it
    hands: seq<Record>,       // what the flusher has taken and not yet written
    written: seq<Record>,     // everything handed to the log stream so far
    passed: nat,              // how many of those records the stream has passed on to the file
    durable: nat)             // how many of those a sync has covered

  const FRESH := Wal(1, 0, [], false, [], [], 0, 0)

  /** Every record that has been given an LSN, in the order it was given. */
  function All(w: Wal): seq<Record> {
    w.written + w.hands + w.buffer
  }

  function Raise(mark: Lsn, lsn: Lsn): Lsn {
    if lsn > mark then lsn else mark
  }

  // ---------------------------------------------------------------- steps

  function Append(w: Wal, t: TxnId, b: Body): Wal {
    w.(nextLsn := w.nextLsn + 1, buffer := w.buffer + [Record(w.nextLsn, t, b)])
  }

  function Fetch(w: Wal): Wal {
    if w.buffer == [] then w else w.(buffer := [], hands := w.buffer, flushing := true)
  }

  /** The stream gets one record, and the mark is raised at once, before any sync. */
  function WriteOne(w: Wal): Wal
    requires w.hands != []
  {
    w.(written := w.written + [w.hands[0]], hands := w.hands[1..], flushed := Raise(w.flushed, w.hands[0].lsn))
  }

  /** The stream is flushed to the file. */
  function Pass(w: Wal): Wal {
    w.(passed := |w.written|)
  }

  /** A sync of the file, by whomever: it covers what the stream has passed on. */
  function Cover(w: Wal): Wal {
    w.(durable := w.passed)
  }

  /** The flusher's own sync ends its batch. */
  function Sync(w: Wal): Wal {
    Cover(w).(flushing := false)
  }

  // ---------------------------------------------------------------- what every step keeps

  ghost predicate WalOk(w: Wal) {
    && w.nextLsn == |All(w)| + 1
    && Numbered(All(w))
    && w.flushed == |w.written|
    && w.durable <= w.passed <= |w.written|
    && (!w.flushing ==> w.hands == [] && w.durable == |w.written|)
  }

  lemma AppendAll(w: Wal, t: TxnId, b: Body)
    ensures All(Append(w, t, b)) == All(w) + [Record(w.nextLsn, t, b)]
  {
  }

  lemma AppendKeeps(w: Wal, t: TxnId, b: Body)
    requires WalOk(w)
    ensures WalOk(Append(w, t, b))
  {
    AppendAll(w, t, b);
  }

  lemma FetchKeeps(w: Wal)
    requires WalOk(w) && !w.flushing
    ensures WalOk(Fetch(w)) && All(Fetch(w)) == All(w)
  {
    assert All(Fetch(w)) == All(w);
  }

  lemma WriteOneKeeps(w: Wal)
    requires WalOk(w) && w.hands != []
    ensures WalOk(WriteOne(w)) && All(WriteOne(w)) == All(w)
  {
    var after := WriteOne(w);
    assert All(after) == All(w) by {
      assert w.hands == [w.hands[0]] + w.hands[1..];
    }
    assert w.hands[0] == All(w)[|w.written|];
  }

  lemma PassKeeps(w: Wal)
    requires WalOk(w)
    ensures WalOk(Pass(w)) && All(Pass(w)) == All(w)
  {
    assert All(Pass(w)) == All(w);
  }

  lemma CoverKeeps(w: Wal)
    requires WalOk(w)
    ensures WalOk(Cover(w)) && All(Cover(w)) == All(w)
  {
    assert All(Cover(w)) == All(w);
  }

  lemma SyncKeeps(w: Wal)
    requires WalOk(w) && w.hands == [] && w.passed == |w.written|
    ensures WalOk(Sync(w)) && All(Sync(w)) == All(w)
  {
    assert All(Sync(w)) == All(w);
  }
}
