// Two ways in which the server's handling of its files undoes what recovery could do: the two
// paths exchanged at start-up, and the truncation loop. Each with its exact condition over
// runs, and with a run in which an acknowledged and synced commit is gone.
module FileFaults {
  import opened Kv
  import opened LittleEndian
  import opened Log
  import opened Serial
  import opened Engine
  import opened CrashRecovery
  import opened Recovery
  import opened LogFacts
  import opened Codec
  import opened RecordCrc
  import opened Disk
  import opened RunSteps
  import opened Literals
  import opened Scenarios
  import ReferenceRuns
  import Runs
  import SnapshotFile
  import Truncation
  import W = Wal

  // ---------------------------------------------------------------- the two paths exchanged

  /** The log's bytes, cut anywhere, look like a snapshot exactly if the first checksum is the magic number. */
  predicate LooksLikeSnapshot(seal: Seal, s: State, cut: nat) {
    cut >= 24 && s.wal.written != [] && Decode(seal(BodyBytes(s.wal.written[0]))) == SnapshotFile.MAGIC
  }

  lemma HeaderOfLog(seal: Seal, s: State, cut: nat)
    requires cut <= |LogFile(seal, s, 0, |s.wal.written|)|
    ensures SnapshotFile.HeaderOk(LogFile(seal, s, 0, |s.wal.written|)[..cut]) <==> LooksLikeSnapshot(seal, s, cut)
  {
    var log := s.wal.written[0..|s.wal.written|];
    assert log == s.wal.written;
    Truncation.OnlyEmptyLogHasNoBytes(seal, log);
    if log != [] {
      FirstSeal(seal, log);
      var file := LogBytes(seal, log)[..cut];
      if cut >= 24 {
        assert file[..4] == LogBytes(seal, log)[..4];
      }
    }
  }

  lemma FirstSeal(seal: Seal, log: seq<Record>)
    requires log != []
    ensures |LogBytes(seal, log)| >= 4 && LogBytes(seal, log)[..4] == seal(BodyBytes(log[0]))
  {
    assert log == [log[0]] + log[1..];
    Truncation.LogBytesConcat(seal, [log[0]], log[1..]);
    Truncation.OneRecordLog(seal, log[0]);
  }

  /**
   * At start-up the server hands recovery the log's path as the data file and the data file's
   * path as the log. Before the first checkpoint there is no data file. Then, in every run and
   * for every cut of the log, unless the log looks like a snapshot, recovery comes out right
   * exactly if there was nothing to recover.
   */
  lemma SwappedFilesIff(seal: Seal, run: seq<Action>, s: State, cut: nat) returns (n: nat)
    requires Legal(run) && s == After(run) && s.snapshot == NO_SNAPSHOT && s.truncated == 0
    requires FitsFormat(s, []) && s.wal.durable <= |s.wal.written|
    requires |LogFile(seal, s, 0, s.wal.durable)| <= cut <= |LogFile(seal, s, 0, |s.wal.written|)|
    requires !LooksLikeSnapshot(seal, s, cut)
    ensures CutsAt(seal, s, cut, n)
    ensures var file := LogFile(seal, s, 0, |s.wal.written|)[..cut];
      var right := RecoverFiles(seal, None, Some(file), map[], 0);
      && BringsBack(s, n, right)
      && (RecoverFiles(seal, Some(file), None, map[], 0) == right <==> right == map[])
  {
    HeaderOfLog(seal, s, cut);
    n := RecoveryFromBytes(seal, run, s, None, [], cut);
  }

  // ---------------------------------------------------------------- the truncation loop

  /** Every log starts with a BEGIN record. */
  lemma LogStartsWithBegin(run: seq<Action>)
    requires Legal(run) && After(run).wal.written != []
    ensures After(run).wal.written[0].body == Begin
  {
    ReferenceRuns.BeginAlways(run);
    assert W.All(After(run).wal)[0] == After(run).wal.written[0];
  }

  /**
   * The first truncation of a log, in any run: unless the file is long enough for the
   * checksum of its second record to pass for a length, everything is dropped, which is
   * right exactly if the checkpoint covers everything in the file.
   */
  lemma FirstTruncationIff(seal: Seal, run: seq<Action>, s: State, checkpoint: Lsn)
    requires Legal(run) && s == After(run) && s.truncated == 0 && 0 < s.wal.passed <= |s.wal.written|
    requires Fits(s.wal.written[0])
    requires Truncation.StopsAt(seal, s.wal.written[0], s.wal.written[1..s.wal.passed])
    ensures var file := LogFile(seal, s, 0, s.wal.passed);
      && Truncation.Kept(file, checkpoint) == []
      && (Truncation.Kept(file, checkpoint) == LogBytes(seal, Above(s.wal.written[0..s.wal.passed], checkpoint)) <==>
          s.wal.passed <= checkpoint)
  {
    LogStartsWithBegin(run);
    Runs.InvAlways(run);
    var log := s.wal.written[0..s.wal.passed];
    var r, more := s.wal.written[0], s.wal.written[1..s.wal.passed];
    assert log == [] + ([r] + more);
    Truncation.TruncationStopsIff(seal, [], r, more, checkpoint);
    Truncation.OneRecordLog(seal, r);
    assert [r] + more == log;
    NoneAbove(s.wal, checkpoint);
  }

  lemma NoneAbove(w: W.Wal, checkpoint: Lsn)
    requires W.WalOk(w) && 0 < w.passed
    ensures Above(w.written[0..w.passed], checkpoint) == [] <==> w.passed <= checkpoint
  {
    var log := w.written[0..w.passed];
    forall i | 0 <= i < |log| ensures log[i].lsn == i + 1 {
      assert log[i] == W.All(w)[i];
    }
    if w.passed <= checkpoint {
      AboveNothing(log, checkpoint);
    } else {
      AboveKeepsOrder(log, checkpoint, log[|log| - 1]);
    }
  }

  // ---------------------------------------------------------------- the first checksums of a log

  lemma DecodeFront(b: Bytes)
    requires b != []
    ensures Decode(b) == OfByte(b[0]) + 256 * Decode(b[1..])
  {
  }

  lemma LowPart(low: nat, high: nat)
    requires low < 256
    ensures (low + 256 * high) % 256 == low
  {
  }

  lemma DecodeTwo(x: bv8, y: bv8)
    ensures Decode([x, y]) == OfByte(x) + 256 * OfByte(y)
  {
    DecodeFront([x, y]);
    DecodeFront([y]);
    assert [x, y][1..] == [y] && [y][1..] == [];
  }

  /** The low byte of the snapshot magic is another. */
  lemma NoMagic(c: bv32)
    requires c == 0x98858621
    ensures Decode(CrcBytes(c)) != SnapshotFile.MAGIC
  {
    var b, first: bv8 := CrcBytes(c), 0x21;
    assert b[0] == first;
    DecodeFront(b);
    LowPart(OfByte(first), Decode(b[1..]));
    assert OfByte(first) == 33;
  }

  lemma BeginIsNoMagic(r: Record, c: bv32)
    requires r == LOG1[0] && c == 0x98858621
    ensures Decode(CRC(BodyBytes(r))) != SnapshotFile.MAGIC
  {
    BeginSeal();
    NoMagic(c);
  }

  lemma LowBytes(c: bv32)
    requires c == 0xE07728B9
    ensures CrcBytes(c)[..2] == [0xB9, 0x28]
  {
  }

  lemma PutIsMisread()
    ensures Truncation.Misread(CRC, LOG1[1]) == 10425
  {
    PutSeal();
    LowBytes(0xE07728B9);
    MisreadIs(LOG1[1], 0xB9, 0x28);
  }

  lemma MisreadIs(r: Record, x: bv8, y: bv8)
    requires CRC(BodyBytes(r))[..2] == [x, y] && x == 0xB9 && y == 0x28
    ensures Truncation.Misread(CRC, r) == 10425
  {
    DecodeTwo(x, y);
    assert OfByte(x) == 185;
    assert OfByte(y) == 40;
  }

  // ---------------------------------------------------------------- runs that lose a commit

  /** One transaction has written A, and its commit is synced and acknowledged. */
  ghost predicate CommittedA(s: State, checkpoint: Checkpoint) {
    && s.wal == W.Wal(4, 3, [], false, [], LOG1, 3, 3) && s.acked == {3}
    && s.snapshot == NO_SNAPSHOT && s.truncated == 0 && s.checkpoint == checkpoint
    && s.history == [Done(1, 3, RepeatableRead, [Wrote(Put1())])]
  }

  lemma SerialA(s: State, checkpoint: Checkpoint)
    requires CommittedA(s, checkpoint)
    ensures RunAll(s.history) == map[A := ONE] && s.history[..1] == s.history
  {
    var d := s.history[0];
    assert s.history[..0] == [] && d.trace[..0] == [];
    assert Run(map[], d.trace) == map[A := ONE];
  }

  /** Nothing truncated, everything synced, one commit in the log, and this is its result. */
  ghost predicate OneCommit(s: State, serial: Store) {
    && s.wal.durable == |s.wal.written| && s.snapshot == NO_SNAPSHOT && s.truncated == 0
    && AllFit(s.wal.written) && CommitCount(s.wal.written) == 1
    && |s.history| == 1 && RunAll(s.history[..1]) == serial && s.history[0].lsn in s.acked
  }

  lemma CommittedIsOneCommit(s: State, checkpoint: Checkpoint)
    requires CommittedA(s, checkpoint)
    ensures OneCommit(s, map[A := ONE])
  {
    assert AllFit(LOG1);
    CountA();
    SerialA(s, checkpoint);
  }

  /** A synced and acknowledged commit, found with the right paths, and nothing with the exchanged ones. */
  ghost predicate LostBySwap(seal: Seal, s: State, serial: Store) {
    && OneCommit(s, serial) && serial != map[]
    && var file := LogFile(seal, s, 0, |s.wal.written|);
    && RecoverFiles(seal, None, Some(file), map[], 0) == serial
    && RecoverFiles(seal, Some(file), None, map[], 0) == map[]
  }

  lemma WholeFileRecovers(seal: Seal, run: seq<Action>, s: State, serial: Store, data: Option<Bytes>,
                          entries: seq<SnapshotFile.Entry>)
    requires Legal(run) && s == After(run) && OneCommit(s, serial)
    requires DataFileShows(s, data, entries) && FitsFormat(s, entries)
    ensures RecoverFiles(seal, data, Some(LogFile(seal, s, 0, |s.wal.written|)), map[], 0) == serial
  {
    var n := |s.wal.written|;
    RecoveryFromFile(seal, run, s, data, entries, n);
    AllComesBack(s, serial, RecoverFiles(seal, data, Some(LogFile(seal, s, 0, n)), map[], 0));
  }

  lemma AllComesBack(s: State, serial: Store, store: Store)
    requires OneCommit(s, serial) && BringsBack(s, |s.wal.written|, store)
    ensures store == serial
  {
    assert s.wal.written[..|s.wal.written|] == s.wal.written;
  }

  lemma SwapLoses(seal: Seal, run: seq<Action>, s: State, serial: Store)
    requires Legal(run) && s == After(run) && OneCommit(s, serial) && serial != map[]
    requires s.wal.written != [] && Decode(seal(BodyBytes(s.wal.written[0]))) != SnapshotFile.MAGIC
    ensures LostBySwap(seal, s, serial)
  {
    var file := LogFile(seal, s, 0, |s.wal.written|);
    assert file[..|file|] == file;
    HeaderOfLog(seal, s, |file|);
    WholeFileRecovers(seal, run, s, serial, None, []);
  }

  lemma ReachOne(before: seq<Action>, checkpoint: Checkpoint) returns (run: seq<Action>, s: State, serial: Store)
    requires Legal(before) && After(before) == Quiet(checkpoint)
    ensures Legal(run) && s == After(run) && CommittedA(s, checkpoint) && OneCommit(s, serial) && serial != map[]
  {
    run := CommitA(before, checkpoint);
    WalAlwaysOk(run);
    run := FlushAll(run);
    assert After(run).wal.written == LOG1;
    run := Go(run, By(1, Acknowledge));
    s, serial := After(run), map[A := ONE];
    assert A in serial;
    CommittedIsOneCommit(s, checkpoint);
  }

  /**
   * A run in which the server never took a checkpoint, a commit is synced and acknowledged,
   * and recovery with the exchanged paths finds nothing.
   */
  lemma SwappedFilesLoseACommit() returns (run: seq<Action>, s: State, serial: Store)
    ensures Legal(run) && s == After(run) && LostBySwap(CRC, s, serial)
  {
    Start();
    run, s, serial := ReachOne([], NoCheckpoint);
    BeginIsNoMagic(s.wal.written[0], 0x98858621);
    SwapLoses(CRC, run, s, serial);
  }

  lemma ShortLog(seal: Seal, log: seq<Record>)
    requires log == LOG1
    ensures |LogBytes(seal, log[1..3])| == 40
  {
    var a, b := log[1], log[2];
    assert log[1..3] == [a] + [b];
    Truncation.LogBytesConcat(seal, [a], [b]);
    Truncation.OneRecordLog(seal, a);
    Truncation.OneRecordLog(seal, b);
    PutPayload();
    BodyParts(b, BodyBytes(b));
  }

  lemma StopsAtPut(seal: Seal, log: seq<Record>)
    requires log == LOG1 && Truncation.Misread(seal, log[1]) == 10425
    ensures Truncation.StopsAt(seal, log[0], log[1..3])
  {
    ShortLog(seal, log);
  }

  lemma NothingFromEmpty(seal: Seal, lsn: Lsn, entries: seq<SnapshotFile.Entry>)
    requires lsn == 0 && entries == []
    ensures RecoverFiles(seal, Some(SnapshotFile.FileBytes(entries, lsn)), Some([]), map[], 0) == map[]
  {
    SnapshotFile.SnapshotRoundTrip(map[], entries, lsn, 0);
    assert ParseLog(seal, []) == [];
  }

  /** A synced and acknowledged commit, found before the truncation, and gone after it. */
  ghost predicate LostByTruncation(seal: Seal, s: State, data: Bytes, serial: Store) {
    && OneCommit(s, serial) && serial != map[] && s.checkpoint.Installed?
    && var file := LogFile(seal, s, 0, |s.wal.written|);
    && RecoverFiles(seal, Some(data), Some(file), map[], 0) == serial
    && RecoverFiles(seal, Some(data), Some(Truncation.Kept(file, s.checkpoint.lsn)), map[], 0) == map[]
  }

  lemma TruncationLoses(seal: Seal, run: seq<Action>, s: State, serial: Store) returns (data: Bytes)
    requires Legal(run) && s == After(run) && OneCommit(s, serial) && serial != map[] && s.checkpoint.Installed?
    requires s.wal.passed == |s.wal.written| > 0
    requires Truncation.StopsAt(seal, s.wal.written[0], s.wal.written[1..|s.wal.written|])
    ensures LostByTruncation(seal, s, data, serial)
  {
    var entries: seq<SnapshotFile.Entry> := [];
    data := SnapshotFile.FileBytes(entries, s.snapshot.lsn);
    WholeFileRecovers(seal, run, s, serial, Some(data), entries);
    FirstTruncationIff(seal, run, s, s.checkpoint.lsn);
    NothingFromEmpty(seal, s.snapshot.lsn, entries);
  }

  lemma StopsOfA(log: seq<Record>)
    requires log == LOG1
    ensures Truncation.StopsAt(CRC, log[0], log[1..|log|])
  {
    PutIsMisread();
    StopsAtPut(CRC, log);
  }

  /**
   * A run in which a checkpoint of the empty store is under way, a commit is synced and
   * acknowledged, and the truncation then empties the log file although the checkpoint
   * covers none of it.
   */
  lemma TruncationLosesACommit() returns (run: seq<Action>, s: State, data: Bytes, serial: Store)
    ensures Legal(run) && s == After(run) && s.checkpoint == Installed(0) && LostByTruncation(CRC, s, data, serial)
  {
    Start();
    run := Go([], DraftSnapshot);
    run := Go(run, InstallSnapshot);
    run, s, serial := ReachOne(run, Installed(0));
    StopsOfA(s.wal.written);
    data := TruncationLoses(CRC, run, s, serial);
  }
}
