// From the bytes on disk back to a store: what recovery makes of the two files, for every
// run of the engine and every byte at which a crash may cut the log.
module Disk {
  import opened Kv
  import opened Log
  import opened Engine
  import opened CrashRecovery
  import opened Recovery
  import opened Runs
  import opened Codec
  import SnapshotFile

  /** The store and checkpoint LSN after the snapshot step; a missing file changes nothing. */
  function Loaded(data: Option<Bytes>, store: Store, lsn: Lsn): (Store, Lsn) {
    if data.None? then (store, lsn) else SnapshotFile.Load(data.value, store, lsn)
  }

  /** The store after recovery from a data file and a log file, either of which may be missing. */
  function RecoverFiles(seal: Seal, data: Option<Bytes>, wal: Option<Bytes>, store: Store, lsn: Lsn): Store {
    var (base, checkpoint) := Loaded(data, store, lsn);
    if wal.None? then base else Recovered(base, checkpoint, ParseLog(seal, wal.value))
  }

  /** Every key, value and counter fits its field. */
  ghost predicate FitsFormat(s: State, entries: seq<SnapshotFile.Entry>) {
    && AllFit(s.wal.written)
    && s.snapshot.lsn < 0x1_0000_0000_0000_0000 && |entries| < 0x1_0000_0000_0000_0000
    && (forall i :: 0 <= i < |entries| ==> SnapshotFile.EntryFits(entries[i]))
  }

  /** The data file shows the engine's snapshot; before the first checkpoint there is none. */
  ghost predicate DataFileShows(s: State, data: Option<Bytes>, entries: seq<SnapshotFile.Entry>) {
    || (data == None && s.snapshot == NO_SNAPSHOT)
    || (data == Some(SnapshotFile.FileBytes(entries, s.snapshot.lsn)) && SnapshotFile.Lists(entries, s.snapshot.store))
  }

  /** The bytes of the written records from `from` up to `to`. */
  function LogFile(seal: Seal, s: State, from: nat, to: nat): Bytes
    requires from <= to <= |s.wal.written|
  {
    LogBytes(seal, s.wal.written[from..to])
  }

  lemma DataFileLoads(s: State, data: Option<Bytes>, entries: seq<SnapshotFile.Entry>)
    requires DataFileShows(s, data, entries) && FitsFormat(s, entries)
    ensures Loaded(data, map[], 0) == (s.snapshot.store, s.snapshot.lsn)
  {
    if data.Some? {
      SnapshotFile.SnapshotRoundTrip(s.snapshot.store, entries, s.snapshot.lsn, 0);
    }
  }

  lemma PartFits(log: seq<Record>, from: nat)
    requires AllFit(log) && from <= |log|
    ensures AllFit(log[from..])
  {
    forall i | 0 <= i < |log[from..]| ensures Fits(log[from..][i]) {
      assert Fits(log[from + i]);
    }
  }

  /** `n` is how many of the written records are complete before the cut. */
  ghost predicate CutsAt(seal: Seal, s: State, cut: nat, n: nat) {
    && s.truncated <= n <= |s.wal.written|
    && |LogFile(seal, s, s.truncated, n)| <= cut
    && forall m :: n < m <= |s.wal.written| ==> cut < |LogFile(seal, s, s.truncated, m)|
  }

  /** The bounds within which a crash may cut the log file hold in every run. */
  lemma DiskBounds(run: seq<Action>)
    requires Legal(run)
    ensures After(run).truncated <= After(run).wal.durable <= |After(run).wal.written|
  {
    InvAlways(run);
  }

  lemma SliceOfTail<T>(all: seq<T>, from: nat, to: nat)
    requires from <= to <= |all|
    ensures all[from..|all|] == all[from..] && all[from..][..to - from] == all[from..to]
  {
  }

  lemma CutFound(seal: Seal, s: State, cut: nat) returns (n: nat)
    requires s.truncated <= |s.wal.written| && AllFit(s.wal.written)
    requires cut <= |LogFile(seal, s, s.truncated, |s.wal.written|)|
    ensures CutsAt(seal, s, cut, n)
    ensures ParseLog(seal, LogFile(seal, s, s.truncated, |s.wal.written|)[..cut]) == s.wal.written[s.truncated..n]
  {
    var from, all := s.truncated, s.wal.written;
    PartFits(all, from);
    SliceOfTail(all, from, |all|);
    var k := ParseCutLog(seal, all[from..], cut);
    n := from + k;
    SliceOfTail(all, from, n);
    forall m | n < m <= |all| ensures cut < |LogFile(seal, s, from, m)| {
      SliceOfTail(all, from, m);
    }
  }

  lemma CutSurvives(seal: Seal, s: State, cut: nat, n: nat)
    requires CutsAt(seal, s, cut, n) && s.truncated <= s.wal.durable <= |s.wal.written|
    requires |LogFile(seal, s, s.truncated, s.wal.durable)| <= cut
    ensures Survives(s, n)
  {
  }

  /** What the files hold decides what comes back. */
  lemma FilesAreDisk(seal: Seal, s: State, data: Option<Bytes>, entries: seq<SnapshotFile.Entry>, file: Bytes, n: nat)
    requires DataFileShows(s, data, entries) && FitsFormat(s, entries) && s.truncated <= n <= |s.wal.written|
    requires ParseLog(seal, file) == s.wal.written[s.truncated..n]
    ensures RecoverFiles(seal, data, Some(file), map[], 0) == FromDisk(s, n)
  {
    DataFileLoads(s, data, entries);
  }

  /**
   * Recovery, end to end. Take any run, the bytes of its data file and log file, and any
   * byte at which a crash cuts the log file without touching what has been synced. Then the
   * two files recover to the serial result of exactly the transactions whose COMMIT record
   * is complete before the cut, or is covered by the snapshot.
   */
  lemma RecoveryFromBytes(seal: Seal, run: seq<Action>, s: State, data: Option<Bytes>,
                          entries: seq<SnapshotFile.Entry>, cut: nat) returns (n: nat)
    requires Legal(run) && s == After(run)
    requires DataFileShows(s, data, entries) && FitsFormat(s, entries)
    requires s.truncated <= s.wal.durable <= |s.wal.written|
    requires |LogFile(seal, s, s.truncated, s.wal.durable)| <= cut <= |LogFile(seal, s, s.truncated, |s.wal.written|)|
    ensures CutsAt(seal, s, cut, n)
    ensures var file := LogFile(seal, s, s.truncated, |s.wal.written|)[..cut];
      BringsBack(s, n, RecoverFiles(seal, data, Some(file), map[], 0))
  {
    n := CutFound(seal, s, cut);
    FilesAreDisk(seal, s, data, entries, LogFile(seal, s, s.truncated, |s.wal.written|)[..cut], n);
    CutSurvives(seal, s, cut, n);
    CrashIsAtomic(run, n);
  }

  lemma ParseWholeLog(seal: Seal, log: seq<Record>)
    requires AllFit(log)
    ensures ParseLog(seal, LogBytes(seal, log)) == log
  {
    var b := LogBytes(seal, log);
    var n := ParseCutLog(seal, log, |b|);
    assert b[..|b|] == b && log[..|log|] == log;
  }

  lemma FileParses(seal: Seal, s: State, n: nat)
    requires s.truncated <= n <= |s.wal.written| && AllFit(s.wal.written)
    ensures ParseLog(seal, LogFile(seal, s, s.truncated, n)) == s.wal.written[s.truncated..n]
  {
    var part := s.wal.written[s.truncated..n];
    forall i | 0 <= i < |part| ensures Fits(part[i]) {
      assert part[i] == s.wal.written[s.truncated + i];
    }
    ParseWholeLog(seal, part);
  }

  /** Recovery of any run from a log file that holds its first `n` written records whole. */
  lemma RecoveryFromFile(seal: Seal, run: seq<Action>, s: State, data: Option<Bytes>,
                         entries: seq<SnapshotFile.Entry>, n: nat)
    requires Legal(run) && s == After(run) && s.truncated <= n && Survives(s, n)
    requires DataFileShows(s, data, entries) && FitsFormat(s, entries)
    ensures BringsBack(s, n, RecoverFiles(seal, data, Some(LogFile(seal, s, s.truncated, n)), map[], 0))
  {
    FileParses(seal, s, n);
    FilesAreDisk(seal, s, data, entries, LogFile(seal, s, s.truncated, n), n);
    CrashIsAtomic(run, n);
  }
}
