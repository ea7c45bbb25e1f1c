// Every run of the engine, crashed anywhere, recovers what the reference model computes.
module ReferenceRuns {
  import opened Kv
  import opened Log
  import opened Engine
  import opened EngineLog
  import opened EngineData
  import opened Serial
  import opened Recovery
  import opened Reference
  import opened CrashRecovery
  import opened Runs
  import W = Wal

  predicate Absent(log: seq<Record>, t: TxnId) {
    forall i :: 0 <= i < |log| ==> log[i].txn != t
  }

  /** BEGIN comes first, and a transaction that has not logged it has logged nothing. */
  ghost predicate BeginInv(s: State) {
    && BeginsFirst(W.All(s.wal))
    && (W.All(s.wal) != [] ==> W.All(s.wal)[0].body == Begin)
    && (W.All(s.wal) == [] ==> forall t :: t in s.txns ==> s.txns[t].pc == Starting)
    && forall t :: t in s.txns && s.txns[t].pc == Starting ==> Absent(W.All(s.wal), t)
  }

  lemma BeginAppend(s: State, s': State, t: TxnId, b: Body)
    requires BeginInv(s) && t in s.txns && s'.wal == W.Append(s.wal, t, b)
    requires b == Begin <==> s.txns[t].pc == Starting
    requires forall u :: u in s'.txns && s'.txns[u].pc == Starting ==> u in s.txns && s.txns[u].pc == Starting && u != t
    ensures BeginInv(s')
  {
    W.AppendAll(s.wal, t, b);
    var log := W.All(s.wal);
    assert b == Begin ==> Absent(log, t);
    forall u | u in s'.txns && s'.txns[u].pc == Starting ensures Absent(W.All(s'.wal), u) {
      assert Absent(log, u);
    }
  }

  /** Only BeginTxn puts a transaction at its start. */
  lemma NobodyStarts(s: State, t: TxnId, m: Move)
    requires CanMove(s, t, m)
    ensures forall u :: u in DoMove(s, t, m).txns && DoMove(s, t, m).txns[u].pc == Starting ==>
      u in s.txns && s.txns[u].pc == Starting && u != t
  {
    MoveIsLocal(s, t, m);
    OwnHasStarted(s, t, m);
  }

  lemma OwnHasStarted(s: State, t: TxnId, m: Move)
    requires CanMove(s, t, m)
    ensures t in DoMove(s, t, m).txns ==> DoMove(s, t, m).txns[t].pc != Starting
  {
  }

  lemma BeginMove(s: State, t: TxnId, m: Move)
    requires BeginInv(s) && CanMove(s, t, m)
    ensures BeginInv(DoMove(s, t, m))
  {
    var s' := DoMove(s, t, m);
    NobodyStarts(s, t, m);
    match m
    case LogBegin => BeginAppend(s, s', t, Begin);
    case LogNext => BeginAppend(s, s', t, Change(s.txns[t].pc.todo[0]));
    case LogCommit => BeginAppend(s, s', t, Commit);
    case AbortTxn => BeginAppend(s, s', t, Abort);
    case _ => assert s'.wal == s.wal;
  }

  lemma BeginStep(s: State, a: Action)
    requires LogInv(s) && BeginInv(s) && Enabled(s, a)
    ensures BeginInv(Do(s, a))
  {
    match a
    case BeginTxn(session, level) => BeginNew(s, session, level);
    case By(t, m) => BeginMove(s, t, m);
    case Fetch => W.FetchKeeps(s.wal); BeginStays(s, Do(s, a));
    case WriteRecord => W.WriteOneKeeps(s.wal); BeginStays(s, Do(s, a));
    case PassOn => W.PassKeeps(s.wal); BeginStays(s, Do(s, a));
    case Sync => W.SyncKeeps(s.wal); BeginStays(s, Do(s, a));
    case DraftSnapshot => W.CoverKeeps(s.wal); BeginStays(s, Do(s, a));
    case InstallSnapshot => BeginStays(s, Do(s, a));
    case Truncate => W.CoverKeeps(s.wal); BeginStays(s, Do(s, a));
  }

  lemma BeginStays(s: State, s': State)
    requires BeginInv(s) && s'.txns == s.txns && W.All(s'.wal) == W.All(s.wal)
    ensures BeginInv(s')
  {
  }

  lemma BeginNew(s: State, session: SessionId, level: Isolation)
    requires LogInv(s) && BeginInv(s) && Enabled(s, BeginTxn(session, level))
    ensures BeginInv(Do(s, BeginTxn(session, level)))
  {
  }

  lemma {:induction false} BeginAlways(run: seq<Action>)
    requires Legal(run)
    ensures BeginInv(After(run))
  {
    if run == [] {
      Start();
      assert W.All(W.FRESH) == [];
    } else {
      var init := run[..|run| - 1];
      Last(run);
      BeginAlways(init);
      InvAlways(init);
      BeginStep(After(init), run[|run| - 1]);
    }
  }

  /** Every prefix of a numbered log with orderly transactions is fit for the reference model. */
  lemma PrefixOrderly(log: seq<Record>, n: nat)
    requires Numbered(log) && WellFormed(log) && BeginsFirst(log) && n <= |log|
    ensures Numbered(log[..n]) && WellFormed(log[..n]) && BeginsFirst(log[..n])
    ensures CommitLsnsDiffer(log[..n]) && Increasing(log[..n])
  {
  }

  lemma FoldIsReplayed(log: seq<Record>, listing: seq<TxnId>)
    requires WellFormed(log) && BeginsFirst(log) && CommitLsnsDiffer(log) && Increasing(log)
    requires Lists(listing, ToldAll(log))
    ensures Fold(log) == Replayed(ToldAll(log), listing)
  {
    RecoveryMatchesReference(log, listing);
    ReplayIsFold(map[], log);
    ScanAscending(log);
    SortFixes(ScanAll(log).order);
  }

  /**
   * The chaos tests' oracle. After any run, whatever prefix of the written records a crash
   * leaves, and with checkpoints taken or not: recovery from the disk yields the store that
   * the reference model computes when it is told the records of the whole log that survived
   * or that the snapshot covers, in whatever order its hash map lists the transactions; if a
   * checkpoint has saved leaked keys, at exactly the keys where crash atomicity holds.
   */
  lemma CrashMatchesReference(run: seq<Action>, n: nat, listing: seq<TxnId>)
    requires Legal(run) && Survives(After(run), n)
    requires Lists(listing, ToldAll(Reached(After(run), n)))
    ensures var s := After(run); var reference := Replayed(ToldAll(Reached(s, n)), listing);
      && s.truncated <= n
      && (forall k :: Read(FromDisk(s, n), k) == Read(reference, k) <==> RightAt(s, s.snapshot, n, k))
      && (s.snapshot.leaked == {} ==> FromDisk(s, n) == reference)
  {
    CrashIsAtomic(run, n);
    PrefixIsReplayed(run, Reach(After(run), n), listing);
  }

  /** The reference model's account of any prefix of the written log is that of the serial run. */
  lemma PrefixIsReplayed(run: seq<Action>, m: nat, listing: seq<TxnId>)
    requires Legal(run) && m <= |After(run).wal.written| && Lists(listing, ToldAll(After(run).wal.written[..m]))
    ensures var s := After(run); var c := CommitCount(s.wal.written[..m]);
      c <= |s.history| && RunAll(s.history[..c]) == Replayed(ToldAll(s.wal.written[..m]), listing)
  {
    var s := After(run);
    OrderlyAlways(run, m);
    FoldIsReplayed(s.wal.written[..m], listing);
    assert DataInv(s) by {
      InvAlways(run);
    }
    FoldOfPrefix(s, m);
  }

  lemma OrderlyAlways(run: seq<Action>, m: nat)
    requires Legal(run) && m <= |After(run).wal.written|
    ensures var log := After(run).wal.written[..m];
      WellFormed(log) && BeginsFirst(log) && CommitLsnsDiffer(log) && Increasing(log)
  {
    InvAlways(run);
    BeginAlways(run);
    WrittenPrefix(After(run).wal, 0, m);
    PrefixOrderly(W.All(After(run).wal), m);
  }
}
