// What follows when a READ_COMMITTED GET gives up the write lock of its own transaction: from
// every such state the store and the log can be led apart, until the key is committed again,
// and a checkpoint taken meanwhile saves the wrong value.
module LostLock {
  import opened Kv
  import opened KeyOrder
  import opened LockTable
  import opened Log
  import opened Serial
  import opened Engine
  import opened EngineLocks
  import opened EngineLog
  import opened EngineData
  import opened Runs
  import opened RunSteps
  import opened Departures
  import CrashRecovery
  import EngineCheckpoint
  import W = Wal

  /** Nobody but `t` has a commit of the key still to apply. */
  ghost predicate NoOther(s: State, t: TxnId, k: Key) {
    forall v :: v in s.txns && v != t ==> !Unapplied(s.txns[v], k)
  }

  /** A holder of an unleaked write is the only one with a commit of the key to apply. */
  lemma WriterIsAlone(s: State, t: TxnId, k: Key)
    requires LockInv(s) && DataInv(s) && t in s.txns && k in s.txns[t].buffer && k !in s.leaked
    ensures NoOther(s, t, k)
  {
    forall v | v in s.txns && v != t ensures !Unapplied(s.txns[v], k) {
      WriterExcludes(s, t, v, k);
      assert TxnPending(SerialStore(s), s.txns[v], s.leaked);
    }
  }

  // ---------------------------------------------------------------- two commits in one order, applied in the other

  /** Nothing of the key is left to apply but by these two. */
  ghost predicate OnlyThese(s: State, t: TxnId, u: TxnId, k: Key) {
    forall v :: v in s.txns && v != t && v != u ==> !Unapplied(s.txns[v], k)
  }

  /** `t` has shown all its writes; nobody else has moved. */
  ghost predicate Shown(s: State, s': State, t: TxnId) {
    && t in s.txns && t in s'.txns && s'.txns == s.txns[t := s'.txns[t]] && s'.txns[t].buffer == s.txns[t].buffer
    && s'.txns[t].pc.Applying? && s'.txns[t].pc.todo == []
    && s'.store == ApplyOps(s.store, Writes(s.txns[t].buffer)) && s'.leaked == s.leaked && s'.wal == s.wal
    && s'.checkpoint == s.checkpoint
  }

  lemma WritesAreShown(run: seq<Action>, t: TxnId) returns (longer: seq<Action>)
    requires Legal(run) && CanMove(After(run), t, Acknowledge)
    ensures Legal(longer) && run <= longer && Shown(After(run), After(longer), t)
    ensures forall k :: k in After(run).txns[t].buffer ==>
      Read(After(longer).store, k) == Effect(After(run).txns[t].buffer[k])
  {
    var s := After(run);
    longer := ShowWritesRun(run, t);
    var buffer := s.txns[t].buffer;
    forall k | k in buffer ensures Read(After(longer).store, k) == Effect(buffer[k]) {
      ApplyBuffer(s.store, buffer, Sorted(buffer.Keys), k);
    }
  }

  /** `t` and `u` have only their locks left to release; nobody else has joined. */
  ghost predicate BothEnd(s: State, s': State, t: TxnId, u: TxnId) {
    && t != u && CanMove(s', t, ReleaseLocks) && CanMove(s', u, ReleaseLocks)
    && (forall v :: v in s'.txns && v != u ==> v in s.txns) && s'.checkpoint == s.checkpoint
  }

  /** `t` has logged before `u` and both wait; everything is flushed, then `u` shows its write before `t` does. */
  lemma ShowInWrongOrder(run: seq<Action>, t: TxnId, u: TxnId, k: Key) returns (longer: seq<Action>)
    requires Legal(run) && t in After(run).txns && u in After(run).txns && t != u
    requires After(run).txns[t].pc.Awaiting? && After(run).txns[u].pc.Awaiting? && k in After(run).txns[t].buffer
    requires OnlyThese(After(run), t, u, k)
    ensures Legal(longer) && run <= longer && After(longer).leaked == After(run).leaked
    ensures (forall v :: v in After(longer).txns ==> !Unapplied(After(longer).txns[v], k))
    ensures Read(After(longer).store, k) == Effect(After(run).txns[t].buffer[k])
    ensures SerialStore(After(longer)) == SerialStore(After(run))
    ensures BothEnd(After(run), After(longer), t, u)
  {
    var a := FlushForBoth(run, t, u);
    var b := WritesAreShown(a, u);
    longer := WritesAreShown(b, t);
    Longest(run, a, b);
    Longest(run, b, longer);
    BothShown(After(a), After(b), After(longer), t, u, k);
  }

  lemma BothShown(s: State, mid: State, s': State, t: TxnId, u: TxnId, k: Key)
    requires Shown(s, mid, u) && Shown(mid, s', t) && t != u && OnlyThese(s, t, u, k)
    ensures (forall v :: v in s'.txns ==> !Unapplied(s'.txns[v], k)) && BothEnd(s, s', t, u)
  {
    forall v | v in s'.txns ensures !Unapplied(s'.txns[v], k) {
      if v != t && v != u {
        assert s'.txns[v] == s.txns[v];
      }
    }
  }

  lemma FlushForBoth(run: seq<Action>, t: TxnId, u: TxnId) returns (longer: seq<Action>)
    requires Legal(run) && t in After(run).txns && u in After(run).txns
    requires After(run).txns[t].pc.Awaiting? && After(run).txns[u].pc.Awaiting?
    ensures Legal(longer) && run <= longer
    ensures CanMove(After(longer), t, Acknowledge) && CanMove(After(longer), u, Acknowledge)
    ensures After(longer).txns == After(run).txns && After(longer).leaked == After(run).leaked
    ensures After(longer).checkpoint == After(run).checkpoint
    ensures SerialStore(After(longer)) == SerialStore(After(run))
  {
    InvAlways(run);
    var s := After(run);
    assert TxnLogged(W.All(s.wal), s.wal.flushed, t, s.txns[t]);
    assert TxnLogged(W.All(s.wal), s.wal.flushed, u, s.txns[u]);
    longer := FlushEverything(run);
  }

  /** No commit of the key is left to apply, and the store shows something else than the log means. */
  ghost predicate Apart(s: State, k: Key) {
    && (forall v :: v in s.txns ==> !Unapplied(s.txns[v], k))
    && Read(s.store, k) != Read(SerialStore(s), k)
  }

  lemma FreedGoesApart(run: seq<Action>, t: TxnId, k: Key) returns (longer: seq<Action>, u: TxnId)
    requires Legal(run) && t in After(run).txns && After(run).txns[t].pc == Active && NoOther(After(run), t, k)
    requires k !in After(run).locks && k in After(run).txns[t].buffer
    ensures Legal(longer) && run <= longer && After(longer).leaked == After(run).leaked && Apart(After(longer), k)
    ensures BothEnd(After(run), After(longer), t, u)
  {
    var a := run;
    a, u := NewcomerWrites(run, k, Other(Effect(After(run).txns[t].buffer[k])));
    var b := CommitIsLogged(a, t);
    var c := CommitIsLogged(b, u);
    longer := ShowInWrongOrder(c, t, u, k);
    Longest(run, a, b);
    Longest(run, b, c);
    Longest(run, c, longer);
  }

  /**
   * From every reachable state in which a READ_COMMITTED transaction reads back a key it has
   * written, there is a continuation, in which nothing more is leaked, after which no commit
   * of the key is left to apply and the store differs from the serial result.
   */
  lemma ReadBackGoesApart(run: seq<Action>, t: TxnId) returns (longer: seq<Action>, u: TxnId)
    requires Legal(run) && CanMove(After(run), t, Finish) && Leaks(After(run).txns[t])
    requires After(run).txns[t].pc.cmd.key !in After(run).leaked
    ensures Legal(longer) && run + [By(t, Finish)] <= longer
    ensures After(longer).leaked == DoFinish(After(run), t).leaked
    ensures Apart(After(longer), After(run).txns[t].pc.cmd.key) && BothEnd(After(run), After(longer), t, u)
  {
    var s := After(run);
    var k := s.txns[t].pc.cmd.key;
    HolderBefore(run, t);
    Extend(run, By(t, Finish));
    var a := run + [By(t, Finish)];
    var b := FreeKey(a, t, k);
    longer, u := FreedGoesApart(b, t, k);
    Longest(a, b, longer);
  }

  lemma HolderBefore(run: seq<Action>, t: TxnId)
    requires Legal(run) && CanMove(After(run), t, Finish) && Leaks(After(run).txns[t])
    requires After(run).txns[t].pc.cmd.key !in After(run).leaked
    ensures var s := After(run); var k := s.txns[t].pc.cmd.key; var s' := DoFinish(s, t);
      && k in s'.locks && s'.locks[k].holders == {t} && NoOther(s', t, k)
      && t in s'.txns && s'.txns[t].pc == Unlocking(k) && k in s'.txns[t].buffer
  {
    InvAlways(run);
    var s := After(run);
    var k := s.txns[t].pc.cmd.key;
    assert TxnHolds(s.locks, t, s.txns[t], s.leaked);
    WriterIsAlone(s, t, k);
    forall u | u in s.locks[k].holders ensures u == t {
      ExclusiveIsAlone(s.locks, t, u, k);
    }
  }

  // ---------------------------------------------------------------- the exact condition

  /** However the run goes on from here, without leaking more, store and log agree on the key once it is applied. */
  ghost predicate AgreesFromHere(run: seq<Action>, k: Key)
    requires Legal(run)
  {
    forall longer :: Legal(longer) && run <= longer && After(longer).leaked == After(run).leaked ==>
      Agrees(After(longer), SerialStore(After(longer)), k)
  }

  /**
   * What a GET means for the agreement of store and log. In every run, from the moment a GET
   * of a key not leaked before is answered, every continuation that leaks nothing more agrees
   * on the key if and only if the GET is not that of a READ_COMMITTED transaction reading
   * back a key it has written.
   */
  lemma ReadBackIff(run: seq<Action>, t: TxnId)
    requires Legal(run) && CanMove(After(run), t, Finish) && After(run).txns[t].pc.cmd.Get?
    requires After(run).txns[t].pc.cmd.key !in After(run).leaked
    requires Legal(run + [By(t, Finish)])
    ensures AgreesFromHere(run + [By(t, Finish)], After(run).txns[t].pc.cmd.key) <==> !Leaks(After(run).txns[t])
  {
    var s := After(run);
    var k := s.txns[t].pc.cmd.key;
    var read := run + [By(t, Finish)];
    Extend(run, By(t, Finish));
    if Leaks(s.txns[t]) {
      var longer, u := ReadBackGoesApart(run, t);
      assert !Agrees(After(longer), SerialStore(After(longer)), k);
    } else {
      forall longer | Legal(longer) && read <= longer && After(longer).leaked == After(read).leaked
        ensures Agrees(After(longer), SerialStore(After(longer)), k)
      {
        InvAlways(longer);
      }
    }
  }

  // ---------------------------------------------------------------- how long it lasts

  predicate CommitsKey(s: State, a: Action, k: Key) {
    a.By? && a.move == LogCommit && a.t in s.txns && k in s.txns[a.t].buffer
  }

  lemma SerialMove(s: State, t: TxnId, m: Move)
    requires DataInv(s) && CanMove(s, t, m) && m != LogCommit
    ensures SerialStore(DoMove(s, t, m)) == SerialStore(s)
  {
    match m
    case LogBegin => AppendQuiet(s, t, Begin);
    case LogNext => AppendQuiet(s, t, Change(s.txns[t].pc.todo[0]));
    case AbortTxn => AppendQuiet(s, t, Abort);
    case _ =>
  }

  /** Only COMMIT makes a transaction owe the store a key. */
  lemma NothingNewToApply(s: State, t: TxnId, m: Move, k: Key)
    requires CanMove(s, t, m) && m != LogCommit && !Unapplied(s.txns[t], k)
    ensures t in DoMove(s, t, m).txns ==> !Unapplied(DoMove(s, t, m).txns[t], k)
    ensures Read(DoMove(s, t, m).store, k) == Read(s.store, k)
  {
    match m
    case Acknowledge => AcknowledgeSame(s.txns[t], s.txns[t].pc.lsn, k);
    case ApplyNext => UnappliedStep(s.txns[t], k);
    case _ =>
  }

  lemma ApartCommitIff(s: State, t: TxnId, k: Key)
    requires LogInv(s) && CanMove(s, t, LogCommit) && Apart(s, k)
    ensures Apart(DoMove(s, t, LogCommit), k) <==> k !in s.txns[t].buffer
  {
    CommitOverlays(s, t, k);
    assert t in DoMove(s, t, LogCommit).txns;
  }

  lemma ApartMove(s: State, t: TxnId, m: Move, k: Key)
    requires DataInv(s) && CanMove(s, t, m) && m != LogCommit && Apart(s, k)
    ensures Apart(DoMove(s, t, m), k)
  {
    MoveIsLocal(s, t, m);
    SerialMove(s, t, m);
    NothingNewToApply(s, t, m, k);
  }

  lemma ApartStepIff(s: State, a: Action, k: Key)
    requires LogInv(s) && DataInv(s) && Enabled(s, a) && s.nextTxn !in s.txns && Apart(s, k)
    ensures Apart(Do(s, a), k) <==> !CommitsKey(s, a, k)
  {
    match a
    case By(t, m) =>
      if m == LogCommit {
        ApartCommitIff(s, t, k);
      } else {
        ApartMove(s, t, m, k);
      }
    case BeginTxn(session, level) => ApartBegin(s, session, level, k);
    case Fetch => W.FetchKeeps(s.wal); StillApart(s, Do(s, a), k);
    case WriteRecord => W.WriteOneKeeps(s.wal); StillApart(s, Do(s, a), k);
    case PassOn => W.PassKeeps(s.wal); StillApart(s, Do(s, a), k);
    case Sync => W.SyncKeeps(s.wal); StillApart(s, Do(s, a), k);
    case DraftSnapshot => W.CoverKeeps(s.wal); StillApart(s, Do(s, a), k);
    case InstallSnapshot => StillApart(s, Do(s, a), k);
    case Truncate => W.CoverKeeps(s.wal); StillApart(s, Do(s, a), k);
  }

  lemma StillApart(s: State, s': State, k: Key)
    requires Apart(s, k) && s'.txns == s.txns && s'.store == s.store && W.All(s'.wal) == W.All(s.wal)
    ensures Apart(s', k)
  {
  }

  lemma ApartBegin(s: State, session: SessionId, level: Isolation, k: Key)
    requires Apart(s, k) && Enabled(s, BeginTxn(session, level))
    ensures Apart(Do(s, BeginTxn(session, level)), k)
  {
  }

  lemma ApartEnds(k: Key)
    ensures EndsOnlyBy(s => Apart(s, k), (s, a) => CommitsKey(s, a, k))
  {
    forall run, a | Legal(run) && Enabled(After(run), a) && Apart(After(run), k)
      ensures Apart(Do(After(run), a), k) <==> !CommitsKey(After(run), a, k)
    {
      InvAlways(run);
      ApartStepIff(After(run), a, k);
    }
  }

  /**
   * Nothing repairs a store that has gone apart: over every continuation of every run it stays
   * apart from the log at the key exactly as long as nobody logs a commit that writes the key.
   */
  lemma ApartLastsIff(run: seq<Action>, from: nat, k: Key)
    requires Legal(run) && from <= |run| && Legal(run[..from]) && Apart(After(run[..from]), k)
    ensures Throughout(run, from, s => Apart(s, k)) <==> Never(run, from, (s, a) => CommitsKey(s, a, k))
  {
    ApartEnds(k);
    ThroughoutIff(run, from, s => Apart(s, k), (s, a) => CommitsKey(s, a, k));
  }

  // ---------------------------------------------------------------- and what a checkpoint makes of it

  /** A checkpoint of a store that is apart saves the wrong value: every crash from then on brings it back. */
  lemma CheckpointSavesIt(run: seq<Action>, k: Key) returns (longer: seq<Action>)
    requires Legal(run) && Apart(After(run), k) && After(run).txns == map[] && After(run).checkpoint == NoCheckpoint
    ensures Legal(longer) && run <= longer && After(longer).checkpoint.Installed?
    ensures forall n :: CrashRecovery.Survives(After(longer), n) ==> BroughtBackWrong(After(longer), n, k)
  {
    var a := Go(run, DraftSnapshot);
    longer := Go(a, InstallSnapshot);
    Longest(run, a, longer);
    SavedWrong(run, k);
    forall n | CrashRecovery.Survives(After(longer), n) ensures BroughtBackWrong(After(longer), n, k) {
      CrashRecovery.CrashIsAtomic(longer, n);
      NothingAbove(After(longer), n, k);
    }
  }

  /** Recovery shows at the key something else than the serial result of the transactions that count. */
  ghost predicate BroughtBackWrong(s: State, n: nat, k: Key) {
    && s.truncated <= n <= |s.wal.written| && CrashRecovery.Reach(s, n) <= |s.wal.written|
    && var c := CrashRecovery.CommitCount(s.wal.written[..CrashRecovery.Reach(s, n)]);
    && c <= |s.history|
    && Read(CrashRecovery.FromDisk(s, n), k) != Read(RunAll(s.history[..c]), k)
  }

  lemma SavedWrong(run: seq<Action>, k: Key)
    requires Legal(run) && Apart(After(run), k) && After(run).txns == map[]
    ensures var s := After(run); s.wal.flushed == |s.wal.written| && Read(s.store, k) != Read(Fold(s.wal.written), k)
  {
    InvAlways(run);
    var s := After(run);
    EngineCheckpoint.FoldNoCommit(W.All(s.wal), s.wal.flushed);
    assert W.All(s.wal)[..s.wal.flushed] == s.wal.written;
  }

  lemma NothingAbove(s: State, n: nat, k: Key)
    requires n <= |s.wal.written| == s.snapshot.lsn && Read(s.snapshot.store, k) != Read(Fold(s.wal.written), k)
    ensures !CrashRecovery.RightAt(s, s.snapshot, n, k)
  {
    assert s.wal.written[..s.snapshot.lsn] == s.wal.written;
  }
}
