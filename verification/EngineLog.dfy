// What every action keeps between the log and the transactions in progress.
module EngineLog {
  import opened Kv
  import opened Log
  import opened Engine
  import W = Wal

  predicate CommitAt(log: seq<Record>, lsn: Lsn, t: TxnId) {
    0 < lsn <= |log| && log[lsn - 1] == Record(lsn, t, Commit)
  }

  predicate Suffix(todo: seq<Op>, all: seq<Op>) {
    exists n :: 0 <= n <= |all| && todo == all[n..]
  }

  lemma SuffixRest(todo: seq<Op>, all: seq<Op>)
    requires Suffix(todo, all) && todo != []
    ensures todo[0] in all && Suffix(todo[1..], all)
  {
    var n :| 0 <= n <= |all| && todo == all[n..];
    assert todo[0] == all[n] && todo[1..] == all[n + 1..];
  }

  /** How far a transaction has got in the log, by where its session is. */
  predicate TxnLogged(log: seq<Record>, flushed: Lsn, t: TxnId, x: Txn) {
    match x.pc
    case Logging(todo) => Open(log, t) && OpsOf(log, t) + todo == Writes(x.buffer)
    case Awaiting(lsn) => CommitAt(log, lsn, t) && OpsOf(log, t) == Writes(x.buffer)
    case Applying(lsn, todo) =>
      && CommitAt(log, lsn, t) && lsn <= flushed
      && OpsOf(log, t) == Writes(x.buffer)
      && Suffix(todo, Writes(x.buffer))
    case Aborting => x.buffer == map[]
    case _ => Open(log, t) && OpsOf(log, t) == []
  }

  /** A COMMIT above the flushed mark belongs to a transaction still waiting for it. */
  ghost predicate TailAwaited(log: seq<Record>, flushed: Lsn, txns: map<TxnId, Txn>) {
    forall i :: flushed <= i < |log| && log[i].body == Commit ==>
      log[i].txn in txns && txns[log[i].txn].pc == Awaiting(i + 1)
  }

  ghost predicate AllLogged(log: seq<Record>, flushed: Lsn, txns: map<TxnId, Txn>) {
    forall t :: t in txns ==> TxnLogged(log, flushed, t, txns[t])
  }

  ghost predicate IdsBelow(log: seq<Record>, txns: map<TxnId, Txn>, nextTxn: TxnId) {
    && (forall i :: 0 <= i < |log| ==> log[i].txn < nextTxn)
    && (forall t :: t in txns ==> t < nextTxn)
  }

  ghost predicate AckedCommitted(log: seq<Record>, flushed: Lsn, acked: set<Lsn>) {
    flushed <= |log| && forall lsn :: lsn in acked ==> 0 < lsn <= flushed && log[lsn - 1].body == Commit
  }

  ghost predicate LogInv(s: State) {
    var log := W.All(s.wal);
    && W.WalOk(s.wal)
    && WellFormed(log)
    && IdsBelow(log, s.txns, s.nextTxn)
    && AllLogged(log, s.wal.flushed, s.txns)
    && TailAwaited(log, s.wal.flushed, s.txns)
    && AckedCommitted(log, s.wal.flushed, s.acked)
  }

  // ---------------------------------------------------------------- framing

  /** A record of another transaction says nothing about this one. */
  lemma LoggedFrame(log: seq<Record>, r: Record, flushed: Lsn, u: TxnId, x: Txn)
    requires TxnLogged(log, flushed, u, x) && r.txn != u
    ensures TxnLogged(log + [r], flushed, u, x)
  {
    OpsOfAppend(log, r, u);
  }

  lemma LoggedFlushed(log: seq<Record>, flushed: Lsn, more: Lsn, u: TxnId, x: Txn)
    requires TxnLogged(log, flushed, u, x) && flushed <= more
    ensures TxnLogged(log, more, u, x)
  {
  }

  lemma AllLoggedAppend(log: seq<Record>, r: Record, flushed: Lsn, txns: map<TxnId, Txn>, x: Txn)
    requires AllLogged(log, flushed, txns) && r.txn in txns
    requires TxnLogged(log + [r], flushed, r.txn, x)
    ensures AllLogged(log + [r], flushed, txns[r.txn := x])
  {
    forall u | u in txns && u != r.txn ensures TxnLogged(log + [r], flushed, u, txns[u]) {
      LoggedFrame(log, r, flushed, u, txns[u]);
    }
  }

  lemma TailAppend(log: seq<Record>, r: Record, flushed: Lsn, txns: map<TxnId, Txn>, x: Txn)
    requires TailAwaited(log, flushed, txns) && r.txn in txns && !txns[r.txn].pc.Awaiting?
    requires r.body == Commit ==> x.pc == Awaiting(|log| + 1)
    ensures TailAwaited(log + [r], flushed, txns[r.txn := x])
  {
  }

  /** A transaction that has begun and not ended logs one more record. */
  lemma AppendKeeps(s: State, s': State, t: TxnId, b: Body, x: Txn)
    requires LogInv(s) && t in s.txns
    requires s'.txns == s.txns[t := x] && s'.nextTxn == s.nextTxn && s'.acked == s.acked
    requires s'.wal == W.Append(s.wal, t, b)
    requires Open(W.All(s.wal), t) && !s.txns[t].pc.Awaiting?
    requires TxnLogged(W.All(s.wal) + [Record(s.wal.nextLsn, t, b)], s.wal.flushed, t, x)
    requires b == Commit ==> x.pc == Awaiting(s.wal.nextLsn)
    ensures LogInv(s')
  {
    var log := W.All(s.wal);
    var r := Record(s.wal.nextLsn, t, b);
    W.AppendKeeps(s.wal, t, b);
    W.AppendAll(s.wal, t, b);
    WellFormedAppend(log, r);
    AllLoggedAppend(log, r, s.wal.flushed, s.txns, x);
    TailAppend(log, r, s.wal.flushed, s.txns, x);
  }

  lemma QuietTail(log: seq<Record>, flushed: Lsn, txns: map<TxnId, Txn>, t: TxnId, x: Txn)
    requires TailAwaited(log, flushed, txns) && t in txns && TxnLogged(log, flushed, t, txns[t])
    requires txns[t].pc.Awaiting? ==> txns[t].pc.lsn <= flushed
    ensures TailAwaited(log, flushed, txns[t := x])
  {
  }

  lemma QuietLogged(log: seq<Record>, flushed: Lsn, txns: map<TxnId, Txn>, t: TxnId, x: Txn)
    requires AllLogged(log, flushed, txns) && TxnLogged(log, flushed, t, x)
    ensures AllLogged(log, flushed, txns[t := x])
  {
  }

  /** The acting session moves on without logging. */
  lemma QuietKeeps(s: State, s': State, t: TxnId)
    requires LogInv(s) && t in s.txns && t in s'.txns
    requires s'.txns == s.txns[t := s'.txns[t]] && s'.nextTxn == s.nextTxn && s'.wal == s.wal
    requires s.txns[t].pc.Awaiting? ==> s.txns[t].pc.lsn <= s.wal.flushed
    requires TxnLogged(W.All(s.wal), s.wal.flushed, t, s'.txns[t])
    requires s'.acked == s.acked || (s.txns[t].pc.Awaiting? && s'.acked == s.acked + {s.txns[t].pc.lsn})
    ensures LogInv(s')
  {
    var log, flushed := W.All(s.wal), s.wal.flushed;
    assert TxnLogged(log, flushed, t, s.txns[t]);
    QuietTail(log, flushed, s.txns, t, s'.txns[t]);
    QuietLogged(log, flushed, s.txns, t, s'.txns[t]);
  }

  /** The flusher moved: the log as a whole is the same, the mark may have risen. */
  lemma FlushKeeps(s: State, s': State)
    requires LogInv(s) && s'.txns == s.txns && s'.nextTxn == s.nextTxn && s'.acked == s.acked
    requires W.WalOk(s'.wal) && W.All(s'.wal) == W.All(s.wal) && s'.wal.flushed >= s.wal.flushed
    ensures LogInv(s')
  {
    forall u | u in s'.txns ensures TxnLogged(W.All(s'.wal), s'.wal.flushed, u, s'.txns[u]) {
      LoggedFlushed(W.All(s.wal), s.wal.flushed, s'.wal.flushed, u, s.txns[u]);
    }
  }

  // ---------------------------------------------------------------- actions

  lemma LogBeginKeeps(s: State, t: TxnId)
    requires LogInv(s) && CanMove(s, t, LogBegin)
    ensures LogInv(DoMove(s, t, LogBegin))
  {
    var log := W.All(s.wal);
    assert TxnLogged(log, s.wal.flushed, t, s.txns[t]);
    OpsOfAppend(log, Record(s.wal.nextLsn, t, Begin), t);
    AppendKeeps(s, DoMove(s, t, LogBegin), t, Begin, s.txns[t].(pc := Active));
  }

  lemma NextLogged(log: seq<Record>, r: Record, flushed: Lsn, x: Txn)
    requires x.pc.Logging? && x.pc.todo != [] && TxnLogged(log, flushed, r.txn, x)
    requires r.body == Change(x.pc.todo[0])
    ensures TxnLogged(log + [r], flushed, r.txn, x.(pc := Logging(x.pc.todo[1..])))
  {
    OpsOfAppend(log, r, r.txn);
    FrontMoves(OpsOf(log, r.txn), x.pc.todo);
  }

  lemma FrontMoves(done: seq<Op>, todo: seq<Op>)
    requires todo != []
    ensures (done + [todo[0]]) + todo[1..] == done + todo
  {
  }

  lemma LogNextKeeps(s: State, t: TxnId)
    requires LogInv(s) && CanMove(s, t, LogNext)
    ensures LogInv(DoMove(s, t, LogNext))
  {
    var x := s.txns[t];
    var b := Change(x.pc.todo[0]);
    assert TxnLogged(W.All(s.wal), s.wal.flushed, t, x);
    NextLogged(W.All(s.wal), Record(s.wal.nextLsn, t, b), s.wal.flushed, x);
    AppendKeeps(s, DoMove(s, t, LogNext), t, b, x.(pc := Logging(x.pc.todo[1..])));
  }

  lemma LogCommitKeeps(s: State, t: TxnId)
    requires LogInv(s) && CanMove(s, t, LogCommit)
    ensures LogInv(DoMove(s, t, LogCommit))
  {
    var log := W.All(s.wal);
    assert TxnLogged(log, s.wal.flushed, t, s.txns[t]);
    OpsOfAppend(log, Record(s.wal.nextLsn, t, Commit), t);
    assert OpsOf(log, t) + [] == OpsOf(log, t);
    AppendKeeps(s, DoMove(s, t, LogCommit), t, Commit, s.txns[t].(pc := Awaiting(s.wal.nextLsn)));
  }

  lemma AbortKeeps(s: State, t: TxnId)
    requires LogInv(s) && CanMove(s, t, AbortTxn)
    ensures LogInv(DoMove(s, t, AbortTxn))
  {
    assert TxnLogged(W.All(s.wal), s.wal.flushed, t, s.txns[t]);
    AppendKeeps(s, DoMove(s, t, AbortTxn), t, Abort, s.txns[t].(pc := Aborting, buffer := map[]));
  }

  /** The session is between BEGIN and commit or abort. */
  predicate Running(pc: Pc) {
    !pc.Logging? && !pc.Awaiting? && !pc.Applying? && !pc.Aborting?
  }

  lemma RunningLogged(log: seq<Record>, flushed: Lsn, t: TxnId, x: Txn, x': Txn)
    requires TxnLogged(log, flushed, t, x) && Running(x.pc) && Running(x'.pc)
    ensures TxnLogged(log, flushed, t, x')
  {
  }

  lemma QuietMove(s: State, t: TxnId, m: Move)
    requires CanMove(s, t, m) && (m.Ask? || m.Wake? || m.TimeOut? || m.Finish? || m.Unlock?)
    ensures var s' := DoMove(s, t, m);
      && t in s'.txns && s'.txns == s.txns[t := s'.txns[t]]
      && s'.nextTxn == s.nextTxn && s'.wal == s.wal && s'.acked == s.acked
      && Running(s.txns[t].pc) && Running(s'.txns[t].pc)
  {
  }

  lemma QuietMoveKeeps(s: State, t: TxnId, m: Move)
    requires LogInv(s) && CanMove(s, t, m)
    requires m.Ask? || m.Wake? || m.TimeOut? || m.Finish? || m.Unlock?
    ensures LogInv(DoMove(s, t, m))
  {
    var s' := DoMove(s, t, m);
    QuietMove(s, t, m);
    assert TxnLogged(W.All(s.wal), s.wal.flushed, t, s.txns[t]);
    RunningLogged(W.All(s.wal), s.wal.flushed, t, s.txns[t], s'.txns[t]);
    QuietKeeps(s, s', t);
  }

  lemma StartCommitKeeps(s: State, t: TxnId)
    requires LogInv(s) && CanMove(s, t, StartCommit)
    ensures LogInv(DoMove(s, t, StartCommit))
  {
    assert TxnLogged(W.All(s.wal), s.wal.flushed, t, s.txns[t]);
    assert [] + Writes(s.txns[t].buffer) == Writes(s.txns[t].buffer);
    QuietKeeps(s, DoMove(s, t, StartCommit), t);
  }

  lemma AcknowledgeKeeps(s: State, t: TxnId)
    requires LogInv(s) && CanMove(s, t, Acknowledge)
    ensures LogInv(DoMove(s, t, Acknowledge))
  {
    var x := s.txns[t];
    assert TxnLogged(W.All(s.wal), s.wal.flushed, t, x);
    assert Writes(x.buffer) == Writes(x.buffer)[0..];
    QuietKeeps(s, DoMove(s, t, Acknowledge), t);
  }

  lemma NextApplied(log: seq<Record>, flushed: Lsn, t: TxnId, x: Txn)
    requires x.pc.Applying? && x.pc.todo != [] && TxnLogged(log, flushed, t, x)
    ensures TxnLogged(log, flushed, t, x.(pc := Applying(x.pc.lsn, x.pc.todo[1..])))
  {
    SuffixRest(x.pc.todo, Writes(x.buffer));
  }

  lemma ApplyNextKeeps(s: State, t: TxnId)
    requires LogInv(s) && CanMove(s, t, ApplyNext)
    ensures LogInv(DoMove(s, t, ApplyNext))
  {
    assert TxnLogged(W.All(s.wal), s.wal.flushed, t, s.txns[t]);
    NextApplied(W.All(s.wal), s.wal.flushed, t, s.txns[t]);
    QuietKeeps(s, DoMove(s, t, ApplyNext), t);
  }

  lemma ReleaseLocksKeeps(s: State, t: TxnId)
    requires LogInv(s) && CanMove(s, t, ReleaseLocks)
    ensures LogInv(DoMove(s, t, ReleaseLocks))
  {
  }

  lemma BeginKeeps(s: State, session: SessionId, level: Isolation)
    requires LogInv(s) && Enabled(s, BeginTxn(session, level))
    ensures LogInv(Do(s, BeginTxn(session, level)))
  {
    OpsOfStranger(W.All(s.wal), s.nextTxn);
  }

  lemma LogInvMove(s: State, t: TxnId, m: Move)
    requires LogInv(s) && CanMove(s, t, m)
    ensures LogInv(DoMove(s, t, m))
  {
    match m
    case LogBegin => LogBeginKeeps(s, t);
    case LogNext => LogNextKeeps(s, t);
    case LogCommit => LogCommitKeeps(s, t);
    case Acknowledge => AcknowledgeKeeps(s, t);
    case ApplyNext => ApplyNextKeeps(s, t);
    case AbortTxn => AbortKeeps(s, t);
    case ReleaseLocks => ReleaseLocksKeeps(s, t);
    case StartCommit => StartCommitKeeps(s, t);
    case _ => QuietMoveKeeps(s, t, m);
  }

  lemma LogInvStep(s: State, a: Action)
    requires LogInv(s) && Enabled(s, a)
    ensures LogInv(Do(s, a))
  {
    match a
    case BeginTxn(session, level) => BeginKeeps(s, session, level);
    case By(t, m) => LogInvMove(s, t, m);
    case Fetch => W.FetchKeeps(s.wal); FlushKeeps(s, Do(s, a));
    case WriteRecord => W.WriteOneKeeps(s.wal); FlushKeeps(s, Do(s, a));
    case PassOn => W.PassKeeps(s.wal); FlushKeeps(s, Do(s, a));
    case Sync => W.SyncKeeps(s.wal); FlushKeeps(s, Do(s, a));
    case DraftSnapshot => W.CoverKeeps(s.wal); FlushKeeps(s, Do(s, a));
    case InstallSnapshot =>
    case Truncate => W.CoverKeeps(s.wal); FlushKeeps(s, Do(s, a));
  }
}
