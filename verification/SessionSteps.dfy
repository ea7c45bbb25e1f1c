// The engine's actions as one session sees them: what it shares with the others, what is its
// own, and what each of its steps does to both.
module SessionSteps {
  import opened Kv
  import opened KeyOrder
  import opened LockTable
  import opened Log
  import opened Serial
  import opened Engine
  import opened EngineLocks
  import opened RunSteps
  import LockFacts
  import LockOrder
  import Runs
  import W = Wal

  /** What all sessions share. */
  datatype Room = Room(nextTxn: TxnId, locks: Table, wal: W.Wal, store: Store, truncated: Lsn)

  function RoomOf(s: State): Room {
    Room(s.nextTxn, s.locks, s.wal, s.store, s.truncated)
  }

  /** What a session keeps for itself. */
  datatype Mine = Mine(session: SessionId, active: bool, txnId: TxnId, level: Isolation, buffer: map<Key, Write>)

  ghost predicate Alone(s: State, session: SessionId, t: TxnId) {
    forall u :: u in s.txns && s.txns[u].session == session ==> u == t
  }

  /** The session's transaction is at this point of its work. */
  ghost predicate At(m: Mine, s: State, pc: Pc) {
    && m.active && m.txnId in s.txns && Alone(s, m.session, m.txnId)
    && var x := s.txns[m.txnId];
    && x.session == m.session && x.level == m.level && x.buffer == m.buffer && x.pc == pc
  }

  /** The session is between two commands. */
  ghost predicate Rests(m: Mine, s: State) {
    if m.active then At(m, s, Active) else forall t :: t in s.txns ==> s.txns[t].session != m.session
  }

  /** The run goes on without touching the transactions of other sessions. */
  ghost predicate Goes(run: seq<Action>, longer: seq<Action>, session: SessionId) {
    && Legal(run) && Legal(longer) && run <= longer
    && var s, s' := After(run), After(longer);
    && (forall t :: t in s.txns && s.txns[t].session != session ==> t in s'.txns && s'.txns[t] == s.txns[t])
    && (forall t :: t in s'.txns && s'.txns[t].session != session ==> t in s.txns && s.txns[t] == s'.txns[t])
  }

  lemma GoesOn(a: seq<Action>, b: seq<Action>, c: seq<Action>, session: SessionId)
    requires Goes(a, b, session) && Goes(b, c, session)
    ensures Goes(a, c, session)
  {
    Longest(a, b, c);
  }

  /** What one session does leaves the others where they are. */
  lemma OthersStay(run: seq<Action>, longer: seq<Action>, session: SessionId, m: Mine, pc: Pc)
    requires Goes(run, longer, session) && m.session != session
    ensures Rests(m, After(run)) <==> Rests(m, After(longer))
    ensures At(m, After(run), pc) <==> At(m, After(longer), pc)
  {
  }

  /** Any move of the session's transaction. */
  lemma Moved(run: seq<Action>, m: Mine, pc: Pc, move: Move) returns (longer: seq<Action>)
    requires Legal(run) && At(m, After(run), pc) && CanMove(After(run), m.txnId, move)
    ensures Goes(run, longer, m.session) && After(longer) == DoMove(After(run), m.txnId, move)
    ensures Alone(After(longer), m.session, m.txnId)
    ensures m.txnId in After(longer).txns ==>
      After(longer).txns[m.txnId].session == m.session && After(longer).txns[m.txnId].level == m.level
  {
    longer := Go(run, By(m.txnId, move));
    MoveIsLocal(After(run), m.txnId, move);
  }

  function TraceOf(s: State, t: TxnId): seq<Event> {
    if t in s.txns then s.txns[t].trace else []
  }

  /** The client of `t` has done or seen one thing more. */
  ghost predicate Tells(s: State, s': State, t: TxnId, e: Event) {
    t in s.txns && t in s'.txns && s'.txns[t].trace == s.txns[t].trace + [e]
  }

  /** The log has gained one record of `t`, at its end. */
  ghost predicate Adds(s: State, s': State, t: TxnId, b: Body) {
    W.All(s'.wal) == W.All(s.wal) + [Record(s.wal.nextLsn, t, b)]
  }

  // ---------------------------------------------------------------- each step

  /** A sleeper's entry is there when its wait ends. */
  lemma EntryIsThere(run: seq<Action>, m: Mine, cmd: Cmd)
    requires Legal(run) && At(m, After(run), Blocked(cmd))
    ensures KeyOf(cmd) in After(run).locks
  {
    assert LockInv(After(run)) by {
      Runs.InvAlways(run);
    }
    SleeperHasEntry(After(run), m.txnId);
  }

  /** What the request of a resting session gets it. */
  lemma RequestGives(run: seq<Action>, m: Mine, cmd: Cmd)
    requires Legal(run) && At(m, After(run), Active)
    ensures var t, k, mode := m.txnId, KeyOf(cmd), ModeOf(cmd);
      var e, locks := EntryAt(After(run).locks, k), Request(After(run).locks, t, k, mode);
      && (LockTable.Ask(e, t, mode).1 == Granted <==> Grantable(e, t, mode))
      && (if Grantable(e, t, mode) then Rank(Hold(locks, t, k)) >= Rank(mode) else Waits(locks, t, k))
  {
    LockOrder.WaitsForSomebody(run, m.txnId, cmd);
  }

  /** A session that is past acquireLock holds what it asked for. */
  lemma WhatWasAskedFor(run: seq<Action>, m: Mine, cmd: Cmd)
    requires Legal(run)
    requires At(m, After(run), Holding(cmd))
          || (At(m, After(run), Blocked(cmd)) && !Waits(After(run).locks, m.txnId, KeyOf(cmd)))
    ensures Rank(Hold(After(run).locks, m.txnId, KeyOf(cmd))) >= Rank(ModeOf(cmd))
  {
    Runs.InvAlways(run);
    var s := After(run);
    assert TxnHolds(s.locks, m.txnId, s.txns[m.txnId], s.leaked);
    if Waiter(m.txnId, ModeOf(cmd)) in EntryAt(s.locks, KeyOf(cmd)).queue {
      LockFacts.InQueueIn(s.locks[KeyOf(cmd)].queue, Waiter(m.txnId, ModeOf(cmd)));
    }
  }

  lemma GivenBack(run: seq<Action>, m: Mine, k: Key)
    requires Legal(run) && At(m, After(run), Unlocking(k))
    ensures Hold(Release(After(run).locks, m.txnId, k), m.txnId, k) == NoLock
  {
    Runs.InvAlways(run);
    var s := After(run);
    AwakeWaitsNowhere(s, m.txnId, k);
    if k in s.locks {
      LockFacts.DropEffect(s.locks[k], m.txnId);
    }
  }

  /** Once its transaction is over, a session holds and awaits nothing. */
  lemma NothingIsLeft(run: seq<Action>, t: TxnId, k: Key)
    requires Legal(run) && t !in After(run).txns
    ensures Hold(After(run).locks, t, k) == NoLock && !Waits(After(run).locks, t, k)
  {
    Runs.InvAlways(run);
    AwakeWaitsNowhere(After(run), t, k);
  }

  lemma NothingLeft(run: seq<Action>, t: TxnId)
    requires Legal(run) && t !in After(run).txns
    ensures forall k :: Hold(After(run).locks, t, k) == NoLock && !Waits(After(run).locks, t, k)
  {
    forall k ensures Hold(After(run).locks, t, k) == NoLock && !Waits(After(run).locks, t, k) {
      NothingIsLeft(run, t, k);
    }
  }

  /** A GET is answered, and at READ_COMMITTED the lock given back. */
  lemma ReadStep(run: seq<Action>, m: Mine, k: Key) returns (longer: seq<Action>)
    requires Legal(run) && At(m, After(run), Holding(Get(k)))
    ensures Goes(run, longer, m.session) && Rests(m, After(longer))
    ensures RoomOf(After(longer)) == if m.level == ReadCommitted
      then RoomOf(After(run)).(locks := Release(After(run).locks, m.txnId, k)) else RoomOf(After(run))
    ensures After(longer).history == After(run).history
    ensures TraceOf(After(longer), m.txnId)
         == TraceOf(After(run), m.txnId) + [Saw(k, ReadThrough(After(run).store, m.buffer, k))]
    ensures Hold(After(longer).locks, m.txnId, k) == NoLock <==> m.level == ReadCommitted
  {
    WhatWasAskedFor(run, m, Get(k));
    longer := Moved(run, m, Holding(Get(k)), Finish);
    if m.level == ReadCommitted {
      var read := longer;
      GivenBack(read, m, k);
      longer := Moved(read, m, Unlocking(k), Unlock);
      GoesOn(run, read, longer, m.session);
    }
  }

  lemma ReleaseStep(run: seq<Action>, m: Mine, pc: Pc) returns (longer: seq<Action>)
    requires Legal(run) && At(m, After(run), pc) && (pc == Aborting || (pc.Applying? && pc.todo == []))
    ensures Goes(run, longer, m.session)
    ensures RoomOf(After(longer)) == RoomOf(After(run)).(locks := ReleaseAll(After(run).locks, m.txnId))
    ensures forall t :: t in After(longer).txns ==> After(longer).txns[t].session != m.session
    ensures m.txnId !in After(longer).txns && After(longer).history == After(run).history
  {
    longer := Moved(run, m, pc, ReleaseLocks);
  }

  // ---------------------------------------------------------------- commit

  /** Only the program counter of the session's transaction has moved among the transactions. */
  lemma OwnMoved(run: seq<Action>, longer: seq<Action>, m: Mine, pc: Pc, pc': Pc)
    requires Legal(run) && Legal(longer) && run <= longer && At(m, After(run), pc)
    requires After(longer).txns == After(run).txns[m.txnId := After(run).txns[m.txnId].(pc := pc')]
    ensures Goes(run, longer, m.session) && At(m, After(longer), pc')
  {
  }

  /** The log with everything that a commit adds. */
  function CommitLogged(w: W.Wal, t: TxnId, ops: seq<Op>): W.Wal {
    W.Append(AppendOps(w, t, ops), t, Commit)
  }

  function CommitLsn(w: W.Wal, t: TxnId, ops: seq<Op>): Lsn {
    AppendOps(w, t, ops).nextLsn
  }

  /**
   * All of the session's writes and its COMMIT are logged, and the history has gained its
   * transaction with that LSN and with all that its client did and saw.
   */
  ghost predicate IsLogged(s: State, s': State, m: Mine) {
    && s'.store == s.store && s'.locks == s.locks
    && W.All(s'.wal) == W.All(CommitLogged(s.wal, m.txnId, Writes(m.buffer)))
    && s'.history == s.history + [Done(m.txnId, CommitLsn(s.wal, m.txnId, Writes(m.buffer)), m.level,
                                 TraceOf(s, m.txnId))]
  }

  /** The session's writes are in the store and its locks are released. */
  ghost predicate IsShown(s: State, s': State, m: Mine) {
    && s'.store == ApplyOps(s.store, Writes(m.buffer)) && s'.locks == ReleaseAll(s.locks, m.txnId)
    && s'.wal == s.wal && s'.history == s.history
  }

  /** A whole commit: logged, then shown, and nothing else. */
  ghost predicate IsCommitted(s: State, s': State, m: Mine) {
    && s'.store == ApplyOps(s.store, Writes(m.buffer)) && s'.locks == ReleaseAll(s.locks, m.txnId)
    && W.All(s'.wal) == W.All(CommitLogged(s.wal, m.txnId, Writes(m.buffer)))
    && s'.history == s.history + [Done(m.txnId, CommitLsn(s.wal, m.txnId, Writes(m.buffer)), m.level,
                                 TraceOf(s, m.txnId))]
  }

  lemma LoggedThenShown(s: State, mid: State, s': State, m: Mine)
    requires IsLogged(s, mid, m) && IsShown(mid, s', m)
    ensures IsCommitted(s, s', m)
  {
  }

  /** The records of these operations, numbered from `lsn`. */
  function ChangeRecords(lsn: Lsn, t: TxnId, ops: seq<Op>): seq<Record> {
    seq(|ops|, i requires 0 <= i < |ops| => Record(lsn + i, t, Change(ops[i])))
  }

  lemma {:induction false} AppendOpsAll(w: W.Wal, t: TxnId, ops: seq<Op>)
    ensures W.All(AppendOps(w, t, ops)) == W.All(w) + ChangeRecords(w.nextLsn, t, ops)
    ensures CommitLsn(w, t, ops) == w.nextLsn + |ops|
    decreases |ops|
  {
    if ops == [] {
      assert W.All(w) + [] == W.All(w);
    } else {
      var next := W.Append(w, t, Change(ops[0]));
      AppendOpsAll(next, t, ops[1..]);
      W.AppendAll(w, t, Change(ops[0]));
      assert ChangeRecords(w.nextLsn, t, ops)
          == [Record(w.nextLsn, t, Change(ops[0]))] + ChangeRecords(next.nextLsn, t, ops[1..]);
    }
  }

  /** Once the buffer is in the store, the key shows its buffered write, or what it showed before. */
  predicate Stored(buffer: map<Key, Write>, before: Store, after: Store, k: Key) {
    if k in buffer && buffer[k].Put? then k in after && after[k] == buffer[k].value
    else if k in buffer then k !in after
    else (k in after <==> k in before) && (k in before ==> after[k] == before[k])
  }

  /**
   * What a commit amounts to: the store shows the buffer over what was there, and the log has
   * gained one record for each buffered write, in key order, and COMMIT behind them.
   */
  lemma CommitMeans(s: State, s': State, m: Mine)
    requires IsCommitted(s, s', m)
    ensures forall k :: Stored(m.buffer, s.store, s'.store, k)
    ensures var ops, lsn := Writes(m.buffer), s.wal.nextLsn;
      && CommitLsn(s.wal, m.txnId, ops) == lsn + |ops|
      && W.All(s'.wal) == W.All(s.wal) + ChangeRecords(lsn, m.txnId, ops) + [Record(lsn + |ops|, m.txnId, Commit)]
  {
    var keys := Sorted(m.buffer.Keys);
    forall k ensures Stored(m.buffer, s.store, s'.store, k) {
      ApplyBuffer(s.store, m.buffer, keys, k);
      assert Read(s'.store, k) == if k in keys then Effect(m.buffer[k]) else Read(s.store, k);
    }
    AppendOpsAll(s.wal, m.txnId, Writes(m.buffer));
    W.AppendAll(AppendOps(s.wal, m.txnId, Writes(m.buffer)), m.txnId, Commit);
  }

  lemma LogRun(run: seq<Action>, m: Mine) returns (longer: seq<Action>)
    requires Legal(run) && At(m, After(run), Active)
    ensures Goes(run, longer, m.session)
    ensures At(m, After(longer), Awaiting(CommitLsn(After(run).wal, m.txnId, Writes(m.buffer))))
    ensures RoomOf(After(longer)) == RoomOf(After(run)).(wal := CommitLogged(After(run).wal, m.txnId, Writes(m.buffer)))
    ensures IsLogged(After(run), After(longer), m)
  {
    var s := After(run);
    var a := Go(run, By(m.txnId, StartCommit));
    var b := LogRest(a, m.txnId);
    longer := Go(b, By(m.txnId, LogCommit));
    Longest(run, a, b);
    Longest(run, b, longer);
    var lsn := After(b).wal.nextLsn;
    assert After(longer).txns == s.txns[m.txnId := s.txns[m.txnId].(pc := Awaiting(lsn))];
    OwnMoved(run, longer, m, Active, Awaiting(lsn));
  }

  lemma FlushStep(run: seq<Action>, longer: seq<Action>, m: Mine, pc: Pc, w: W.Wal)
    requires Legal(run) && Legal(longer) && run <= longer && At(m, After(run), pc)
    requires After(longer) == After(run).(wal := w)
    ensures Goes(run, longer, m.session) && At(m, After(longer), pc)
    ensures RoomOf(After(longer)) == RoomOf(After(run)).(wal := w) && After(longer).history == After(run).history
  {
  }

  lemma ShowRun(run: seq<Action>, m: Mine, lsn: Lsn) returns (longer: seq<Action>)
    requires Legal(run) && At(m, After(run), Awaiting(lsn)) && After(run).wal.flushed >= lsn
    ensures Goes(run, longer, m.session) && At(m, After(longer), Applying(lsn, []))
    ensures RoomOf(After(longer)) == RoomOf(After(run)).(store := ApplyOps(After(run).store, Writes(m.buffer)))
    ensures After(longer).history == After(run).history
  {
    longer := ShowWritesRun(run, m.txnId);
    OwnMoved(run, longer, m, Awaiting(lsn), Applying(lsn, []));
  }

  // ---------------------------------------------------------------- whole commands

  datatype Reply =
    | Ok
    | Value(value: Kv.Value)
    | KeyNotFound
    | Waiting
    | NotInTransaction
    | AlreadyInTransaction
    | DeadlockAborted

  function Answer(result: Option<Kv.Value>): Reply {
    if result.Some? then Value(result.value) else KeyNotFound
  }

  /**
   * What a command leaves: the shared objects, the session's own fields, the reply, and the
   * events that the client's trace gains.
   */
  datatype Outcome = Outcome(room: Room, mine: Mine, reply: Reply, told: seq<Event>)

  function Idle(session: SessionId): Mine {
    Mine(session, false, 0, RepeatableRead, map[])
  }

  function Begun(room: Room, m: Mine, level: Isolation): Outcome {
    if m.active then Outcome(room, m, AlreadyInTransaction, [])
    else
      var t := room.nextTxn;
      Outcome(room.(nextTxn := t + 1, wal := W.Append(room.wal, t, Begin)), Mine(m.session, true, t, level, map[]),
              Ok, [])
  }

  function Buffered(m: Mine, op: Op): Mine {
    m.(buffer := m.buffer[op.key := op.write])
  }

  function Modified(room: Room, m: Mine, op: Op): Outcome {
    if !m.active then Outcome(room, m, NotInTransaction, [])
    else
      var asked := room.(locks := Request(room.locks, m.txnId, op.key, Exclusive));
      if LockTable.Ask(EntryAt(room.locks, op.key), m.txnId, Exclusive).1 == Granted
      then Outcome(asked, Buffered(m, op), Ok, [Wrote(op)])
      else Outcome(asked, m, Waiting, [])
  }

  function Aborted(room: Room, m: Mine, reply: Reply): Outcome {
    Outcome(room.(wal := W.Append(room.wal, m.txnId, Abort), locks := ReleaseAll(room.locks, m.txnId)),
            Idle(m.session), reply, [])
  }

  /** abort: refused outside a transaction. */
  function Abandoned(room: Room, m: Mine): Outcome {
    if m.active then Aborted(room, m, Ok) else Outcome(room, m, NotInTransaction, [])
  }

  /** The wait for a lock timed out: the request is withdrawn and the transaction aborted. */
  function GivenUp(room: Room, m: Mine, k: Key): Outcome {
    Aborted(room.(locks := GiveUp(room.locks, m.txnId, k)), m, DeadlockAborted)
  }

  function ResumedModify(room: Room, m: Mine, op: Op): Outcome {
    if Waits(room.locks, m.txnId, op.key) then GivenUp(room, m, op.key)
    else Outcome(room, Buffered(m, op), Ok, [Wrote(op)])
  }

  function Answered(room: Room, m: Mine, k: Key): Outcome {
    var result := ReadThrough(room.store, m.buffer, k);
    Outcome(if m.level == ReadCommitted then room.(locks := Release(room.locks, m.txnId, k)) else room, m,
            Answer(result), [Saw(k, result)])
  }

  function Gotten(room: Room, m: Mine, k: Key): Outcome {
    if !m.active then Outcome(room, m, NotInTransaction, [])
    else
      var asked := room.(locks := Request(room.locks, m.txnId, k, Shared));
      if LockTable.Ask(EntryAt(room.locks, k), m.txnId, Shared).1 == Granted then Answered(asked, m, k)
      else Outcome(asked, m, Waiting, [])
  }

  function ResumedGet(room: Room, m: Mine, k: Key): Outcome {
    if Waits(room.locks, m.txnId, k) then GivenUp(room, m, k) else Answered(room, m, k)
  }

  // ---------------------------------------------------------------- whole commands are runs

  /**
   * A longer run ends in what the command leaves: nothing is committed, the client's trace has
   * gained what the command told it, and the session rests or waits.
   */
  ghost predicate Shown(run: seq<Action>, longer: seq<Action>, session: SessionId, o: Outcome, cmd: Cmd) {
    && Goes(run, longer, session) && RoomOf(After(longer)) == o.room && o.mine.session == session
    && After(longer).history == After(run).history
    && (o.mine.active ==>
          TraceOf(After(longer), o.mine.txnId) == TraceOf(After(run), o.mine.txnId) + o.told)
    && (o.reply == Waiting ==> At(o.mine, After(longer), Blocked(cmd)))
    && (o.reply != Waiting ==> Rests(o.mine, After(longer)))
  }

  lemma ModifyRun(run: seq<Action>, m: Mine, op: Op) returns (longer: seq<Action>)
    requires Legal(run) && Rests(m, After(run))
    ensures Shown(run, longer, m.session, Modified(RoomOf(After(run)), m, op), Modify(op))
    ensures var granted := Grantable(EntryAt(After(run).locks, op.key), m.txnId, Exclusive);
      m.active ==> Modified(RoomOf(After(run)), m, op).reply == if granted then Ok else Waiting
    ensures Modified(RoomOf(After(run)), m, op).reply == Ok ==>
      Tells(After(run), After(longer), m.txnId, Wrote(op)) && Hold(After(longer).locks, m.txnId, op.key) == Exclusive
    ensures Modified(RoomOf(After(run)), m, op).reply == Waiting ==> Waits(After(longer).locks, m.txnId, op.key)
  {
    longer := run;
    if m.active {
      RequestGives(run, m, Modify(op));
      var asked := Moved(run, m, Active, Engine.Ask(Modify(op)));
      longer := asked;
      if LockTable.Ask(EntryAt(After(run).locks, op.key), m.txnId, Exclusive).1 == Granted {
        longer := Moved(asked, m, Holding(Modify(op)), Finish);
        GoesOn(run, asked, longer, m.session);
      }
    }
  }

  lemma BeginOutcome(run: seq<Action>, m: Mine, level: Isolation, cmd: Cmd) returns (longer: seq<Action>)
    requires Legal(run) && Rests(m, After(run))
    ensures Shown(run, longer, m.session, Begun(RoomOf(After(run)), m, level), cmd)
    ensures !m.active ==> var s, s', t := After(run), After(longer), After(run).nextTxn;
      && t !in s.txns && t in s'.txns && s'.txns[t] == Txn(m.session, level, Active, map[], [])
      && Adds(s, s', t, Begin)
  {
    longer := run;
    if !m.active {
      NextIsNew(run);
      W.AppendAll(After(run).wal, After(run).nextTxn, Begin);
      longer := BeginRun(run, m.session, level);
    }
  }

  lemma AbandonRun(run: seq<Action>, m: Mine, cmd: Cmd) returns (longer: seq<Action>)
    requires Legal(run) && Rests(m, After(run))
    ensures Shown(run, longer, m.session, Abandoned(RoomOf(After(run)), m), cmd)
    ensures m.active ==> m.txnId !in After(longer).txns && Adds(After(run), After(longer), m.txnId, Abort)
  {
    longer := run;
    if m.active {
      longer := AbortRun(run, m, Active, Ok, cmd);
    }
  }

  lemma AbortRun(run: seq<Action>, m: Mine, pc: Pc, reply: Reply, cmd: Cmd) returns (longer: seq<Action>)
    requires Legal(run) && At(m, After(run), pc) && (pc == Active || pc == TimedOut) && reply != Waiting
    ensures Shown(run, longer, m.session, Aborted(RoomOf(After(run)), m, reply), cmd)
    ensures m.txnId !in After(longer).txns && Adds(After(run), After(longer), m.txnId, Abort)
  {
    W.AppendAll(After(run).wal, m.txnId, Abort);
    var logged := Moved(run, m, pc, AbortTxn);
    longer := ReleaseStep(logged, m.(buffer := map[]), Aborting);
    GoesOn(run, logged, longer, m.session);
  }

  lemma GiveUpRun(run: seq<Action>, m: Mine, cmd: Cmd) returns (longer: seq<Action>)
    requires Legal(run) && At(m, After(run), Blocked(cmd)) && Waits(After(run).locks, m.txnId, KeyOf(cmd))
    ensures Shown(run, longer, m.session, GivenUp(RoomOf(After(run)), m, KeyOf(cmd)), cmd)
    ensures m.txnId !in After(longer).txns && Adds(After(run), After(longer), m.txnId, Abort)
  {
    var out := Moved(run, m, Blocked(cmd), TimeOut);
    longer := AbortRun(out, m, TimedOut, DeadlockAborted, cmd);
    GoesOn(run, out, longer, m.session);
  }

  lemma ResumeModifyRun(run: seq<Action>, m: Mine, op: Op) returns (longer: seq<Action>)
    requires Legal(run) && At(m, After(run), Blocked(Modify(op)))
    ensures Shown(run, longer, m.session, ResumedModify(RoomOf(After(run)), m, op), Modify(op))
    ensures if Waits(After(run).locks, m.txnId, op.key)
            then m.txnId !in After(longer).txns && Adds(After(run), After(longer), m.txnId, Abort)
            else Tells(After(run), After(longer), m.txnId, Wrote(op))
                 && Hold(After(longer).locks, m.txnId, op.key) == Exclusive
  {
    if Waits(After(run).locks, m.txnId, op.key) {
      longer := GiveUpRun(run, m, Modify(op));
    } else {
      WhatWasAskedFor(run, m, Modify(op));
      var woken := Moved(run, m, Blocked(Modify(op)), Wake);
      longer := Moved(woken, m, Holding(Modify(op)), Finish);
      GoesOn(run, woken, longer, m.session);
    }
  }

  /** The client has seen the key as buffer and store have it; at READ_COMMITTED no lock on it is left. */
  ghost predicate IsRead(run: seq<Action>, longer: seq<Action>, m: Mine, k: Key)
    requires Legal(run) && Legal(longer)
  {
    && Tells(After(run), After(longer), m.txnId, Saw(k, ReadThrough(After(run).store, m.buffer, k)))
    && (Hold(After(longer).locks, m.txnId, k) == NoLock <==> m.level == ReadCommitted)
  }

  lemma GetRun(run: seq<Action>, m: Mine, k: Key) returns (longer: seq<Action>)
    requires Legal(run) && Rests(m, After(run))
    ensures Shown(run, longer, m.session, Gotten(RoomOf(After(run)), m, k), Get(k))
    ensures m.active ==> if Grantable(EntryAt(After(run).locks, k), m.txnId, Shared)
      then IsRead(run, longer, m, k) else Waits(After(longer).locks, m.txnId, k)
    ensures m.active ==> (Gotten(RoomOf(After(run)), m, k).reply == Waiting <==>
                          !Grantable(EntryAt(After(run).locks, k), m.txnId, Shared))
  {
    longer := run;
    if m.active {
      RequestGives(run, m, Get(k));
      var asked := Moved(run, m, Active, Engine.Ask(Get(k)));
      longer := asked;
      if LockTable.Ask(EntryAt(After(run).locks, k), m.txnId, Shared).1 == Granted {
        longer := ReadStep(asked, m, k);
        GoesOn(run, asked, longer, m.session);
      }
    }
  }

  lemma ResumeGetRun(run: seq<Action>, m: Mine, k: Key) returns (longer: seq<Action>)
    requires Legal(run) && At(m, After(run), Blocked(Get(k)))
    ensures Shown(run, longer, m.session, ResumedGet(RoomOf(After(run)), m, k), Get(k))
    ensures if Waits(After(run).locks, m.txnId, k)
            then m.txnId !in After(longer).txns && Adds(After(run), After(longer), m.txnId, Abort)
            else IsRead(run, longer, m, k)
  {
    if Waits(After(run).locks, m.txnId, k) {
      longer := GiveUpRun(run, m, Get(k));
    } else {
      var woken := Moved(run, m, Blocked(Get(k)), Wake);
      longer := ReadStep(woken, m, k);
      GoesOn(run, woken, longer, m.session);
    }
  }

  // ---------------------------------------------------------------- a checkpoint is a run

  /** The state after a checkpoint, with the log truncated as intended. */
  function Checkpointed(s: State): State {
    s.(wal := W.Cover(s.wal), snapshot := Snapshot(s.store, s.wal.flushed, s.leaked),
       truncated := Lower(s.wal.flushed, s.wal.passed))
  }

  lemma CheckpointRun(run: seq<Action>) returns (longer: seq<Action>)
    requires Legal(run) && Enabled(After(run), DraftSnapshot)
    ensures Legal(longer) && run <= longer && After(longer) == Checkpointed(After(run))
  {
    var a := Go(run, DraftSnapshot);
    var b := Go(a, InstallSnapshot);
    longer := Go(b, Truncate);
    Longest(run, a, b);
    Longest(run, b, longer);
  }
}
