// The whole engine as one labelled transition system. Each action is one critical
// section or one access to shared state; a run is any interleaving of enabled actions.
module Engine {
  import opened Kv
  import opened KeyOrder
  import opened LockTable
  import opened Log
  import opened Serial
  import W = Wal

  /** A command that needs a lock: PUT and DELETE ask for EXCLUSIVE, GET for SHARED. */
  datatype Cmd = Modify(op: Op) | Get(key: Key)

  function KeyOf(c: Cmd): Key {
    if c.Modify? then c.op.key else c.key
  }

  function ModeOf(c: Cmd): LockMode {
    if c.Modify? then Exclusive else Shared
  }

  /** Where a session is inside its transaction. */
  datatype Pc =
    | Starting                                  // it has an id, BEGIN is not logged yet
    | Active                                    // between commands
    | Blocked(cmd: Cmd)                         // asleep in acquireLock
    | Holding(cmd: Cmd)                         // acquireLock returned true
    | Unlocking(key: Key)                       // READ_COMMITTED GET about to release
    | TimedOut                                  // acquireLock returned false
    | Logging(todo: seq<Op>)                    // in commit, operations still to log
    | Awaiting(lsn: Lsn)                        // COMMIT logged, in waitForCommit
    | Applying(lsn: Lsn, todo: seq<Op>)         // acknowledged, operations still to apply
    | Aborting                                  // ABORT logged, locks still held

  datatype Txn = Txn(
    session: SessionId,
    level: Isolation,
    pc: Pc,
    buffer: map<Key, Write>,
    trace: seq<Event>)        // history: what the client did and saw

  datatype Snapshot = Snapshot(
    store: Store,
    lsn: Lsn,
    leaked: set<Key>)         // history: the keys leaked when it was drafted

  datatype Checkpoint = NoCheckpoint | Drafted(draft: Snapshot) | Installed(lsn: Lsn)

  datatype State = State(
    locks: Table,
    txns: map<TxnId, Txn>,    // the transactions in progress, at most one per session
    nextTxn: TxnId,
    store: Store,
    wal: W.Wal,
    snapshot: Snapshot,       // the data file
    checkpoint: Checkpoint,   // how far a running checkpoint has got
    truncated: Lsn,           // the log file holds the written records above this LSN
    // history, never read by an action
    history: seq<Done>,       // transactions with a logged COMMIT, in LSN order
    leaked: set<Key>,         // keys whose EXCLUSIVE lock a READ_COMMITTED GET gave up
    author: map<Key, Lsn>,    // the COMMIT LSN of the last transaction applied to each key
    acked: set<Lsn>)          // COMMIT LSNs for which waitForCommit has returned

  /** The data file before the first checkpoint: there is none. */
  const NO_SNAPSHOT := Snapshot(map[], 0, {})

  const INIT := State(map[], map[], 1, map[], W.FRESH, NO_SNAPSHOT, NoCheckpoint, 0, [], {}, map[], {})

  /** What a session does next inside its transaction. */
  datatype Move =
    | LogBegin
    | Ask(cmd: Cmd)
    | Wake
    | TimeOut
    | Finish
    | Unlock
    | StartCommit
    | LogNext
    | LogCommit
    | Acknowledge
    | ApplyNext
    | AbortTxn
    | ReleaseLocks

  datatype Action =
    | BeginTxn(session: SessionId, level: Isolation)
    | By(t: TxnId, move: Move)
    | Fetch                   // the flusher takes the buffer
    | WriteRecord             // the flusher hands one record to the log stream
    | PassOn                  // the flusher flushes the log stream
    | Sync                    // the flusher syncs the log file
    | DraftSnapshot           // checkpoint: sync, then guard, LSN and store read together
    | InstallSnapshot         // checkpoint: rename over the data file
    | Truncate                // checkpoint: drop the covered records from the file, and sync it

  /** All writes of a buffer, in key order: what commit logs and then applies. */
  function Writes(buffer: map<Key, Write>): seq<Op> {
    OpsFor(buffer, Sorted(buffer.Keys))
  }

  predicate CanMove(s: State, t: TxnId, m: Move) {
    t in s.txns &&
    var pc := s.txns[t].pc;
    match m
    case LogBegin => pc == Starting
    case Ask(_) => pc == Active
    case Wake => pc.Blocked? && !Waits(s.locks, t, KeyOf(pc.cmd))
    case TimeOut => pc.Blocked? && Waits(s.locks, t, KeyOf(pc.cmd))
    case Finish => pc.Holding?
    case Unlock => pc.Unlocking?
    case StartCommit => pc == Active
    case LogNext => pc.Logging? && pc.todo != []
    case LogCommit => pc == Logging([])
    case Acknowledge => pc.Awaiting? && s.wal.flushed >= pc.lsn
    case ApplyNext => pc.Applying? && pc.todo != []
    case AbortTxn => pc == Active || pc == TimedOut
    case ReleaseLocks => pc == Aborting || (pc.Applying? && pc.todo == [])
  }

  predicate Enabled(s: State, a: Action) {
    match a
    case BeginTxn(session, _) => forall t :: t in s.txns ==> s.txns[t].session != session
    case By(t, m) => CanMove(s, t, m)
    case Fetch => !s.wal.flushing
    case WriteRecord => s.wal.hands != []
    case PassOn => s.wal.flushing && s.wal.hands == []
    case Sync => s.wal.flushing && s.wal.hands == [] && s.wal.passed == |s.wal.written|
    case DraftSnapshot => s.txns == map[] && s.checkpoint.NoCheckpoint?
    case InstallSnapshot => s.checkpoint.Drafted?
    case Truncate => s.checkpoint.Installed?
  }

  /** A GET at READ_COMMITTED of a key in the transaction's own buffer gives up its write lock. */
  predicate Leaks(x: Txn) {
    x.pc.Holding? && x.pc.cmd.Get? && x.level == ReadCommitted && x.pc.cmd.key in x.buffer
  }

  function With(s: State, t: TxnId, x: Txn): State {
    s.(txns := s.txns[t := x])
  }

  /** acquireLock up to its return or its wait. */
  function DoAsk(s: State, t: TxnId, cmd: Cmd): State
    requires t in s.txns
  {
    var verdict := LockTable.Ask(EntryAt(s.locks, KeyOf(cmd)), t, ModeOf(cmd)).1;
    With(s, t, s.txns[t].(pc := if verdict == Granted then Holding(cmd) else Blocked(cmd)))
      .(locks := Request(s.locks, t, KeyOf(cmd), ModeOf(cmd)))
  }

  /** The rest of PUT, DELETE or GET once the lock is there. */
  function DoFinish(s: State, t: TxnId): State
    requires CanMove(s, t, Finish)
  {
    var x := s.txns[t];
    match x.pc.cmd
    case Modify(op) =>
      With(s, t, x.(pc := Active, buffer := x.buffer[op.key := op.write], trace := x.trace + [Wrote(op)]))
    case Get(k) =>
      With(s, t, x.(pc := if x.level == ReadCommitted then Unlocking(k) else Active,
                    trace := x.trace + [Saw(k, ReadThrough(s.store, x.buffer, k))]))
        .(leaked := if Leaks(x) then s.leaked + {k} else s.leaked)
  }

  function DoMove(s: State, t: TxnId, m: Move): State
    requires CanMove(s, t, m)
  {
    var x := s.txns[t];
    match m
    case LogBegin => With(s, t, x.(pc := Active)).(wal := W.Append(s.wal, t, Begin))
    case Ask(cmd) => DoAsk(s, t, cmd)
    case Wake => With(s, t, x.(pc := Holding(x.pc.cmd)))
    case TimeOut => With(s, t, x.(pc := TimedOut)).(locks := GiveUp(s.locks, t, KeyOf(x.pc.cmd)))
    case Finish => DoFinish(s, t)
    case Unlock => With(s, t, x.(pc := Active)).(locks := Release(s.locks, t, x.pc.key))
    case StartCommit => With(s, t, x.(pc := Logging(Writes(x.buffer))))
    case LogNext =>
      With(s, t, x.(pc := Logging(x.pc.todo[1..]))).(wal := W.Append(s.wal, t, Change(x.pc.todo[0])))
    case LogCommit =>
      With(s, t, x.(pc := Awaiting(s.wal.nextLsn)))
        .(wal := W.Append(s.wal, t, Commit), history := s.history + [Done(t, s.wal.nextLsn, x.level, x.trace)])
    case Acknowledge =>
      With(s, t, x.(pc := Applying(x.pc.lsn, Writes(x.buffer)))).(acked := s.acked + {x.pc.lsn})
    case ApplyNext =>
      With(s, t, x.(pc := Applying(x.pc.lsn, x.pc.todo[1..])))
        .(store := Apply(s.store, x.pc.todo[0]), author := s.author[x.pc.todo[0].key := x.pc.lsn])
    case AbortTxn => With(s, t, x.(pc := Aborting, buffer := map[])).(wal := W.Append(s.wal, t, Abort))
    case ReleaseLocks => s.(txns := s.txns - {t}, locks := ReleaseAll(s.locks, t))
  }

  function Lower(a: Lsn, b: Lsn): Lsn {
    if a < b then a else b
  }

  function Do(s: State, a: Action): State
    requires Enabled(s, a)
  {
    match a
    case BeginTxn(session, level) =>
      With(s, s.nextTxn, Txn(session, level, Starting, map[], [])).(nextTxn := s.nextTxn + 1)
    case By(t, m) => DoMove(s, t, m)
    case Fetch => s.(wal := W.Fetch(s.wal))
    case WriteRecord => s.(wal := W.WriteOne(s.wal))
    case PassOn => s.(wal := W.Pass(s.wal))
    case Sync => s.(wal := W.Sync(s.wal))
    case DraftSnapshot =>
      s.(wal := W.Cover(s.wal), checkpoint := Drafted(Snapshot(s.store, s.wal.flushed, s.leaked)))
    case InstallSnapshot =>
      s.(snapshot := s.checkpoint.draft, checkpoint := Installed(s.checkpoint.draft.lsn))
    case Truncate =>
      s.(wal := W.Cover(s.wal), truncated := Lower(s.checkpoint.lsn, s.wal.passed), checkpoint := NoCheckpoint)
  }

  // ---------------------------------------------------------------- runs

  /** The action at this place of the run is enabled in one state and leads to the next. */
  ghost predicate StepAt(run: seq<Action>, states: seq<State>, i: nat)
    requires i < |run| < |states|
  {
    Enabled(states[i], run[i]) && states[i + 1] == Do(states[i], run[i])
  }

  /** The run goes through these states, from the initial one on. */
  ghost predicate Visits(run: seq<Action>, states: seq<State>) {
    && |states| == |run| + 1
    && states[0] == INIT
    && forall i :: 0 <= i < |run| ==> StepAt(run, states, i)
  }

  /** A run: actions from the initial state, each enabled where it happens. */
  ghost predicate Legal(run: seq<Action>) {
    exists states :: Visits(run, states)
  }

  ghost function States(run: seq<Action>): (states: seq<State>)
    requires Legal(run)
    ensures Visits(run, states)
  {
    var states :| Visits(run, states);
    states
  }

  ghost function After(run: seq<Action>): State
    requires Legal(run)
  {
    States(run)[|run|]
  }

  lemma Start()
    ensures Legal([]) && After([]) == INIT
  {
    assert Visits([], [INIT]);
  }

  lemma Extend(run: seq<Action>, a: Action)
    requires Legal(run) && Enabled(After(run), a)
    ensures Legal(run + [a]) && After(run + [a]) == Do(After(run), a)
  {
    var longer, states := run + [a], States(run) + [Do(After(run), a)];
    forall i | 0 <= i < |longer| ensures StepAt(longer, states, i) {
      if i < |run| {
        assert StepAt(run, States(run), i);
      }
    }
    assert Visits(longer, states);
    OneWay(longer, states, States(longer), |longer|);
  }

  /** A run goes through one sequence of states only. */
  lemma {:induction false} OneWay(run: seq<Action>, a: seq<State>, b: seq<State>, n: nat)
    requires Visits(run, a) && Visits(run, b) && n <= |run|
    ensures a[n] == b[n]
  {
    if n > 0 {
      OneWay(run, a, b, n - 1);
      assert StepAt(run, a, n - 1) && StepAt(run, b, n - 1);
    }
  }

  lemma LegalPrefix(run: seq<Action>, n: nat)
    requires Legal(run) && n <= |run|
    ensures Legal(run[..n]) && After(run[..n]) == States(run)[n]
  {
    var part, states := run[..n], States(run)[..n + 1];
    forall i | 0 <= i < n ensures StepAt(part, states, i) {
      assert StepAt(run, States(run), i);
    }
    assert Visits(part, states);
    OneWay(part, states, States(part), n);
  }

  /** The last action of a run. */
  lemma Last(run: seq<Action>)
    requires Legal(run) && run != []
    ensures var init := run[..|run| - 1];
      && Legal(init) && Enabled(After(init), run[|run| - 1])
      && After(run) == Do(After(init), run[|run| - 1])
  {
    LegalPrefix(run, |run| - 1);
    assert StepAt(run, States(run), |run| - 1);
  }

  /** A session's step leaves every other transaction alone and keeps its own session and level. */
  lemma MoveIsLocal(s: State, t: TxnId, m: Move)
    requires CanMove(s, t, m)
    ensures var s' := DoMove(s, t, m);
      && (forall u :: u in s.txns && u != t ==> u in s'.txns && s'.txns[u] == s.txns[u])
      && (forall u :: u in s'.txns ==> u in s.txns)
      && (t in s'.txns ==> s'.txns[t].session == s.txns[t].session && s'.txns[t].level == s.txns[t].level)
  {
    if m != ReleaseLocks {
      MoveReplaces(s, t, m);
    }
  }

  /** Every move but the last replaces the record of the transaction that makes it. */
  lemma MoveReplaces(s: State, t: TxnId, m: Move)
    requires CanMove(s, t, m) && m != ReleaseLocks
    ensures var s' := DoMove(s, t, m);
      && t in s'.txns && s'.txns == s.txns[t := s'.txns[t]]
      && s'.txns[t].session == s.txns[t].session && s'.txns[t].level == s.txns[t].level
  {
  }

  // ---------------------------------------------------------------- along a run

  /** The property holds in every state of the run from step `from` on. */
  ghost predicate Throughout(run: seq<Action>, from: nat, p: State -> bool) {
    forall n :: from <= n <= |run| ==> Legal(run[..n]) && p(After(run[..n]))
  }

  /** No action of the run from step `from` on is of this kind where it happens. */
  ghost predicate Never(run: seq<Action>, from: nat, q: (State, Action) -> bool) {
    forall i :: from <= i < |run| ==> Legal(run[..i]) && !q(After(run[..i]), run[i])
  }

  /** One step from any state of a run keeps the property exactly if it is not of the kind `q`. */
  ghost predicate EndsOnlyBy(p: State -> bool, q: (State, Action) -> bool) {
    forall run, a :: Legal(run) && Enabled(After(run), a) && p(After(run)) ==>
      (p(Do(After(run), a)) <==> !q(After(run), a))
  }

  lemma ThroughoutLonger(run: seq<Action>, from: nat, p: State -> bool, q: (State, Action) -> bool)
    requires Legal(run) && from < |run| && Legal(run[..|run| - 1])
    ensures var init := run[..|run| - 1];
      && (Throughout(run, from, p) <==> Throughout(init, from, p) && p(After(run)))
      && (Never(run, from, q) <==> Never(init, from, q) && !q(After(init), run[|run| - 1]))
  {
    var init := run[..|run| - 1];
    Last(run);
    assert run[..|run|] == run;
    forall n | 0 <= n <= |init| ensures init[..n] == run[..n] {
    }
    assert forall i :: 0 <= i < |init| ==> init[i] == run[i];
  }

  /** A property that only one kind of action can end lasts exactly while no such action happens. */
  lemma {:induction false} ThroughoutIff(run: seq<Action>, from: nat, p: State -> bool, q: (State, Action) -> bool)
    requires Legal(run) && from <= |run| && Legal(run[..from]) && p(After(run[..from])) && EndsOnlyBy(p, q)
    ensures Throughout(run, from, p) <==> Never(run, from, q)
    decreases |run|
  {
    if from < |run| {
      var init := run[..|run| - 1];
      assert init[..from] == run[..from];
      Last(run);
      ThroughoutIff(init, from, p, q);
      ThroughoutLonger(run, from, p, q);
      if Throughout(init, from, p) {
        assert init[..|init|] == init;
      }
    }
  }
}
