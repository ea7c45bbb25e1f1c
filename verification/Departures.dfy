// Making room: from any state of any run the waiters on a key can give up, its holders can end
// their transactions, and a newcomer can then write the key and commit.
module Departures {
  import opened Kv
  import opened LockTable
  import opened LockFacts
  import opened Engine
  import opened EngineLocks
  import opened EngineLog
  import opened EngineData
  import opened Runs
  import opened RunSteps
  import ReadLocks
  import W = Wal

  // ---------------------------------------------------------------- the waiters give up

  /** Nobody else has moved, unless to give up a wait. */
  ghost predicate OthersQuit(s: State, s': State, t: TxnId) {
    forall v :: v in s'.txns && v != t ==> v in s.txns && (s'.txns[v] == s.txns[v] || s'.txns[v].pc == TimedOut)
  }

  /** Only sleepers on the key have moved, and only to give up. */
  ghost predicate Emptied(s: State, s': State, t: TxnId, k: Key) {
    && k in s.locks && k in s'.locks && s'.locks[k] == s.locks[k].(queue := [])
    && t in s.txns && t in s'.txns && s'.txns[t] == s.txns[t]
    && OthersQuit(s, s', t)
    && s' == s.(locks := s'.locks, txns := s'.txns)
  }

  lemma OneGivesUp(run: seq<Action>, t: TxnId, k: Key) returns (longer: seq<Action>)
    requires Legal(run) && t in After(run).txns && !After(run).txns[t].pc.Blocked?
    requires k in After(run).locks && After(run).locks[k].queue != []
    ensures Legal(longer) && run <= longer
    ensures var s := After(run); var s' := After(longer);
      && t in s'.txns && s'.txns[t] == s.txns[t]
      && OthersQuit(s, s', t)
      && s' == s.(locks := s'.locks, txns := s'.txns) && k in s'.locks
      && s'.locks[k] == s.locks[k].(queue := s.locks[k].queue[1..])
  {
    InvAlways(run);
    var s := After(run);
    var q := s.locks[k].queue;
    var u := q[0].txn;
    assert WaiterBlocked(s, k, q[0]);
    FrontQuits(q);
    longer := Go(run, By(u, TimeOut));
  }

  lemma FrontQuits(q: seq<Waiter>)
    requires q != [] && Distinct(q)
    ensures InQueue(q, q[0].txn) && Without(q, q[0].txn) == q[1..]
  {
    var t := q[0].txn;
    forall w | w in q[1..] ensures w.txn != t {
      var i :| 0 <= i < |q[1..]| && q[1..][i] == w;
      assert q[i + 1] == w;
    }
    NotInQueue(q[1..], t);
    WithoutStranger(q[1..], t);
  }

  lemma {:induction false} AllGiveUp(run: seq<Action>, t: TxnId, k: Key) returns (longer: seq<Action>)
    requires Legal(run) && t in After(run).txns && !After(run).txns[t].pc.Blocked?
    requires k in After(run).locks
    ensures Legal(longer) && run <= longer && Emptied(After(run), After(longer), t, k)
    decreases if k in After(run).locks then |After(run).locks[k].queue| else 0
  {
    if After(run).locks[k].queue == [] {
      longer := run;
    } else {
      var next := OneGivesUp(run, t, k);
      longer := AllGiveUp(next, t, k);
      Longest(run, next, longer);
    }
  }

  // ---------------------------------------------------------------- the holders leave

  /** Nobody waits on the key, and `t` and others hold it. */
  predicate Crowded(s: State, t: TxnId, k: Key) {
    t in s.txns && k in s.locks && s.locks[k].queue == [] && t in s.locks[k].holders
  }

  /** What `u` has done meanwhile leaves `t` alone, and takes nobody's hold of the key but its own. */
  ghost predicate Aside(s: State, s': State, u: TxnId, t: TxnId, k: Key) {
    && Crowded(s, t, k) && Crowded(s', t, k) && s'.txns[t] == s.txns[t] && s'.leaked == s.leaked
    && s'.locks[k].holders <= s.locks[k].holders <= s'.locks[k].holders + {u}
  }

  lemma AsideTwice(s: State, mid: State, s': State, u: TxnId, t: TxnId, k: Key)
    requires Aside(s, mid, u, t, k) && Aside(mid, s', u, t, k)
    ensures Aside(s, s', u, t, k)
  {
  }

  lemma MoveAside(s: State, u: TxnId, m: Move, t: TxnId, k: Key)
    requires CanMove(s, u, m) && !m.Ask? && u != t && Crowded(s, t, k)
    requires m == Finish ==> !Leaks(s.txns[u])
    ensures Aside(s, DoMove(s, u, m), u, t, k)
  {
    MoveIsLocal(s, u, m);
    MoveLocks(s, u, m);
    LocksAside(s.locks, u, t, k);
  }

  /** Which moves but a request touch the lock table, and that no other than a read-back leaks. */
  lemma MoveLocks(s: State, u: TxnId, m: Move)
    requires CanMove(s, u, m) && !m.Ask?
    ensures DoMove(s, u, m).locks == match m
      case TimeOut => GiveUp(s.locks, u, KeyOf(s.txns[u].pc.cmd))
      case Unlock => Release(s.locks, u, s.txns[u].pc.key)
      case ReleaseLocks => ReleaseAll(s.locks, u)
      case _ => s.locks
    ensures (m == Finish ==> !Leaks(s.txns[u])) ==> DoMove(s, u, m).leaked == s.leaked
  {
  }

  lemma LocksAside(locks: Table, u: TxnId, t: TxnId, k: Key)
    requires k in locks && locks[k].queue == [] && t in locks[k].holders && t != u
    ensures forall j :: k in GiveUp(locks, u, j) && GiveUp(locks, u, j)[k] == locks[k]
    ensures forall j :: k in Release(locks, u, j) && (j != k ==> Release(locks, u, j)[k] == locks[k])
    ensures Release(locks, u, k)[k] == locks[k].(holders := locks[k].holders - {u})
    ensures k in ReleaseAll(locks, u) && ReleaseAll(locks, u)[k] == locks[k].(holders := locks[k].holders - {u})
  {
    assert t in locks[k].holders - {u};
    assert u !in locks[k].holders ==> locks[k].holders - {u} == locks[k].holders;
  }

  lemma GoAside(run: seq<Action>, u: TxnId, m: Move, t: TxnId, k: Key) returns (longer: seq<Action>)
    requires Legal(run) && CanMove(After(run), u, m) && !m.Ask? && u != t && Crowded(After(run), t, k)
    requires m == Finish ==> !Leaks(After(run).txns[u])
    ensures Legal(longer) && run <= longer && Aside(After(run), After(longer), u, t, k)
    ensures After(longer) == DoMove(After(run), u, m)
  {
    longer := Go(run, By(u, m));
    MoveAside(After(run), u, m, t, k);
  }

  /** A holder of a key that `t` has read without leaking it does not leak anything. */
  lemma SafeToFinish(run: seq<Action>, u: TxnId, t: TxnId, k: Key)
    requires Legal(run) && u != t && Crowded(After(run), t, k) && k !in After(run).leaked
    requires u in After(run).txns && u in After(run).locks[k].holders && After(run).txns[u].pc.Holding?
    ensures !Leaks(After(run).txns[u])
  {
    var s := After(run);
    InvAlways(run);
    ReadLocks.FewAlways(run);
    assert ReadLocks.HoldsFew(s.locks, u, s.txns[u], s.leaked);
    if k in s.txns[u].buffer {
      WriterExcludes(s, u, t, k);
    }
  }

  /** Where a transaction can be sent off: at rest, on its way out, or committing. */
  predicate Ready(pc: Pc) {
    pc == Active || pc == TimedOut || pc == Aborting || pc.Logging? || pc.Awaiting? || pc.Applying?
  }

  /** `u` comes to the end of what it is doing on behalf of a command. */
  lemma EndCommand(run: seq<Action>, u: TxnId, t: TxnId, k: Key) returns (longer: seq<Action>)
    requires Legal(run) && u != t && Crowded(After(run), t, k) && k !in After(run).leaked
    requires u in After(run).txns && u in After(run).locks[k].holders && !After(run).txns[u].pc.Blocked?
    ensures Legal(longer) && run <= longer && Aside(After(run), After(longer), u, t, k)
    ensures u in After(longer).txns && Ready(After(longer).txns[u].pc)
  {
    longer := run;
    match After(run).txns[u].pc
    case Starting => longer := GoAside(run, u, LogBegin, t, k);
    case Holding(_) =>
      SafeToFinish(run, u, t, k);
      var a := GoAside(run, u, Finish, t, k);
      longer := a;
      if After(a).txns[u].pc.Unlocking? {
        longer := GoAside(a, u, Unlock, t, k);
        Longest(run, a, longer);
        AsideTwice(After(run), After(a), After(longer), u, t, k);
      }
    case Unlocking(_) => longer := GoAside(run, u, Unlock, t, k);
    case _ =>
  }

  /** A sleeper wakes up or gives up; either way it keeps what it holds. */
  lemma EndWait(run: seq<Action>, u: TxnId, t: TxnId, k: Key) returns (longer: seq<Action>)
    requires Legal(run) && u != t && Crowded(After(run), t, k)
    requires u in After(run).txns && u in After(run).locks[k].holders && After(run).txns[u].pc.Blocked?
    ensures Legal(longer) && run <= longer && Aside(After(run), After(longer), u, t, k)
    ensures u in After(longer).txns && !After(longer).txns[u].pc.Blocked? && u in After(longer).locks[k].holders
  {
    var s := After(run);
    var m := if Waits(s.locks, u, KeyOf(s.txns[u].pc.cmd)) then TimeOut else Wake;
    longer := GoAside(run, u, m, t, k);
    LocksAside(s.locks, u, t, k);
  }

  lemma Settle(run: seq<Action>, u: TxnId, t: TxnId, k: Key) returns (longer: seq<Action>)
    requires Legal(run) && u != t && Crowded(After(run), t, k) && k !in After(run).leaked
    requires u in After(run).txns && u in After(run).locks[k].holders
    ensures Legal(longer) && run <= longer && Aside(After(run), After(longer), u, t, k)
    ensures u in After(longer).txns && Ready(After(longer).txns[u].pc)
  {
    if After(run).txns[u].pc.Blocked? {
      var a := EndWait(run, u, t, k);
      longer := EndCommand(a, u, t, k);
      Longest(run, a, longer);
      AsideTwice(After(run), After(a), After(longer), u, t, k);
    } else {
      longer := EndCommand(run, u, t, k);
    }
  }

  /** A commit under way is brought to its last step. */
  lemma EndCommit(run: seq<Action>, u: TxnId, t: TxnId, k: Key) returns (longer: seq<Action>)
    requires Legal(run) && u != t && Crowded(After(run), t, k) && u in After(run).txns
    requires After(run).txns[u].pc.Logging? || After(run).txns[u].pc.Awaiting? || After(run).txns[u].pc.Applying?
    ensures Legal(longer) && run <= longer && Aside(After(run), After(longer), u, t, k)
    ensures CanMove(After(longer), u, ReleaseLocks)
  {
    var a := run;
    if After(run).txns[u].pc.Logging? {
      a := EndLogging(run, u, t, k);
    }
    var b := a;
    if After(a).txns[u].pc.Awaiting? {
      b := EndAwaiting(a, u, t, k);
    }
    longer := ApplyRest(b, u, After(b).txns[u].pc.todo);
    Longest(run, a, b);
    Longest(run, b, longer);
    AsideTwice(After(run), After(a), After(b), u, t, k);
    AsideTwice(After(run), After(b), After(longer), u, t, k);
  }

  lemma EndLogging(run: seq<Action>, u: TxnId, t: TxnId, k: Key) returns (longer: seq<Action>)
    requires Legal(run) && u != t && Crowded(After(run), t, k) && u in After(run).txns && After(run).txns[u].pc.Logging?
    ensures Legal(longer) && run <= longer && Aside(After(run), After(longer), u, t, k)
    ensures u in After(longer).txns && After(longer).txns[u].pc.Awaiting?
  {
    var a := LogRest(run, u);
    longer := GoAside(a, u, LogCommit, t, k);
    Longest(run, a, longer);
    AsideTwice(After(run), After(a), After(longer), u, t, k);
  }

  lemma EndAwaiting(run: seq<Action>, u: TxnId, t: TxnId, k: Key) returns (longer: seq<Action>)
    requires Legal(run) && u != t && Crowded(After(run), t, k)
    requires u in After(run).txns && After(run).txns[u].pc.Awaiting?
    ensures Legal(longer) && run <= longer && Aside(After(run), After(longer), u, t, k)
    ensures u in After(longer).txns && After(longer).txns[u].pc.Applying?
  {
    var a := FlushFor(run, u);
    longer := GoAside(a, u, Acknowledge, t, k);
    Longest(run, a, longer);
    AsideTwice(After(run), After(a), After(longer), u, t, k);
  }

  /** Whatever the flusher is doing, it can reach what `u` waits for. */
  lemma FlushFor(run: seq<Action>, u: TxnId) returns (longer: seq<Action>)
    requires Legal(run) && u in After(run).txns && After(run).txns[u].pc.Awaiting?
    ensures Legal(longer) && run <= longer && OnlyWal(After(run), After(longer))
    ensures CanMove(After(longer), u, Acknowledge)
  {
    InvAlways(run);
    var s := After(run);
    assert TxnLogged(W.All(s.wal), s.wal.flushed, u, s.txns[u]);
    longer := FlushEverything(run);
  }

  /** By commit or abort, `u` comes to the point where it releases its locks. */
  lemma SendOff(run: seq<Action>, u: TxnId, t: TxnId, k: Key) returns (longer: seq<Action>)
    requires Legal(run) && u != t && Crowded(After(run), t, k) && u in After(run).txns && Ready(After(run).txns[u].pc)
    ensures Legal(longer) && run <= longer && Aside(After(run), After(longer), u, t, k)
    ensures CanMove(After(longer), u, ReleaseLocks)
  {
    match After(run).txns[u].pc
    case Active => longer := GoAside(run, u, AbortTxn, t, k);
    case TimedOut => longer := GoAside(run, u, AbortTxn, t, k);
    case Aborting => longer := run;
    case _ => longer := EndCommit(run, u, t, k);
  }

  lemma HolderIsThere(run: seq<Action>, u: TxnId, k: Key)
    requires Legal(run) && k in After(run).locks && u in After(run).locks[k].holders
    ensures u in After(run).txns
  {
    InvAlways(run);
  }

  /** A holder of the key other than `t` ends its transaction. */
  lemma OneLeaves(run: seq<Action>, u: TxnId, t: TxnId, k: Key) returns (longer: seq<Action>)
    requires Legal(run) && u != t && Crowded(After(run), t, k) && k !in After(run).leaked
    requires u in After(run).locks[k].holders
    ensures Legal(longer) && run <= longer && Aside(After(run), After(longer), u, t, k)
    ensures u !in After(longer).locks[k].holders
  {
    HolderIsThere(run, u, k);
    var a := Settle(run, u, t, k);
    var b := SendOff(a, u, t, k);
    longer := GoAside(b, u, ReleaseLocks, t, k);
    LocksAside(After(b).locks, u, t, k);
    Longest(run, a, b);
    Longest(run, b, longer);
    AsideTwice(After(run), After(a), After(b), u, t, k);
    AsideTwice(After(run), After(b), After(longer), u, t, k);
  }

  /** Only `t` is left, as it was. */
  ghost predicate Alone(s: State, s': State, t: TxnId, k: Key) {
    && Crowded(s', t, k) && t in s.txns && s'.txns[t] == s.txns[t] && s'.leaked == s.leaked
    && s'.locks[k].holders == {t}
  }

  lemma {:induction false} AllLeave(run: seq<Action>, t: TxnId, k: Key) returns (longer: seq<Action>)
    requires Legal(run) && Crowded(After(run), t, k) && k !in After(run).leaked
    ensures Legal(longer) && run <= longer && Alone(After(run), After(longer), t, k)
    decreases if k in After(run).locks then |After(run).locks[k].holders| else 0
  {
    var holders := After(run).locks[k].holders;
    if u :| u in holders && u != t {
      var next := OneLeaves(run, u, t, k);
      assert After(next).locks[k].holders == holders - {u};
      longer := AllLeave(next, t, k);
      Longest(run, next, longer);
    } else {
      longer := run;
      assert holders == {t};
    }
  }

  // ---------------------------------------------------------------- somebody else writes the key

  /** The GET is over and the key is free. */
  ghost predicate Freed(s: State, s': State, t: TxnId, k: Key) {
    && t in s.txns && t in s'.txns && s'.txns[t] == s.txns[t].(pc := Active) && k !in s'.locks
    && OthersQuit(s, s', t)
    && s' == s.(locks := s'.locks, txns := s'.txns)
  }

  lemma FreeKey(run: seq<Action>, t: TxnId, k: Key) returns (longer: seq<Action>)
    requires Legal(run) && t in After(run).txns && After(run).txns[t].pc == Unlocking(k)
    requires k in After(run).locks && After(run).locks[k].holders == {t}
    ensures Legal(longer) && run <= longer && Freed(After(run), After(longer), t, k)
  {
    var a := AllGiveUp(run, t, k);
    var e := After(a).locks[k];
    assert {t} - {t} == {};
    assert Spent(Drop(e, t));
    longer := Go(a, By(t, Unlock));
    Longest(run, a, longer);
  }

  /** A session number that nobody uses. */
  lemma {:induction false} FreshSession(txns: map<TxnId, Txn>) returns (session: SessionId)
    ensures forall t :: t in txns ==> txns[t].session < session
    decreases |txns|
  {
    if txns == map[] {
      session := 0;
    } else {
      var t :| t in txns;
      var rest := txns - {t};
      assert rest.Keys == txns.Keys - {t};
      var below := FreshSession(rest);
      session := below + txns[t].session + 1;
      forall u | u in txns ensures txns[u].session < session {
        if u != t {
          assert u in rest && rest[u] == txns[u];
        }
      }
    }
  }

  /** A write that leaves something else at its key. */
  function Other(value: Option<Value>): (w: Write)
    ensures Effect(w) != value
  {
    if value.Some? then Delete else Put([])
  }

  /** A newcomer `u` has written the key and is active. */
  ghost predicate Entered(s: State, s': State, u: TxnId, k: Key, w: Write) {
    && u !in s.txns && u in s'.txns && s'.txns == s.txns[u := s'.txns[u]]
    && s'.txns[u].pc == Active && s'.txns[u].buffer == map[k := w]
    && s'.store == s.store && s'.leaked == s.leaked && s'.history == s.history && s'.checkpoint == s.checkpoint
  }

  lemma NewcomerWrites(run: seq<Action>, k: Key, w: Write) returns (longer: seq<Action>, u: TxnId)
    requires Legal(run) && k !in After(run).locks
    ensures Legal(longer) && run <= longer && Entered(After(run), After(longer), u, k, w)
  {
    NextIsNew(run);
    var s := After(run);
    var session := FreshSession(s.txns);
    u := s.nextTxn;
    var a := BeginRun(run, session, RepeatableRead);
    longer := FirstWrite(a, u, Op(k, w));
    Longest(run, a, longer);
    assert After(longer).txns == s.txns[u := After(longer).txns[u]];
  }

  // ---------------------------------------------------------------- and commits

  /** `t` waits for its COMMIT; nobody else has moved. */
  ghost predicate Logged(s: State, s': State, t: TxnId) {
    && t in s.txns && t in s'.txns && s'.txns == s.txns[t := s'.txns[t]]
    && s'.txns[t].buffer == s.txns[t].buffer && s'.txns[t].pc.Awaiting?
    && s'.store == s.store && s'.leaked == s.leaked && s'.checkpoint == s.checkpoint
  }

  lemma CommitIsLogged(run: seq<Action>, t: TxnId) returns (longer: seq<Action>)
    requires Legal(run) && t in After(run).txns && After(run).txns[t].pc == Active
    ensures Legal(longer) && run <= longer && Logged(After(run), After(longer), t)
    ensures forall k :: k in After(run).txns[t].buffer ==>
      Read(SerialStore(After(longer)), k) == Effect(After(run).txns[t].buffer[k])
  {
    var a := LogWritesRun(run, t);
    longer := Go(a, By(t, LogCommit));
    Longest(run, a, longer);
    assert After(longer).txns == After(run).txns[t := After(longer).txns[t]];
    SerialShows(a, t);
  }

  /** Logging COMMIT puts the buffered writes on top of the meaning of the log. */
  lemma SerialShows(run: seq<Action>, t: TxnId)
    requires Legal(run) && CanMove(After(run), t, LogCommit)
    ensures forall k :: k in After(run).txns[t].buffer ==>
      Read(SerialStore(DoMove(After(run), t, LogCommit)), k) == Effect(After(run).txns[t].buffer[k])
  {
    var s := After(run);
    InvAlways(run);
    forall k | k in s.txns[t].buffer
      ensures Read(SerialStore(DoMove(s, t, LogCommit)), k) == Effect(s.txns[t].buffer[k])
    {
      CommitOverlays(s, t, k);
    }
  }
}
