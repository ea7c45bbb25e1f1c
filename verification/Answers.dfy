// Which answers of a GET are serializable: exactly when every transaction that commits after
// getting one would have got the same at its place in COMMIT-LSN order.
module Answers {
  import opened Kv
  import opened Serial
  import opened Engine
  import opened EngineLocks
  import opened EngineLog
  import opened EngineData
  import opened Runs
  import opened RunSteps
  import opened Departures
  import Serializability
  import W = Wal

  // ---------------------------------------------------------------- what a client was told stays told

  /** Now and in the history, transaction `t` has this level, and its trace starts like this. */
  ghost predicate Carries(s: State, t: TxnId, level: Isolation, told: seq<Event>) {
    && t < s.nextTxn
    && (t in s.txns ==> s.txns[t].level == level && told <= s.txns[t].trace)
    && (forall i :: 0 <= i < |s.history| && s.history[i].txn == t ==>
          s.history[i].level == level && told <= s.history[i].trace)
  }

  /** A step adds to the trace at its end, if at all, and to the history only the trace itself. */
  lemma MoveTells(s: State, t: TxnId, m: Move)
    requires CanMove(s, t, m)
    ensures var s' := DoMove(s, t, m); var x := s.txns[t];
      && (t in s'.txns ==> x.trace <= s'.txns[t].trace)
      && (s'.history == s.history || s'.history == s.history + [Done(t, s.wal.nextLsn, x.level, x.trace)])
  {
  }

  lemma MoveCarries(s: State, u: TxnId, m: Move, t: TxnId, level: Isolation, told: seq<Event>)
    requires CanMove(s, u, m) && Carries(s, t, level, told)
    ensures Carries(DoMove(s, u, m), t, level, told)
  {
    MoveIsLocal(s, u, m);
    MoveTells(s, u, m);
    MoveKeepsNext(s, u, m);
  }

  lemma StepCarries(s: State, a: Action, t: TxnId, level: Isolation, told: seq<Event>)
    requires Enabled(s, a) && Carries(s, t, level, told)
    ensures Carries(Do(s, a), t, level, told)
  {
    match a
    case By(u, m) => MoveCarries(s, u, m, t, level, told);
    case _ =>
  }

  lemma {:induction false} RunCarries(run: seq<Action>, longer: seq<Action>, t: TxnId, level: Isolation,
                                      told: seq<Event>)
    requires Legal(run) && Legal(longer) && run <= longer && Carries(After(run), t, level, told)
    ensures Carries(After(longer), t, level, told)
    decreases |longer|
  {
    if |run| < |longer| {
      var init := longer[..|longer| - 1];
      Last(longer);
      RunCarries(run, init, t, level, told);
      StepCarries(After(init), longer[|longer| - 1], t, level, told);
    } else {
      assert run == longer;
    }
  }

  /** A transaction that has not logged COMMIT is not in the history. */
  lemma NotYetThere(s: State, t: TxnId)
    requires LogInv(s) && DataInv(s) && t in s.txns && Uncommitted(s.txns[t].pc)
    ensures t < s.nextTxn && forall i :: 0 <= i < |s.history| ==> s.history[i].txn != t
  {
    var log := W.All(s.wal);
    assert TxnLogged(log, s.wal.flushed, t, s.txns[t]);
    forall i | 0 <= i < |s.history| ensures s.history[i].txn != t {
      Serializability.HistoryAt(log, s.history, i);
    }
  }

  // ---------------------------------------------------------------- serial answers

  /** If `t` has committed, its event `j` is a GET of the key that the serial run answers in the same way. */
  ghost predicate SerialAnswer(s: State, t: TxnId, j: nat, k: Key) {
    forall i :: 0 <= i < |s.history| && s.history[i].txn == t ==>
      var trace := s.history[i].trace;
      && j < |trace| && trace[j].Saw? && trace[j].key == k
      && trace[j].result == ReadThrough(RunAll(s.history[..i]), BufferOf(trace[..j]), k)
  }

  /** However the run goes on from here, without leaking more, the answer is serial. */
  ghost predicate SerialFromHere(run: seq<Action>, t: TxnId, j: nat, k: Key)
    requires Legal(run)
  {
    forall longer :: Legal(longer) && run <= longer && After(longer).leaked == After(run).leaked ==>
      SerialAnswer(After(longer), t, j, k)
  }

  /** What stands for good once a GET of `k` is answered to `t`. */
  lemma AnswerCarries(run: seq<Action>, t: TxnId, k: Key)
    requires Legal(run) && CanMove(After(run), t, Finish) && After(run).txns[t].pc.cmd == Get(k)
    ensures var s := After(run); var x := s.txns[t];
      && x.buffer == BufferOf(x.trace)
      && Carries(DoFinish(s, t), t, x.level, x.trace + [Saw(k, ReadThrough(s.store, x.buffer, k))])
  {
    InvAlways(run);
    var s := After(run);
    NotYetThere(s, t);
    assert TxnTraced(SerialStore(s), s.txns[t], s.leaked);
    AnswerTold(s, t, k);
  }

  lemma AnswerTold(s: State, t: TxnId, k: Key)
    requires CanMove(s, t, Finish) && s.txns[t].pc.cmd == Get(k)
    requires t < s.nextTxn && forall i :: 0 <= i < |s.history| ==> s.history[i].txn != t
    ensures var x := s.txns[t];
      Carries(DoFinish(s, t), t, x.level, x.trace + [Saw(k, ReadThrough(s.store, x.buffer, k))])
  {
  }

  /** At REPEATABLE_READ the answer is serial as long as the key is not leaked. */
  lemma RepeatableIsSerial(run: seq<Action>, t: TxnId, told: seq<Event>, j: nat, k: Key)
    requires Legal(run) && Carries(After(run), t, RepeatableRead, told) && k !in After(run).leaked
    requires j < |told| && told[j].Saw? && told[j].key == k
    ensures SerialAnswer(After(run), t, j, k)
  {
    Serializability.CommittedRunsAreSerial(run);
    var s := After(run);
    forall i | 0 <= i < |s.history| && s.history[i].txn == t
      ensures s.history[i].trace[j]
           == Saw(k, ReadThrough(RunAll(s.history[..i]), BufferOf(s.history[i].trace[..j]), k))
    {
      FaithfulReads(RunAll(s.history[..i]), s.history[i].trace, s.leaked, j);
    }
  }

  /** An own write is answered alike in every order. */
  lemma OwnWriteIsSerial(s: State, t: TxnId, level: Isolation, told: seq<Event>, j: nat, k: Key)
    requires Carries(s, t, level, told) && j < |told| && k in BufferOf(told[..j])
    requires told[j] == Saw(k, Effect(BufferOf(told[..j])[k]))
    ensures SerialAnswer(s, t, j, k)
  {
    forall i | 0 <= i < |s.history| && s.history[i].txn == t
      ensures s.history[i].trace[j] == told[j] && s.history[i].trace[..j] == told[..j]
    {
    }
  }

  // ---------------------------------------------------------------- an answer that is not

  /** The lock of the GET is given back and nobody else has one. */
  ghost predicate Cleared(s: State, s': State, t: TxnId, k: Key) {
    && t in s.txns && t in s'.txns && s'.txns[t] == s.txns[t].(pc := Active)
    && s'.leaked == s.leaked && k !in s'.locks
  }

  lemma ClearKey(run: seq<Action>, t: TxnId, k: Key) returns (longer: seq<Action>)
    requires Legal(run) && t in After(run).txns && After(run).txns[t].pc == Unlocking(k) && k !in After(run).leaked
    requires k in After(run).locks && t in After(run).locks[k].holders
    ensures Legal(longer) && run <= longer && Cleared(After(run), After(longer), t, k)
  {
    var a := AllGiveUp(run, t, k);
    var b := AllLeave(a, t, k);
    longer := FreeKey(b, t, k);
    Longest(run, a, b);
    Longest(run, b, longer);
  }

  /** Somebody else commits another value for the key, and then `t` commits. */
  lemma OvertakenByCommit(run: seq<Action>, t: TxnId, k: Key, seen: Option<Value>) returns (longer: seq<Action>, i: nat)
    requires Legal(run) && t in After(run).txns && After(run).txns[t].pc == Active && k !in After(run).locks
    ensures Legal(longer) && run <= longer && After(longer).leaked == After(run).leaked
    ensures i < |After(longer).history| && After(longer).history[i].txn == t
    ensures After(longer).history[i].trace == After(run).txns[t].trace
    ensures Read(RunAll(After(longer).history[..i]), k) != seen
  {
    var a, u := NewcomerWrites(run, k, Other(seen));
    var b := CommitIsLogged(a, u);
    var c := LogWritesRun(b, t);
    longer := Go(c, By(t, LogCommit));
    Longest(run, a, b);
    Longest(run, b, c);
    Longest(run, c, longer);
    i := |After(b).history|;
    assert After(longer).history[..i] == After(b).history;
    assert k in After(a).txns[u].buffer;
    Serializability.CommittedRunsAreSerial(b);
  }

  lemma ReaderHolds(run: seq<Action>, t: TxnId, k: Key)
    requires Legal(run) && CanMove(After(run), t, Finish) && After(run).txns[t].pc.cmd == Get(k)
    ensures k in After(run).locks && t in After(run).locks[k].holders
  {
    InvAlways(run);
    assert TxnHolds(After(run).locks, t, After(run).txns[t], After(run).leaked);
  }

  /**
   * From every reachable state in which a READ_COMMITTED transaction is about to read a key
   * it has not written, there is a continuation, in which nothing more is leaked, after which
   * it has committed with an answer that the serial run does not give.
   */
  lemma ReadCommittedGoesStale(run: seq<Action>, t: TxnId, k: Key) returns (longer: seq<Action>)
    requires Legal(run) && CanMove(After(run), t, Finish) && After(run).txns[t].pc.cmd == Get(k)
    requires k !in After(run).leaked && After(run).txns[t].level == ReadCommitted && k !in After(run).txns[t].buffer
    ensures Legal(longer) && run + [By(t, Finish)] <= longer && After(longer).leaked == After(run).leaked
    ensures !SerialAnswer(After(longer), t, |After(run).txns[t].trace|, k)
  {
    var x := After(run).txns[t];
    var seen := ReadThrough(After(run).store, x.buffer, k);
    ReaderHolds(run, t, k);
    AnswerCarries(run, t, k);
    Extend(run, By(t, Finish));
    var a := run + [By(t, Finish)];
    var b := ClearKey(a, t, k);
    var i := 0;
    longer, i := OvertakenByCommit(b, t, k, seen);
    Longest(a, b, longer);
    StaleAnswer(After(longer), t, x.trace, k, seen, i);
  }

  lemma StaleAnswer(s: State, t: TxnId, before: seq<Event>, k: Key, seen: Option<Value>, i: nat)
    requires i < |s.history| && s.history[i].txn == t && s.history[i].trace == before + [Saw(k, seen)]
    requires k !in BufferOf(before) && Read(RunAll(s.history[..i]), k) != seen
    ensures !SerialAnswer(s, t, |before|, k)
  {
    assert s.history[i].trace[..|before|] == before;
  }

  /**
   * Which answers are serializable. In every run, when a GET of an unleaked key is answered:
   * in every continuation that leaks nothing more the answer is the one the transaction gets
   * at its place in the serial run, should it commit, if and only if the transaction is at
   * REPEATABLE_READ or has written the key itself.
   */
  lemma SerialAnswerIff(run: seq<Action>, t: TxnId, k: Key)
    requires Legal(run) && CanMove(After(run), t, Finish) && After(run).txns[t].pc.cmd == Get(k)
    requires k !in After(run).leaked && Legal(run + [By(t, Finish)])
    ensures var x := After(run).txns[t];
      SerialFromHere(run + [By(t, Finish)], t, |x.trace|, k) <==> x.level == RepeatableRead || k in x.buffer
  {
    var x := After(run).txns[t];
    var read := run + [By(t, Finish)];
    Extend(run, By(t, Finish));
    if x.level == RepeatableRead || k in x.buffer {
      forall longer | Legal(longer) && read <= longer && After(longer).leaked == After(read).leaked
        ensures SerialAnswer(After(longer), t, |x.trace|, k)
      {
        StaysSerial(run, longer, t, k);
      }
    } else {
      var longer := ReadCommittedGoesStale(run, t, k);
    }
  }

  lemma StaysSerial(run: seq<Action>, longer: seq<Action>, t: TxnId, k: Key)
    requires Legal(run) && CanMove(After(run), t, Finish) && After(run).txns[t].pc.cmd == Get(k)
    requires After(run).txns[t].level == RepeatableRead || k in After(run).txns[t].buffer
    requires Legal(longer) && run + [By(t, Finish)] <= longer
    requires After(run).txns[t].level == RepeatableRead ==> k !in After(longer).leaked
    ensures SerialAnswer(After(longer), t, |After(run).txns[t].trace|, k)
  {
    var s := After(run);
    var x := s.txns[t];
    var told := x.trace + [Saw(k, ReadThrough(s.store, x.buffer, k))];
    AnswerCarries(run, t, k);
    Extend(run, By(t, Finish));
    RunCarries(run + [By(t, Finish)], longer, t, x.level, told);
    assert told[..|x.trace|] == x.trace;
    if k in x.buffer {
      OwnWriteIsSerial(After(longer), t, x.level, told, |x.trace|, k);
    } else {
      RepeatableIsSerial(longer, t, told, |x.trace|, k);
    }
  }
}
