// What the clients of the session objects are told, taken together: the results over runs, read
// off the replies of single calls.
module Replies {
  import opened Kv
  import opened Log
  import opened Serial
  import opened Engine
  import opened EngineData
  import opened SessionSteps
  import Answers
  import Runs
  import Serializability
  import W = Wal

  lemma {:induction false} NeverWritten(trace: seq<Event>, k: Key, n: nat)
    requires k !in BufferOf(trace) && n < |trace| && trace[n].Wrote?
    ensures trace[n].op.key != k
  {
    var init := trace[..|trace| - 1];
    if n < |init| {
      NeverWritten(init, k, n);
    }
  }

  /**
   * What get promises the session with these fields when it answers with `r`, whether it had to
   * wait or not: the run has gone on from `run` to `longer`, and what the client has seen is
   * exactly the value in the reply, or nothing.
   */
  ghost predicate IsAnswered(run: seq<Action>, longer: seq<Action>, m: Mine, k: Key, r: Reply) {
    && Legal(run) && Legal(longer) && run <= longer && At(m, After(longer), Active)
    && (r.Value? || r == KeyNotFound)
    && (r.Value? ==> Tells(After(run), After(longer), m.txnId, Saw(k, Some(r.value))))
    && (r == KeyNotFound ==> Tells(After(run), After(longer), m.txnId, Saw(k, None)))
  }

  /** The event that such a reply stands for. */
  function Seen(k: Key, r: Reply): Event {
    if r.Value? then Saw(k, Some(r.value)) else Saw(k, None)
  }

  lemma TraceIsKept(run: seq<Action>, longer: seq<Action>, m: Mine)
    requires Legal(run) && At(m, After(run), Active) && Legal(longer) && run <= longer
    requires m.txnId in After(longer).txns
    ensures After(run).txns[m.txnId].trace <= After(longer).txns[m.txnId].trace
    ensures After(longer).txns[m.txnId].level == m.level
  {
    var s := After(run);
    Runs.InvAlways(run);
    Answers.NotYetThere(s, m.txnId);
    Answers.RunCarries(run, longer, m.txnId, m.level, s.txns[m.txnId].trace);
  }

  lemma UnwrittenIsUntouched(run: seq<Action>, m: Mine, k: Key, i: nat, j: nat)
    requires Legal(run) && At(m, After(run), Active) && k !in m.buffer && i <= j <= |After(run).txns[m.txnId].trace|
    ensures Serializability.Untouched(After(run).txns[m.txnId].trace, k, i, j)
  {
    Runs.InvAlways(run);
    var s := After(run);
    var trace := s.txns[m.txnId].trace;
    assert TxnTraced(SerialStore(s), s.txns[m.txnId], s.leaked);
    forall n | i <= n < j && trace[n].Wrote? ensures trace[n].op.key != k {
      NeverWritten(trace, k, n);
    }
  }

  /**
   * The client of a REPEATABLE_READ session that GETs a key twice in one transaction, without
   * having written it, gets the same reply twice, whatever all sessions do between the calls.
   */
  lemma RepliesRepeat(a: seq<Action>, b: seq<Action>, c: seq<Action>, d: seq<Action>, m: Mine, m': Mine, k: Key,
                      first: Reply, second: Reply)
    requires IsAnswered(a, b, m, k, first) && IsAnswered(c, d, m', k, second) && b <= c
    requires m'.txnId == m.txnId && m.level == RepeatableRead && k !in m'.buffer && k !in After(d).leaked
    ensures first == second
  {
    var t := m.txnId;
    TraceIsKept(b, c, m);
    TraceIsKept(b, d, m);
    var i, j := |After(a).txns[t].trace|, |After(c).txns[t].trace|;
    var trace := After(d).txns[t].trace;
    UnwrittenIsUntouched(d, m', k, i, j);
    assert trace[i] == Seen(k, first) && trace[j] == Seen(k, second);
    Serializability.ReadsRepeat(d, t, k, i, j);
  }

  /**
   * A reply to a REPEATABLE_READ session that later commits is the one that the serial run gives
   * it: with all transactions that committed before it run one by one, and its own commands up to
   * the GET after them, the key has the value in the reply, or none.
   */
  lemma ReplyIsSerial(a: seq<Action>, b: seq<Action>, c: seq<Action>, d: seq<Action>, m: Mine, m': Mine, k: Key,
                      r: Reply)
    requires IsAnswered(a, b, m, k, r) && b <= c && Legal(c) && Legal(d) && At(m', After(c), Active)
    requires IsCommitted(After(c), After(d), m') && k !in After(d).leaked
    requires m'.txnId == m.txnId && m.level == RepeatableRead
    ensures m.txnId in After(a).txns
    ensures var serial := Run(RunAll(After(c).history), After(a).txns[m.txnId].trace);
      && (r.Value? ==> k in serial && serial[k] == r.value)
      && (r == KeyNotFound ==> k !in serial)
  {
    var t := m.txnId;
    var store, trace, i := RunAll(After(c).history), After(c).txns[t].trace, |After(a).txns[t].trace|;
    TraceIsKept(b, c, m);
    CommitIsSerial(c, d, m');
    assert trace[i] == Seen(k, r) && trace[..i] == After(a).txns[t].trace;
    FaithfulReads(store, trace, After(d).leaked, i);
    BufferMeansTrace(store, trace[..i], k);
  }

  /**
   * A committed session: the history lists its transaction at its COMMIT LSN with everything its
   * client did and saw, and at REPEATABLE_READ the serial run shows it exactly that.
   */
  lemma CommitIsSerial(run: seq<Action>, longer: seq<Action>, m: Mine)
    requires Legal(run) && Legal(longer) && At(m, After(run), Active)
    requires IsCommitted(After(run), After(longer), m) && m.level == RepeatableRead
    ensures Faithful(RunAll(After(run).history), TraceOf(After(run), m.txnId), After(longer).leaked)
    ensures Fold(W.All(After(longer).wal)) == Run(RunAll(After(run).history), TraceOf(After(run), m.txnId))
  {
    var before, after := After(run).history, After(longer).history;
    Serializability.CommittedRunsAreSerial(longer);
    assert after[..|before|] == before && after[..|after| - 1] == before;
    assert after[|before|].level == RepeatableRead;
  }
}
