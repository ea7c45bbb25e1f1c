// Building runs: one action more, a whole command more, a whole flush more.
module RunSteps {
  import opened Kv
  import opened LockTable
  import opened Log
  import opened Serial
  import opened Engine
  import Runs
  import W = Wal

  lemma Go(run: seq<Action>, a: Action) returns (longer: seq<Action>)
    requires Legal(run) && Enabled(After(run), a)
    ensures Legal(longer) && After(longer) == Do(After(run), a) && run <= longer
  {
    Extend(run, a);
    longer := run + [a];
  }

  lemma Longest(a: seq<Action>, b: seq<Action>, c: seq<Action>)
    requires a <= b && b <= c
    ensures a <= c
  {
  }

  lemma WalAlwaysOk(run: seq<Action>)
    requires Legal(run)
    ensures W.WalOk(After(run).wal)
  {
    Runs.InvAlways(run);
  }

  lemma NextIsNew(run: seq<Action>)
    requires Legal(run)
    ensures After(run).nextTxn !in After(run).txns
  {
    Runs.InvAlways(run);
  }

  lemma NextGrows(s: State, a: Action)
    requires Enabled(s, a)
    ensures Do(s, a).nextTxn == s.nextTxn + if a.BeginTxn? then 1 else 0
  {
    match a
    case By(t, m) => MoveKeepsNext(s, t, m);
    case _ =>
  }

  lemma MoveKeepsNext(s: State, t: TxnId, m: Move)
    requires CanMove(s, t, m)
    ensures DoMove(s, t, m).nextTxn == s.nextTxn
  {
  }

  lemma {:induction false} NextNeverFalls(run: seq<Action>, n: nat)
    requires Legal(run) && n <= |run| && Legal(run[..n])
    ensures After(run[..n]).nextTxn <= After(run).nextTxn
    ensures n < |run| && run[n].BeginTxn? ==> After(run[..n]).nextTxn < After(run).nextTxn
    decreases |run|
  {
    if n == |run| {
      assert run[..n] == run;
    } else {
      var init := run[..|run| - 1];
      Last(run);
      assert init[..n] == run[..n];
      NextNeverFalls(init, n);
      NextGrows(After(init), run[|run| - 1]);
    }
  }

  /** An id is given out once: it is new to the log and to the sessions, and no later transaction gets it. */
  lemma IdsAreGivenOnce(run: seq<Action>, i: nat, j: nat)
    requires Legal(run) && i < j <= |run| && run[i].BeginTxn? && Legal(run[..i]) && Legal(run[..j])
    ensures var s := After(run[..i]);
      && s.nextTxn !in s.txns && (forall n :: 0 <= n < |W.All(s.wal)| ==> W.All(s.wal)[n].txn != s.nextTxn)
      && s.nextTxn < After(run[..j]).nextTxn
  {
    Runs.InvAlways(run[..i]);
    assert run[..j][..i] == run[..i] && run[..j][i] == run[i];
    NextNeverFalls(run[..j], i);
  }

  // ---------------------------------------------------------------- flushing

  function HandsWritten(w: W.Wal): W.Wal {
    w.(hands := [], written := w.written + w.hands, flushed := |w.written| + |w.hands|)
  }

  lemma HandsWrittenNext(w: W.Wal)
    requires W.WalOk(w)
    ensures w.hands == [] ==> HandsWritten(w) == w
    ensures w.hands != [] ==> W.WalOk(W.WriteOne(w)) && HandsWritten(W.WriteOne(w)) == HandsWritten(w)
  {
    if w.hands == [] {
      assert w.written + [] == w.written;
    } else {
      W.WriteOneKeeps(w);
      assert w.written + [w.hands[0]] + w.hands[1..] == w.written + w.hands;
    }
  }

  lemma {:induction false} WriteHands(run: seq<Action>) returns (longer: seq<Action>)
    requires Legal(run) && W.WalOk(After(run).wal)
    ensures Legal(longer) && run <= longer && After(longer) == After(run).(wal := HandsWritten(After(run).wal))
    decreases |After(run).wal.hands|
  {
    HandsWrittenNext(After(run).wal);
    longer := run;
    if After(run).wal.hands != [] {
      var next := Go(run, WriteRecord);
      longer := WriteHands(next);
      Longest(run, next, longer);
    }
  }

  /** The flusher brings the batch in its hands to an end. */
  lemma EndBatch(run: seq<Action>) returns (longer: seq<Action>)
    requires Legal(run) && After(run).wal.flushing
    ensures Legal(longer) && run <= longer
    ensures var w := After(run).wal; var n := |w.written| + |w.hands|;
      After(longer) == After(run).(wal := w.(hands := [], written := w.written + w.hands, flushed := n,
                                            passed := n, durable := n, flushing := false))
  {
    WalAlwaysOk(run);
    var a := WriteHands(run);
    var b := Go(a, PassOn);
    longer := Go(b, Sync);
    Longest(run, a, b);
    Longest(run, b, longer);
  }

  /** The flusher takes everything, writes it and syncs. */
  lemma FlushAll(run: seq<Action>) returns (longer: seq<Action>)
    requires Legal(run) && W.WalOk(After(run).wal) && !After(run).wal.flushing && After(run).wal.buffer != []
    ensures Legal(longer) && run <= longer
    ensures var w := After(run).wal; var n := |w.written| + |w.buffer|;
      After(longer) == After(run).(wal := w.(buffer := [], written := w.written + w.buffer, flushed := n,
                                            passed := n, durable := n))
  {
    var taken := Go(run, Fetch);
    longer := EndBatch(taken);
    Longest(run, taken, longer);
  }

  /** Nothing but the log has moved. */
  ghost predicate OnlyWal(s: State, s': State) {
    s' == s.(wal := s'.wal)
  }

  /** Whatever the flusher is doing, it can get everything logged so far onto the disk. */
  lemma FlushEverything(run: seq<Action>) returns (longer: seq<Action>)
    requires Legal(run)
    ensures Legal(longer) && run <= longer && OnlyWal(After(run), After(longer))
    ensures After(longer).wal.written == W.All(After(run).wal) == W.All(After(longer).wal)
    ensures After(longer).wal.flushed == |After(longer).wal.written| && !After(longer).wal.flushing
  {
    WalAlwaysOk(run);
    var mid := run;
    if After(run).wal.flushing {
      mid := EndBatch(run);
    }
    WalAlwaysOk(mid);
    longer := mid;
    if After(mid).wal.buffer != [] {
      longer := FlushAll(mid);
    }
    Longest(run, mid, longer);
    assert W.All(After(mid).wal) == W.All(After(run).wal);
    assert W.All(After(longer).wal) == W.All(After(mid).wal);
  }

  // ---------------------------------------------------------------- commands

  lemma BeginRun(run: seq<Action>, session: SessionId, level: Isolation) returns (longer: seq<Action>)
    requires Legal(run) && Enabled(After(run), BeginTxn(session, level))
    ensures Legal(longer) && run <= longer
    ensures var s := After(run); var t := s.nextTxn;
      After(longer) == s.(txns := s.txns[t := Txn(session, level, Active, map[], [])], nextTxn := t + 1,
                          wal := W.Append(s.wal, t, Begin))
  {
    var s := After(run);
    var a := Go(run, BeginTxn(session, level));
    longer := Go(a, By(s.nextTxn, LogBegin));
    assert After(longer).txns == s.txns[s.nextTxn := Txn(session, level, Active, map[], [])];
  }

  /** The first request on a key nobody has locked is granted at once. */
  lemma FirstGrant(s: State, t: TxnId, cmd: Cmd)
    requires KeyOf(cmd) !in s.locks && CanMove(s, t, Ask(cmd))
    ensures DoMove(s, t, Ask(cmd))
         == With(s, t, s.txns[t].(pc := Holding(cmd))).(locks := s.locks[KeyOf(cmd) := LockEntry(ModeOf(cmd), {t}, [])])
  {
    assert {} + {t} == {t};
    assert LockTable.Ask(FRESH_ENTRY, t, ModeOf(cmd)) == (LockEntry(ModeOf(cmd), {t}, []), Granted);
  }

  /** A whole PUT or DELETE on a key nobody has locked. */
  lemma FirstWrite(run: seq<Action>, t: TxnId, op: Op) returns (longer: seq<Action>)
    requires Legal(run) && op.key !in After(run).locks && t in After(run).txns && After(run).txns[t].pc == Active
    ensures Legal(longer) && run <= longer
    ensures var s := After(run); var x := s.txns[t];
      After(longer) == With(s, t, x.(buffer := x.buffer[op.key := op.write], trace := x.trace + [Wrote(op)]))
                         .(locks := s.locks[op.key := LockEntry(Exclusive, {t}, [])])
  {
    var s := After(run);
    FirstGrant(s, t, Modify(op));
    var a := Go(run, By(t, Ask(Modify(op))));
    longer := Go(a, By(t, Finish));
    WriteIsBuffered(s, After(a), t, op);
  }

  lemma WriteIsBuffered(s: State, mid: State, t: TxnId, op: Op)
    requires t in s.txns && s.txns[t].pc == Active
    requires mid == With(s, t, s.txns[t].(pc := Holding(Modify(op)))).(locks := mid.locks)
    ensures CanMove(mid, t, Finish)
    ensures var x := s.txns[t];
      DoMove(mid, t, Finish)
        == With(s, t, x.(buffer := x.buffer[op.key := op.write], trace := x.trace + [Wrote(op)])).(locks := mid.locks)
  {
    var after := DoMove(mid, t, Finish);
    assert after.txns == s.txns[t := after.txns[t]];
  }

  // ---------------------------------------------------------------- commit

  function AppendOps(w: W.Wal, t: TxnId, ops: seq<Op>): W.Wal
    decreases |ops|
  {
    if ops == [] then w else AppendOps(W.Append(w, t, Change(ops[0])), t, ops[1..])
  }

  lemma {:induction false} LogRest(run: seq<Action>, t: TxnId) returns (longer: seq<Action>)
    requires Legal(run) && t in After(run).txns && After(run).txns[t].pc.Logging?
    ensures Legal(longer) && run <= longer
    ensures var s := After(run); var x := s.txns[t];
      After(longer) == With(s, t, x.(pc := Logging([]))).(wal := AppendOps(s.wal, t, x.pc.todo))
    decreases |After(run).txns[t].pc.todo|
  {
    var s := After(run);
    longer := run;
    if s.txns[t].pc.todo != [] {
      var next := Go(run, By(t, LogNext));
      longer := LogRest(next, t);
      Longest(run, next, longer);
    }
    assert After(longer).txns == s.txns[t := s.txns[t].(pc := Logging([]))];
  }

  /** Commit up to the moment before COMMIT is logged. */
  lemma LogWritesRun(run: seq<Action>, t: TxnId) returns (longer: seq<Action>)
    requires Legal(run) && CanMove(After(run), t, StartCommit)
    ensures Legal(longer) && run <= longer
    ensures var s := After(run); var x := s.txns[t]; var s' := After(longer);
      s' == With(s, t, x.(pc := Logging([]))).(wal := s'.wal)
  {
    var s := After(run);
    var a := Go(run, By(t, StartCommit));
    longer := LogRest(a, t);
    Longest(run, a, longer);
    assert After(longer).txns == s.txns[t := s.txns[t].(pc := Logging([]))];
  }

  /** `t` has shown these writes, the next of those it has to apply. */
  ghost predicate Applied(s: State, s': State, t: TxnId, ops: seq<Op>, left: seq<Op>) {
    && t in s.txns && s.txns[t].pc.Applying?
    && s' == With(s, t, s.txns[t].(pc := Applying(s.txns[t].pc.lsn, left)))
               .(store := ApplyOps(s.store, ops), author := s'.author)
  }

  lemma AppliedMore(s: State, mid: State, s': State, t: TxnId, a: seq<Op>, b: seq<Op>, left: seq<Op>)
    requires Applied(s, mid, t, a, b + left) && Applied(mid, s', t, b, left)
    ensures Applied(s, s', t, a + b, left)
  {
    ApplyOpsConcat(s.store, a, b);
    assert s'.txns == s.txns[t := s.txns[t].(pc := Applying(s.txns[t].pc.lsn, left))];
  }

  lemma {:induction false} ApplyRest(run: seq<Action>, t: TxnId, todo: seq<Op>) returns (longer: seq<Action>)
    requires Legal(run) && t in After(run).txns && After(run).txns[t].pc.Applying? && After(run).txns[t].pc.todo == todo
    ensures Legal(longer) && run <= longer && Applied(After(run), After(longer), t, todo, [])
    decreases |todo|
  {
    var s := After(run);
    longer := run;
    if todo == [] {
      assert s.txns[t := s.txns[t]] == s.txns;
    } else {
      var next := Go(run, By(t, ApplyNext));
      assert [todo[0]][..0] == [];
      longer := ApplyRest(next, t, todo[1..]);
      Longest(run, next, longer);
      assert todo[1..] + [] == todo[1..] && [todo[0]] + todo[1..] == todo;
      AppliedMore(s, After(next), After(longer), t, [todo[0]], todo[1..], []);
    }
  }

  /** From the wait for the flush to the moment before the locks are released. */
  lemma ShowWritesRun(run: seq<Action>, t: TxnId) returns (longer: seq<Action>)
    requires Legal(run) && CanMove(After(run), t, Acknowledge)
    ensures Legal(longer) && run <= longer
    ensures var s := After(run); var s' := After(longer); var x := s.txns[t];
      s' == With(s, t, x.(pc := Applying(x.pc.lsn, [])))
              .(store := ApplyOps(s.store, Writes(x.buffer)), author := s'.author, acked := s'.acked)
  {
    var s := After(run);
    var a := Go(run, By(t, Acknowledge));
    longer := ApplyRest(a, t, Writes(s.txns[t].buffer));
    Longest(run, a, longer);
    assert After(longer).txns == s.txns[t := s.txns[t].(pc := Applying(s.txns[t].pc.lsn, []))];
  }
}
