// Concrete runs in which a stronger reading of the engine's promises fails.
module Scenarios {
  import opened Kv
  import opened KeyOrder
  import opened LockTable
  import opened Log
  import opened Serial
  import opened Engine
  import opened CrashRecovery
  import opened RunSteps
  import Departures
  import Durability
  import LostLock
  import LockOrder
  import Serializability
  import W = Wal

  const A: Key := [97]
  const ONE: Value := [49]
  const TWO: Value := [50]

  lemma OneWrite(k: Key, w: Write)
    ensures Writes(map[k := w]) == [Op(k, w)]
  {
    assert map[k := w].Keys == {k};
    assert Least({k}) == k;
    assert {k} - {k} == {};
    assert Sorted({k}) == [k] + Sorted({});
  }

  // ---------------------------------------------------------------- an acknowledged commit that is lost

  function Put1(): Op { Op(A, Put(ONE)) }

  const LOG1: seq<Record> := [Record(1, 1, Begin), Record(2, 1, Change(Op(A, Put(ONE)))), Record(3, 1, Commit)]

  function Held1(): Table { map[A := LockEntry(Exclusive, {1}, [])] }

  /** Nothing has happened but perhaps a checkpoint of the empty store. */
  function Quiet(checkpoint: Checkpoint): State {
    INIT.(checkpoint := checkpoint)
  }

  /** Transaction 1 has written A, logged its COMMIT and waits. */
  function Waiting1(checkpoint: Checkpoint): State {
    Quiet(checkpoint)
      .(txns := map[1 := Txn(1, RepeatableRead, Awaiting(3), map[A := Put(ONE)], [Wrote(Put1())])],
        nextTxn := 2, locks := Held1(), wal := W.Wal(4, 0, LOG1, false, [], [], 0, 0),
        history := [Done(1, 3, RepeatableRead, [Wrote(Put1())])])
  }

  /** Commit of a single write, up to the wait. */
  lemma CommitOne(run: seq<Action>, t: TxnId, op: Op) returns (longer: seq<Action>)
    requires Legal(run) && t in After(run).txns
    requires After(run).txns[t].pc == Active && After(run).txns[t].buffer == map[op.key := op.write]
    ensures Legal(longer)
    ensures var s := After(run); var x := s.txns[t]; var lsn := s.wal.nextLsn + 1;
      After(longer) == With(s, t, x.(pc := Awaiting(lsn)))
                         .(wal := W.Append(W.Append(s.wal, t, Change(op)), t, Commit),
                           history := s.history + [Done(t, lsn, x.level, x.trace)])
  {
    var s := After(run);
    var x := s.txns[t];
    OneWrite(op.key, op.write);
    longer := Go(run, By(t, StartCommit));
    assert After(longer).txns[t] == x.(pc := Logging([op]));
    longer := Go(longer, By(t, LogNext));
    assert [op][1..] == [];
    assert After(longer).txns[t] == x.(pc := Logging([]));
    longer := Go(longer, By(t, LogCommit));
    assert After(longer).txns == s.txns[t := x.(pc := Awaiting(s.wal.nextLsn + 1))];
  }

  lemma CommitA(run: seq<Action>, checkpoint: Checkpoint) returns (longer: seq<Action>)
    requires Legal(run) && After(run) == Quiet(checkpoint)
    ensures Legal(longer) && After(longer) == Waiting1(checkpoint)
  {
    longer := BeginRun(run, 1, RepeatableRead);
    longer := FirstWrite(longer, 1, Put1());
    assert After(longer).txns[1].buffer == map[A := Put(ONE)] && After(longer).txns[1].trace == [Wrote(Put1())];
    longer := CommitOne(longer, 1, Put1());
    assert After(longer).txns == Waiting1(checkpoint).txns;
    assert After(longer).wal.buffer == LOG1;
    assert After(longer).history == Waiting1(checkpoint).history;
  }

  /** The flusher has written all three records and not synced; the commit is acknowledged. */
  function Exposed1(): State {
    Waiting1(NoCheckpoint)
      .(txns := map[1 := Txn(1, RepeatableRead, Applying(3, [Put1()]), map[A := Put(ONE)], [Wrote(Put1())])],
        wal := W.Wal(4, 3, [], true, [], LOG1, 0, 0), acked := {3})
  }

  lemma ReachWritten1() returns (run: seq<Action>)
    ensures Legal(run) && After(run) == Waiting1(NoCheckpoint).(wal := Exposed1().wal)
  {
    Start();
    run := CommitA([], NoCheckpoint);
    run := Go(run, Fetch);
    WalAlwaysOk(run);
    run := WriteHands(run);
    assert After(run).wal == Exposed1().wal;
  }

  lemma ReachExposed1() returns (run: seq<Action>)
    ensures Legal(run) && After(run) == Exposed1()
  {
    run := ReachWritten1();
    OneWrite(A, Put(ONE));
    run := Go(run, By(1, Acknowledge));
    assert After(run).txns == Exposed1().txns;
  }

  /**
   * Acknowledged is not durable when the flush is not atomic: here the commit with LSN 3 is
   * acknowledged, and a crash before the sync leaves a disk from which nothing comes back.
   */
  lemma AcknowledgedCommitCanBeLost() returns (run: seq<Action>)
    ensures Legal(run) && 3 in After(run).acked && Survives(After(run), 0)
    ensures After(run).truncated == 0 && FromDisk(After(run), 0) == map[]
    ensures RunAll(After(run).history) == map[A := ONE]
  {
    run := ReachExposed1();
    var h := Exposed1().history;
    var d := h[0];
    assert h[..0] == [] && d.trace[..0] == [];
    assert Run(map[], d.trace) == map[A := ONE];
    assert Exposed1().wal.written[0..0] == [];
  }

  lemma CountA()
    ensures CommitCount(LOG1) == 1
  {
    assert LOG1[..2][..1] == LOG1[..1] && LOG1[..1][..0] == [];
    assert CommitCount(LOG1[..1]) == 0;
    assert CommitCount(LOG1[..2]) == 0;
  }

  /**
   * Not acknowledged is not lost: here the flusher has synced the COMMIT with LSN 3 before
   * its session was told, and every crash leaves a disk that brings it back.
   */
  lemma UnacknowledgedCommitCanSurvive() returns (run: seq<Action>)
    ensures Legal(run) && After(run).acked == {} && Durability.Safe(After(run), 3)
  {
    run := ReachWritten1();
    run := Go(run, PassOn);
    run := Go(run, Sync);
    CountA();
    var s := After(run);
    forall n | Survives(s, n) ensures Durability.BroughtBack(s, n, 3) {
      assert n == 3 && s.wal.written[..3] == LOG1;
      assert s.history[0].lsn == 3;
    }
  }

  /**
   * A snapshot can cover more than the synced log: here a checkpoint begins while the flusher
   * has records in the stream, so a crash before the rename can lose an acknowledged commit
   * that a crash after the rename does not.
   */
  lemma SnapshotCanOutrunLog() returns (run: seq<Action>)
    ensures Legal(run) && 3 in After(run).acked && Survives(After(run), 0) && Enabled(After(run), InstallSnapshot)
    ensures !Durability.BroughtBack(After(run), 0, 3)
    ensures Durability.BroughtBack(Do(After(run), InstallSnapshot), 0, 3)
  {
    run := ReachExposed1();
    run := Go(run, By(1, ApplyNext));
    assert [Put1()][1..] == [];
    run := Go(run, By(1, ReleaseLocks));
    assert After(run).txns == map[];
    run := Go(run, DraftSnapshot);
    var s := After(run);
    Durability.AcknowledgedIsWritten(run, 3);
    CountA();
    assert s.wal.written[..0] == [] && s.wal.written[..3] == LOG1;
    Durability.BroughtBackIff(run, 0, 3);
    var installed := Go(run, InstallSnapshot);
    Durability.BroughtBackIff(installed, 0, 3);
    assert Durability.InHistory(s, 3);
    assert Durability.InHistory(After(installed), 3);
  }

  // ---------------------------------------------------------------- a write lock given up

  function Put2(): Op { Op(A, Put(TWO)) }

  /** Transaction 1, at READ_COMMITTED, has written A and is about to read it back. */
  lemma ReachReadBack() returns (run: seq<Action>)
    ensures Legal(run) && CanMove(After(run), 1, Finish) && Leaks(After(run).txns[1])
    ensures After(run).txns[1].pc == Holding(Get(A)) && After(run).leaked == {}
    ensures After(run).txns.Keys == {1} && After(run).checkpoint == NoCheckpoint
  {
    Start();
    run := BeginRun([], 1, ReadCommitted);
    run := FirstWrite(run, 1, Put1());
    assert After(run).txns[1].buffer == map[A := Put(ONE)];
    run := Go(run, By(1, Ask(Get(A))));
  }

  /**
   * A run in which a READ_COMMITTED transaction reads back a key it wrote, after which no
   * commit of the key is left to apply and the store differs from the serial result.
   */
  lemma ReadingBackBreaksAgreement() returns (run: seq<Action>)
    ensures Legal(run) && After(run).leaked == {A} && LostLock.Apart(After(run), A)
  {
    var before := ReachReadBack();
    var u := 0;
    run, u := LostLock.ReadBackGoesApart(before, 1);
  }

  lemma ReachQuietApart() returns (run: seq<Action>)
    ensures Legal(run) && LostLock.Apart(After(run), A)
    ensures After(run).txns == map[] && After(run).checkpoint == NoCheckpoint
  {
    var before := ReachReadBack();
    var u := 0;
    run, u := LostLock.ReadBackGoesApart(before, 1);
    assert forall v :: v in After(run).txns ==> v == 1 || v == u;
    run := Go(run, By(1, ReleaseLocks));
    run := Go(run, By(u, ReleaseLocks));
    assert After(run).txns == map[];
  }

  /**
   * A run in which a checkpoint saves a store that has gone apart from the log, so that every
   * crash from then on brings back at A a value that the serial run does not give.
   */
  lemma CheckpointCanSaveAWrongValue() returns (run: seq<Action>)
    ensures Legal(run) && Survives(After(run), |After(run).wal.written|)
    ensures forall n :: Survives(After(run), n) ==> LostLock.BroughtBackWrong(After(run), n, A)
  {
    var quiet := ReachQuietApart();
    run := LostLock.CheckpointSavesIt(quiet, A);
    WalAlwaysOk(run);
  }

  // ---------------------------------------------------------------- a read that does not repeat

  /** A whole GET at READ_COMMITTED, of a key that nobody has locked and the reader has not written. */
  lemma ReadOnce(run: seq<Action>, t: TxnId, k: Key) returns (longer: seq<Action>)
    requires Legal(run) && t in After(run).txns && After(run).txns[t].pc == Active && k !in After(run).locks
    requires After(run).txns[t].level == ReadCommitted && k !in After(run).txns[t].buffer
    ensures Legal(longer)
    ensures var s := After(run); var x := s.txns[t];
      After(longer) == With(s, t, x.(trace := x.trace + [Saw(k, Read(s.store, k))]))
  {
    var s := After(run);
    FirstGrant(s, t, Get(k));
    longer := Go(run, By(t, Ask(Get(k))));
    longer := Go(longer, By(t, Finish));
    assert {t} - {t} == {};
    assert Spent(Drop(LockEntry(Shared, {t}, []), t));
    longer := Go(longer, By(t, Unlock));
    assert After(longer).locks == s.locks;
    assert After(longer).txns == s.txns[t := After(longer).txns[t]];
  }

  /** Transaction 1 at work at READ_COMMITTED with this trace, nothing locked or leaked, and this store. */
  ghost predicate Reading(s: State, trace: seq<Event>, store: Store) {
    && 1 in s.txns && s.txns[1] == Txn(1, ReadCommitted, Active, map[], trace)
    && s.locks == map[] && s.leaked == {} && s.store == store
  }

  lemma ReachFirstRead() returns (run: seq<Action>)
    ensures Legal(run) && Reading(After(run), [Saw(A, None)], map[])
    ensures 2 in After(run).txns && After(run).txns[2] == Txn(2, RepeatableRead, Active, map[], [])
  {
    Start();
    run := BeginRun([], 1, ReadCommitted);
    run := BeginRun(run, 2, RepeatableRead);
    run := ReadOnce(run, 1, A);
    assert [] + [Saw(A, None)] == [Saw(A, None)];
  }

  /** Transaction 2 has committed A in between. */
  lemma ReachCommitBetween() returns (run: seq<Action>)
    ensures Legal(run) && Reading(After(run), [Saw(A, None)], map[A := ONE])
  {
    run := ReachFirstRead();
    run := FirstWrite(run, 2, Put1());
    assert After(run).txns[2].buffer == map[A := Put(ONE)];
    run := CommitOne(run, 2, Put1());
    run := Departures.FlushFor(run, 2);
    OneWrite(A, Put(ONE));
    run := ShowWritesRun(run, 2);
    assert [Put1()][..0] == [];
    assert After(run).store == map[A := ONE];
    assert {2} - {2} == {};
    assert Spent(Drop(LockEntry(Exclusive, {2}, []), 2));
    run := Go(run, By(2, ReleaseLocks));
  }

  /**
   * Nothing is leaked, and yet the committed READ_COMMITTED transaction saw two values of A
   * that no serial run shows it, on whatever store.
   */
  lemma ReadCommittedIsNotSerial() returns (run: seq<Action>, i: nat)
    ensures Legal(run) && After(run).leaked == {} && i < |After(run).history|
    ensures After(run).history[i].trace == [Saw(A, None), Saw(A, Some(ONE))]
    ensures forall store :: !Faithful(store, After(run).history[i].trace, {})
  {
    run := ReachCommitBetween();
    run := ReadOnce(run, 1, A);
    var trace := [Saw(A, None), Saw(A, Some(ONE))];
    assert After(run).txns[1].trace == trace;
    run := LogWritesRun(run, 1);
    i := |After(run).history|;
    run := Go(run, By(1, LogCommit));
    forall store ensures !Faithful(store, trace, {}) {
      NoStoreShowsBoth(store, trace);
    }
  }

  lemma NoStoreShowsBoth(store: Store, trace: seq<Event>)
    requires trace == [Saw(A, None), Saw(A, Some(ONE))]
    ensures !Faithful(store, trace, {})
  {
    if Faithful(store, trace, {}) {
      Serializability.FaithfulRepeats(store, trace, {}, A, 0, 1);
    }
  }

  // ---------------------------------------------------------------- a reader that nobody wakes

  function Reader(session: SessionId, pc: Pc): Txn { Txn(session, RepeatableRead, pc, map[], []) }

  function Queue23(): Table { map[A := LockEntry(Shared, {1}, [Waiter(2, Exclusive), Waiter(3, Shared)])] }

  lemma ReachThree() returns (run: seq<Action>)
    ensures Legal(run) && After(run).locks == map[]
    ensures After(run).txns == map[1 := Reader(1, Active), 2 := Reader(2, Active), 3 := Reader(3, Active)]
  {
    Start();
    run := BeginRun([], 1, RepeatableRead);
    run := BeginRun(run, 2, RepeatableRead);
    run := BeginRun(run, 3, RepeatableRead);
  }

  lemma JoinsQueue(s: State, t: TxnId, cmd: Cmd)
    requires CanMove(s, t, Ask(cmd)) && KeyOf(cmd) in s.locks && t !in s.locks[KeyOf(cmd)].holders
    requires !Compatible(s.locks[KeyOf(cmd)].mode, ModeOf(cmd)) || s.locks[KeyOf(cmd)].queue != []
    ensures var k := KeyOf(cmd);
      DoMove(s, t, Ask(cmd)) == With(s, t, s.txns[t].(pc := Blocked(cmd)))
                                  .(locks := s.locks[k := Enqueue(s.locks[k], t, ModeOf(cmd))])
  {
  }

  lemma ReachQueue() returns (run: seq<Action>)
    ensures Legal(run) && After(run).locks == Queue23()
    ensures 2 in After(run).txns && After(run).txns[2] == Reader(2, Blocked(Modify(Put1())))
  {
    run := ReachThree();
    FirstGrant(After(run), 1, Get(A));
    run := Go(run, By(1, Ask(Get(A))));
    JoinsQueue(After(run), 2, Modify(Put1()));
    run := Go(run, By(2, Ask(Modify(Put1()))));
    assert After(run).locks[A].queue == [Waiter(2, Exclusive)];
    JoinsQueue(After(run), 3, Get(A));
    run := Go(run, By(3, Ask(Get(A))));
    assert After(run).locks[A].queue == [Waiter(2, Exclusive), Waiter(3, Shared)];
  }

  /**
   * A timeout wakes nobody: here the writer between two readers gives up, and the second
   * reader stays queued although its request is compatible with the lock as it is.
   */
  lemma TimeoutCanStrandAReader() returns (run: seq<Action>)
    ensures Legal(run) && !LockOrder.FrontsBlocked(After(run).locks)
  {
    run := ReachQueue();
    var q := Queue23()[A].queue;
    assert q[0].txn == 2;
    assert Waits(After(run).locks, 2, A);
    run := Go(run, By(2, TimeOut));
    assert q[1..] == [Waiter(3, Shared)];
    assert Without(q, 2) == [Waiter(3, Shared)];
    assert !LockOrder.FrontBlocked(After(run).locks[A]);
  }

  // ---------------------------------------------------------------- a deadlock

  const B: Key := [98]

  function Held12(): Table {
    map[A := LockEntry(Exclusive, {1}, []), B := LockEntry(Exclusive, {2}, [])]
  }

  lemma ReachOneWaits() returns (run: seq<Action>)
    ensures Legal(run) && After(run).locks == Held12()[B := LockEntry(Exclusive, {2}, [Waiter(1, Exclusive)])]
    ensures 1 in After(run).txns && After(run).txns[1].pc == Blocked(Modify(Op(B, Put(TWO))))
    ensures 2 in After(run).txns && After(run).txns[2].pc == Active
  {
    run := ReachThree();
    run := FirstWrite(run, 1, Put1());
    run := FirstWrite(run, 2, Op(B, Put(ONE)));
    JoinsQueue(After(run), 1, Modify(Op(B, Put(TWO))));
    run := Go(run, By(1, Ask(Modify(Op(B, Put(TWO))))));
    assert After(run).locks[B].queue == [Waiter(1, Exclusive)];
  }

  /** Two transactions that wait for each other's write locks: nothing but a timeout will part them. */
  lemma TwoCanDeadlock() returns (run: seq<Action>)
    ensures Legal(run) && LockOrder.Deadlocked(After(run), {1, 2})
  {
    run := ReachOneWaits();
    JoinsQueue(After(run), 2, Modify(Put2()));
    run := Go(run, By(2, Ask(Modify(Put2()))));
    var s := After(run);
    assert s.locks[A].queue[0].txn == 2 && s.locks[B].queue[0].txn == 1;
    assert 1 in s.locks[A].holders && 2 in s.locks[B].holders;
    assert LockOrder.StuckOn(s, 1, {1, 2}) && LockOrder.StuckOn(s, 2, {1, 2});
  }
}
