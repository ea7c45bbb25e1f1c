// Fairness and upgrades: how the wait queues behave over every run.
module LockOrder {
  import opened Kv
  import opened LockTable
  import opened LockFacts
  import opened Engine
  import opened EngineLocks
  import opened Runs

  // ---------------------------------------------------------------- the table over every run

  /** The lock table is well formed after every run, and all its holders and waiters are transactions in progress. */
  lemma LockTableStaysWellFormed(run: seq<Action>)
    requires Legal(run)
    ensures TableInv(After(run))
  {
    InvAlways(run);
  }

  /** After commit or abort has released its locks, nothing of the transaction is left in the table. */
  lemma NothingRemains(run: seq<Action>, t: TxnId)
    requires Legal(run) && CanMove(After(run), t, ReleaseLocks)
    ensures var s' := DoMove(After(run), t, ReleaseLocks);
      t !in s'.txns && forall k :: Hold(s'.locks, t, k) == NoLock && !Waits(s'.locks, t, k)
  {
    InvAlways(run);
    var s := After(run);
    forall k ensures !Waits(s.locks, t, k) {
      AwakeWaitsNowhere(s, t, k);
    }
    ReleaseAllOrderly(s.locks, t);
  }

  /** A failed acquire leaves no request behind, on the key or anywhere else. */
  lemma FailedAcquireLeavesNoRequest(run: seq<Action>, t: TxnId, k: Key)
    requires Legal(run) && CanMove(After(run), t, TimeOut)
    ensures !Waits(DoMove(After(run), t, TimeOut).locks, t, k)
    ensures Hold(DoMove(After(run), t, TimeOut).locks, t, k) == Hold(After(run).locks, t, k)
  {
    InvAlways(run);
    var s := After(run);
    GiveUpOrderly(s.locks, t, KeyOf(s.txns[t].pc.cmd));
    TimeOutKeeps(s, t);
    AwakeWaitsNowhere(DoMove(s, t, TimeOut), t, k);
  }

  /**
   * The entry that a sleeping acquireLock refers to is there in every state of the wait,
   * and still there when the wait ends, by a grant or by a timeout.
   */
  lemma EntryOutlivesWait(run: seq<Action>, a: Action, t: TxnId)
    requires Legal(run) && Enabled(After(run), a)
    requires t in After(run).txns && After(run).txns[t].pc.Blocked?
    ensures var k := KeyOf(After(run).txns[t].pc.cmd);
      k in After(run).locks && k in Do(After(run), a).locks
  {
    InvAlways(run);
    var s := After(run);
    var s' := Do(s, a);
    var k := KeyOf(s.txns[t].pc.cmd);
    assert TxnHolds(s.locks, t, s.txns[t], s.leaked);
    InvStep(s, a);
    if a != By(t, TimeOut) && a != By(t, Wake) {
      StillAsleep(s, a, t);
      assert TxnHolds(s'.locks, t, s'.txns[t], s'.leaked);
    }
  }

  lemma StillAsleep(s: State, a: Action, t: TxnId)
    requires Enabled(s, a) && t in s.txns && s.txns[t].pc.Blocked?
    requires a != By(t, TimeOut) && a != By(t, Wake) && s.nextTxn !in s.txns
    ensures t in Do(s, a).txns && Do(s, a).txns[t] == s.txns[t]
  {
    match a
    case By(u, m) =>
      if u != t {
        MoveIsLocal(s, u, m);
      }
    case _ =>
  }

  /** Somebody other than `t`, in the middle of a transaction, holds the key or waits for it. */
  ghost predicate InTheWay(s: State, t: TxnId, k: Key) {
    exists u :: u != t && u in s.txns && (Hold(s.locks, u, k) != NoLock || Waits(s.locks, u, k))
  }

  /**
   * When a request waits. In every run acquireLock returns at once exactly if nothing stands in
   * the way of the request; and whoever has to wait, for a key or for more of it, waits for
   * another transaction in progress. So a session on its own never waits.
   */
  lemma WaitsForSomebody(run: seq<Action>, t: TxnId, cmd: Cmd)
    requires Legal(run) && CanMove(After(run), t, Ask(cmd))
    ensures var s := After(run); var k := KeyOf(cmd); var s' := DoMove(s, t, Ask(cmd));
      && t in s'.txns
      && s'.txns[t].pc == (if Grantable(EntryAt(s.locks, k), t, ModeOf(cmd)) then Holding(cmd) else Blocked(cmd))
      && (s'.txns[t].pc == Blocked(cmd) ==> Waits(s'.locks, t, k) && InTheWay(s, t, k))
      && (s'.txns[t].pc == Holding(cmd) ==> Rank(Hold(s'.locks, t, k)) >= Rank(ModeOf(cmd)))
  {
    InvAlways(run);
    var s := After(run);
    var k := KeyOf(cmd);
    AwakeWaitsNowhere(s, t, k);
    AskGrantsIff(EntryAt(s.locks, k), t, ModeOf(cmd));
    RequestOwn(s.locks, t, k, ModeOf(cmd));
    var verdict := LockTable.Ask(EntryAt(s.locks, k), t, ModeOf(cmd)).1;
    if verdict == Queued {
      SomebodyThere(s, t, k);
      InQueueIn(Request(s.locks, t, k, ModeOf(cmd))[k].queue, Waiter(t, ModeOf(cmd)));
    }
  }

  lemma SomebodyThere(s: State, t: TxnId, k: Key)
    requires TableInv(s)
    requires var e := EntryAt(s.locks, k); exists u :: u != t && (u in e.holders || InQueue(e.queue, u))
    ensures InTheWay(s, t, k)
  {
    var e := EntryAt(s.locks, k);
    var u :| u != t && (u in e.holders || InQueue(e.queue, u));
    if u in e.holders {
      assert Hold(s.locks, u, k) != NoLock;
    } else {
      var i :| 0 <= i < |e.queue| && e.queue[i].txn == u;
      assert WaiterBlocked(s, k, e.queue[i]);
      assert Waits(s.locks, u, k);
    }
  }

  // ---------------------------------------------------------------- one entry, one action

  /** How an action can change the entry of a key that somebody waits on. */
  datatype Change = Same | Joins(w: Waiter) | Drops(u: TxnId) | Quits(u: TxnId)

  function Changed(e: LockEntry, c: Change): LockEntry {
    match c
    case Same => e
    case Joins(w) => Enqueue(e, w.txn, w.mode)
    case Drops(u) => Drop(e, u)
    case Quits(u) => e.(queue := Without(e.queue, u))
  }

  /** While the queue of a key is not empty, every action is one of four changes to the entry. */
  ghost predicate Explains(s: State, s': State, k: Key, c: Change)
    requires k in s.locks
  {
    && (if k in s'.locks then s'.locks[k] == Changed(s.locks[k], c) else c.Drops? && Spent(Changed(s.locks[k], c)))
    && (c.Joins? ==> c.w.mode != NoLock && c.w.txn in s.txns && !InQueue(s.locks[k].queue, c.w.txn))
    && (c.Joins? && c.w.txn in s.locks[k].holders ==> s.locks[k].mode == Shared && c.w.mode == Exclusive)
    && (c.Drops? ==> c.u in s.txns && !s.txns[c.u].pc.Blocked?)
    && (c.Quits? ==> c.u in s.txns && s.txns[c.u].pc.Blocked?)
  }

  lemma ExplainAsk(s: State, t: TxnId, cmd: Cmd, k: Key) returns (c: Change)
    requires TableInv(s) && CanMove(s, t, Ask(cmd)) && k in s.locks && s.locks[k].queue != []
    ensures Explains(s, DoAsk(s, t, cmd), k, c) && !c.Quits?
  {
    c := Same;
    if KeyOf(cmd) == k {
      AwakeWaitsNowhere(s, t, k);
      AskEffect(s.locks[k], t, ModeOf(cmd));
      if LockTable.Ask(s.locks[k], t, ModeOf(cmd)).1 == Queued {
        c := Joins(Waiter(t, ModeOf(cmd)));
      }
    }
  }

  lemma ExplainMove(s: State, t: TxnId, m: Move, k: Key) returns (c: Change)
    requires TableInv(s) && CanMove(s, t, m) && k in s.locks && s.locks[k].queue != []
    ensures Explains(s, DoMove(s, t, m), k, c)
    ensures c.Quits? ==> m == TimeOut && c.u == t
  {
    c := Same;
    match m
    case Ask(cmd) => c := ExplainAsk(s, t, cmd, k);
    case TimeOut =>
      if KeyOf(s.txns[t].pc.cmd) == k {
        c := Quits(t);
      }
    case Unlock =>
      if s.txns[t].pc.key == k {
        c := Drops(t);
      }
    case ReleaseLocks =>
      if t in s.locks[k].holders {
        c := Drops(t);
      }
    case _ =>
  }

  lemma ExplainAction(s: State, a: Action, k: Key) returns (c: Change)
    requires TableInv(s) && Enabled(s, a) && k in s.locks && s.locks[k].queue != []
    ensures Explains(s, Do(s, a), k, c)
    ensures c.Quits? ==> a == By(c.u, TimeOut)
  {
    c := Same;
    match a
    case By(t, m) => c := ExplainMove(s, t, m, k);
    case _ =>
  }

  // ---------------------------------------------------------------- no overtaking

  /** `u` neither holds the key nor stands before `t` in its queue. */
  predicate Behind(e: LockEntry, t: TxnId, u: TxnId) {
    u !in e.holders &&
    forall i, j :: 0 <= i < |e.queue| && 0 <= j < |e.queue| && e.queue[i].txn == u && e.queue[j].txn == t ==> j < i
  }

  lemma {:induction false} WithoutOrder(q: seq<Waiter>, v: TxnId, i: nat, j: nat) returns (i': nat, j': nat)
    requires i < j < |Without(q, v)|
    ensures i' < j' < |q| && q[i'] == Without(q, v)[i] && q[j'] == Without(q, v)[j]
  {
    if q[0].txn == v {
      var a, b := WithoutOrder(q[1..], v, i, j);
      i', j' := a + 1, b + 1;
    } else if i > 0 {
      var a, b := WithoutOrder(q[1..], v, i - 1, j - 1);
      i', j' := a + 1, b + 1;
    } else {
      var w := Without(q[1..], v)[j - 1];
      WithoutMember(q[1..], v, w);
      var b :| 0 <= b < |q[1..]| && q[1..][b] == w;
      i', j' := 0, b + 1;
    }
  }

  lemma QuitsBehind(e: LockEntry, v: TxnId, t: TxnId, u: TxnId)
    requires Behind(e, t, u) && Distinct(e.queue) && u != t
    ensures Behind(Changed(e, Quits(v)), t, u)
  {
    var q := Without(e.queue, v);
    forall i, j | 0 <= i < |q| && 0 <= j < |q| && q[i].txn == u && q[j].txn == t ensures j < i {
      if i < j {
        var i', j' := WithoutOrder(e.queue, v, i, j);
      }
    }
  }

  lemma SuffixBehind(q: seq<Waiter>, n: nat, t: TxnId, u: TxnId)
    requires n <= |q| && forall i, j :: 0 <= i < |q| && 0 <= j < |q| && q[i].txn == u && q[j].txn == t ==> j < i
    ensures forall i, j :: 0 <= i < |q[n..]| && 0 <= j < |q[n..]| && q[n..][i].txn == u && q[n..][j].txn == t ==> j < i
  {
    var r := q[n..];
    forall i, j | 0 <= i < |r| && 0 <= j < |r| && r[i].txn == u && r[j].txn == t ensures j < i {
      assert q[n + i].txn == u && q[n + j].txn == t;
    }
  }

  lemma DropsBehind(e: LockEntry, v: TxnId, t: TxnId, u: TxnId)
    requires EntryOk(e) && !InQueue(e.queue, v) && Behind(e, t, u) && u != t
    requires InQueue(Drop(e, v).queue, t)
    ensures Behind(Drop(e, v), t, u)
  {
    DropEffect(e, v);
    var r := Drop(e, v);
    var n := Served(e, v);
    SuffixBehind(e.queue, n, t, u);
    var j :| 0 <= j < |r.queue| && r.queue[j].txn == t;
    assert e.queue[n + j].txn == t;
    forall i | 0 <= i < n ensures e.queue[..n][i].txn != u {
      assert e.queue[..n][i] == e.queue[i];
    }
  }

  lemma JoinsBehind(e: LockEntry, w: Waiter, t: TxnId, u: TxnId)
    requires Behind(e, t, u) && w.txn != t && u != t
    ensures Behind(Changed(e, Joins(w)), t, u)
  {
  }

  lemma StepBehind(s: State, a: Action, k: Key, t: TxnId, u: TxnId)
    requires TableInv(s) && Enabled(s, a) && u != t
    requires Waits(s.locks, t, k) && Waits(Do(s, a).locks, t, k) && Behind(s.locks[k], t, u)
    ensures Behind(Do(s, a).locks[k], t, u)
  {
    var c := ExplainAction(s, a, k);
    var e := s.locks[k];
    match c
    case Same =>
    case Joins(w) => JoinsBehind(e, w, t, u);
    case Drops(v) =>
      AwakeWaitsNowhere(s, v, k);
      DropsBehind(e, v, t, u);
    case Quits(v) => QuitsBehind(e, v, t, u);
  }

  /** `t` is queued on the key in every state of the run from step `from` on. */
  ghost predicate QueuedSince(run: seq<Action>, from: nat, t: TxnId, k: Key)
    requires Legal(run)
  {
    forall n :: from <= n <= |run| ==> Legal(run[..n]) && Waits(After(run[..n]).locks, t, k)
  }

  lemma {:induction false} StaysBehind(run: seq<Action>, from: nat, k: Key, t: TxnId, u: TxnId)
    requires Legal(run) && from <= |run| && QueuedSince(run, from, t, k) && u != t
    requires Legal(run[..from]) && k in After(run[..from]).locks && Behind(After(run[..from]).locks[k], t, u)
    ensures k in After(run).locks && Behind(After(run).locks[k], t, u)
    decreases |run|
  {
    if from == |run| {
      assert run[..from] == run;
    } else {
      var init := run[..|run| - 1];
      Last(run);
      assert init[..from] == run[..from];
      forall n | from <= n <= |init| ensures Legal(init[..n]) && Waits(After(init[..n]).locks, t, k) {
        assert init[..n] == run[..n];
      }
      StaysBehind(init, from, k, t, u);
      InvAlways(init);
      assert init[..|init|] == init && run[..|run|] == run;
      StepBehind(After(init), run[|run| - 1], k, t, u);
    }
  }

  /**
   * No overtaking. If a transaction has been queued on a key since some point of the run and
   * still is, then nobody who neither held nor awaited the key at that point holds it now,
   * whatever was requested, released or timed out in between.
   */
  lemma NoOvertaking(run: seq<Action>, from: nat, k: Key, t: TxnId, u: TxnId)
    requires Legal(run) && from <= |run| && Legal(run[..from]) && QueuedSince(run, from, t, k) && u != t
    requires Hold(After(run[..from]).locks, u, k) == NoLock && !Waits(After(run[..from]).locks, u, k)
    ensures Hold(After(run).locks, u, k) == NoLock
  {
    InvAlways(run[..from]);
    assert Waits(After(run[..from]).locks, t, k);
    StaysBehind(run, from, k, t, u);
  }

  // ---------------------------------------------------------------- upgrades

  predicate UpgradeQueued(locks: Table, t: TxnId, k: Key) {
    Waits(locks, t, k) && t in locks[k].holders
  }

  /** Nobody but `u` itself takes away its hold, nobody but `t` its place in the queue. */
  lemma StuckEntry(e: LockEntry, c: Change, t: TxnId, u: TxnId)
    requires InQueue(e.queue, t) && u in e.holders && (c.Drops? ==> c.u != u) && (c.Quits? ==> c.u != t)
    ensures InQueue(Changed(e, c).queue, t) && u in Changed(e, c).holders
  {
    var i :| 0 <= i < |e.queue| && e.queue[i].txn == t;
    match c
    case Same =>
    case Joins(w) =>
      assert (e.queue + [w])[i].txn == t;
    case Drops(v) =>
      assert u in e.holders - {v};
    case Quits(v) =>
      WithoutMember(e.queue, v, e.queue[i]);
      InQueueIn(Without(e.queue, v), e.queue[i]);
  }

  lemma UpgradeEntry(e: LockEntry, c: Change, t: TxnId)
    requires InQueue(e.queue, t) && t in e.holders && (c.Drops? ==> c.u != t) && (c.Quits? ==> c.u != t)
    ensures var e' := Changed(e, c);
      InQueue(e'.queue, t) && t in e'.holders && e'.holders <= e.holders && e'.mode == e.mode
  {
    StuckEntry(e, c, t, t);
    if c.Drops? {
      assert t in e.holders - {c.u};
    }
  }

  /**
   * A queued upgrade ends only by its own timeout. Until then it stays queued, its SHARED
   * hold keeps the holders from becoming empty, and nobody is added to the holders.
   */
  lemma UpgradeEndsOnlyByTimeout(run: seq<Action>, a: Action, t: TxnId, k: Key)
    requires Legal(run) && Enabled(After(run), a) && UpgradeQueued(After(run).locks, t, k)
    requires a != By(t, TimeOut)
    ensures var s := After(run); var s' := Do(s, a);
      UpgradeQueued(s'.locks, t, k) && s'.locks[k].holders <= s.locks[k].holders && s'.locks[k].mode == Shared
  {
    InvAlways(run);
    var s := After(run);
    var e := s.locks[k];
    var c := ExplainAction(s, a, k);
    var i :| 0 <= i < |e.queue| && e.queue[i].txn == t;
    assert WaiterOk(e, e.queue[i]);
    assert WaiterBlocked(s, k, e.queue[i]);
    UpgradeEntry(e, c, t);
  }

  // ---------------------------------------------------------------- deadlocks

  /** `t` sleeps on a key that a member of `d` holds. */
  predicate StuckOn(s: State, t: TxnId, d: set<TxnId>) {
    && t in s.txns && s.txns[t].pc.Blocked?
    && var k := KeyOf(s.txns[t].pc.cmd);
    && Waits(s.locks, t, k)
    && exists u :: u in d && u in s.locks[k].holders
  }

  /** A deadlock: every member of `d` waits for a member of `d`. */
  ghost predicate Deadlocked(s: State, d: set<TxnId>) {
    d != {} && forall t :: t in d ==> StuckOn(s, t, d)
  }

  predicate MemberTimesOut(a: Action, d: set<TxnId>) {
    a.By? && a.move == TimeOut && a.t in d
  }

  lemma StuckStep(s: State, a: Action, t: TxnId, d: set<TxnId>)
    requires TableInv(s) && Enabled(s, a) && s.nextTxn !in s.txns && Deadlocked(s, d) && t in d && !MemberTimesOut(a, d)
    ensures StuckOn(Do(s, a), t, d)
  {
    assert StuckOn(s, t, d);
    var k := KeyOf(s.txns[t].pc.cmd);
    var u :| u in d && u in s.locks[k].holders;
    assert StuckOn(s, u, d);
    StillAsleep(s, a, t);
    var c := ExplainAction(s, a, k);
    StuckEntry(s.locks[k], c, t, u);
  }

  /** Whatever happens, a deadlock lasts exactly until one of its members times out. */
  lemma DeadlockStepIff(s: State, a: Action, d: set<TxnId>)
    requires TableInv(s) && Enabled(s, a) && s.nextTxn !in s.txns && Deadlocked(s, d)
    ensures Deadlocked(Do(s, a), d) <==> !MemberTimesOut(a, d)
  {
    if MemberTimesOut(a, d) {
      assert !StuckOn(Do(s, a), a.t, d);
    } else {
      forall t | t in d ensures StuckOn(Do(s, a), t, d) {
        StuckStep(s, a, t, d);
      }
    }
  }

  lemma DeadlockEnds(d: set<TxnId>)
    ensures EndsOnlyBy(s => Deadlocked(s, d), (s, a) => MemberTimesOut(a, d))
  {
    forall run, a | Legal(run) && Enabled(After(run), a) && Deadlocked(After(run), d)
      ensures Deadlocked(Do(After(run), a), d) <==> !MemberTimesOut(a, d)
    {
      InvAlways(run);
      DeadlockStepIff(After(run), a, d);
    }
  }

  /**
   * No code breaks a deadlock: over every continuation of every run, its members stay asleep
   * exactly as long as none of them has timed out.
   */
  lemma DeadlockEndsOnlyByTimeout(run: seq<Action>, from: nat, d: set<TxnId>)
    requires Legal(run) && from <= |run| && Legal(run[..from]) && Deadlocked(After(run[..from]), d)
    ensures Throughout(run, from, s => Deadlocked(s, d)) <==> Never(run, from, (s, a) => MemberTimesOut(a, d))
  {
    DeadlockEnds(d);
    ThroughoutIff(run, from, s => Deadlocked(s, d), (s, a) => MemberTimesOut(a, d));
  }

  /** A queued upgrade is a deadlock of one: it waits for its own SHARED hold. */
  lemma UpgradeIsDeadlock(run: seq<Action>, t: TxnId, k: Key)
    requires Legal(run) && UpgradeQueued(After(run).locks, t, k)
    ensures Deadlocked(After(run), {t})
  {
    InvAlways(run);
    var s := After(run);
    var q := s.locks[k].queue;
    var i :| 0 <= i < |q| && q[i].txn == t;
    assert WaiterBlocked(s, k, q[i]);
    assert t in {t};
  }

  // ---------------------------------------------------------------- the front of the queue

  /** The front waiter cannot be served as things stand. */
  predicate FrontBlocked(e: LockEntry) {
    e.queue != [] ==> !Compatible(e.mode, e.queue[0].mode)
  }

  ghost predicate FrontsBlocked(locks: Table) {
    forall k :: k in locks ==> FrontBlocked(locks[k])
  }

  lemma DropFront(e: LockEntry, t: TxnId)
    requires EntryOk(e) && FrontBlocked(e)
    ensures FrontBlocked(Drop(e, t))
  {
    DropExact(e, t);
    if e.holders - {t} == {} && e.queue != [] {
      DrainExact(e.queue);
      var n := Admitted(e.queue);
      if n < |e.queue| {
        assert WaiterOk(e, e.queue[n]);
        assert Drop(e, t).queue[0] == e.queue[n];
      }
    }
  }

  lemma AskFront(e: LockEntry, t: TxnId, m: LockMode)
    requires (e == FRESH_ENTRY || EntryOk(e)) && FrontBlocked(e) && m != NoLock && !InQueue(e.queue, t)
    ensures FrontBlocked(LockTable.Ask(e, t, m).0)
  {
    AskEffect(e, t, m);
  }

  lemma FrontAsk(s: State, t: TxnId, cmd: Cmd)
    requires TableInv(s) && CanMove(s, t, Ask(cmd)) && FrontsBlocked(s.locks)
    ensures FrontsBlocked(DoAsk(s, t, cmd).locks)
  {
    AwakeWaitsNowhere(s, t, KeyOf(cmd));
    AskFront(EntryAt(s.locks, KeyOf(cmd)), t, ModeOf(cmd));
  }

  lemma FrontRelease(table: Table, t: TxnId, k: Key)
    requires TableOk(table) && FrontsBlocked(table)
    ensures FrontsBlocked(Release(table, t, k)) && FrontsBlocked(ReleaseAll(table, t))
  {
    forall j | j in table ensures FrontBlocked(Drop(table[j], t)) {
      DropFront(table[j], t);
    }
  }

  lemma FrontMove(s: State, t: TxnId, m: Move)
    requires TableInv(s) && CanMove(s, t, m) && FrontsBlocked(s.locks) && m != TimeOut
    ensures FrontsBlocked(DoMove(s, t, m).locks)
  {
    match m
    case Ask(cmd) => FrontAsk(s, t, cmd);
    case Unlock => FrontRelease(s.locks, t, s.txns[t].pc.key);
    case ReleaseLocks => FrontRelease(s.locks, t, []);
    case _ =>
  }

  /** The request of `t` at the front of a SHARED key hides another request for SHARED. */
  predicate Uncovers(e: LockEntry, t: TxnId) {
    e.mode == Shared && |e.queue| > 1 && e.queue[0].txn == t && e.queue[1].mode == Shared
  }

  /**
   * A timeout does not look at the waiters behind it. It leaves the front blocked exactly
   * when it does not uncover, at the front of a SHARED key, another request for SHARED.
   */
  lemma TimeOutFrontIff(e: LockEntry, t: TxnId)
    requires EntryOk(e) && FrontBlocked(e) && InQueue(e.queue, t)
    ensures FrontBlocked(e.(queue := Without(e.queue, t))) <==> !Uncovers(e, t)
  {
    var q := e.queue;
    if q[0].txn == t {
      forall i | 0 <= i < |q[1..]| ensures q[1..][i].txn != t {
        assert q[i + 1].txn != q[0].txn;
      }
      WithoutStranger(q[1..], t);
      assert Without(q, t) == q[1..];
      if |q| > 1 {
        assert WaiterOk(e, q[1]);
      }
    }
  }

  /** The action is a timeout that uncovers a reader. */
  predicate Strands(s: State, a: Action) {
    && a.By? && a.move == TimeOut && CanMove(s, a.t, TimeOut)
    && var k := KeyOf(s.txns[a.t].pc.cmd);
    && k in s.locks && Uncovers(s.locks[k], a.t)
  }

  lemma FrontTimeOutIff(s: State, t: TxnId)
    requires TableInv(s) && CanMove(s, t, TimeOut) && FrontsBlocked(s.locks)
    ensures FrontsBlocked(DoMove(s, t, TimeOut).locks) <==> !Uncovers(s.locks[KeyOf(s.txns[t].pc.cmd)], t)
  {
    var k := KeyOf(s.txns[t].pc.cmd);
    var after := DoMove(s, t, TimeOut).locks;
    TimeOutFrontIff(s.locks[k], t);
    assert after[k] == s.locks[k].(queue := Without(s.locks[k].queue, t));
    assert forall j :: j in after && j != k ==> after[j] == s.locks[j];
  }

  lemma FrontStepIff(s: State, a: Action)
    requires TableInv(s) && Enabled(s, a) && FrontsBlocked(s.locks)
    ensures FrontsBlocked(Do(s, a).locks) <==> !Strands(s, a)
  {
    match a
    case By(t, m) =>
      if m == TimeOut {
        FrontTimeOutIff(s, t);
      } else {
        FrontMove(s, t, m);
      }
    case _ =>
  }

  lemma FrontsEnd()
    ensures EndsOnlyBy((s: State) => FrontsBlocked(s.locks), (s, a) => Strands(s, a))
  {
    forall run, a | Legal(run) && Enabled(After(run), a) && FrontsBlocked(After(run).locks)
      ensures FrontsBlocked(Do(After(run), a).locks) <==> !Strands(After(run), a)
    {
      InvAlways(run);
      FrontStepIff(After(run), a);
    }
  }

  /**
   * The front of every non-empty queue stays incompatible with the current mode throughout a
   * run exactly if no timeout in it uncovers a reader. In particular it does in every run
   * without timeouts.
   */
  lemma FrontStaysBlockedIff(run: seq<Action>)
    requires Legal(run)
    ensures Throughout(run, 0, (s: State) => FrontsBlocked(s.locks)) <==> Never(run, 0, (s, a) => Strands(s, a))
  {
    FrontsEnd();
    Start();
    assert run[..0] == [];
    ThroughoutIff(run, 0, (s: State) => FrontsBlocked(s.locks), (s, a) => Strands(s, a));
  }
}
