// The lock table as a value: what each critical section of the lock manager does
// to it, and what every such section keeps.
module LockTable {
  import opened Kv

  datatype LockMode = NoLock | Shared | Exclusive

  datatype Waiter = Waiter(txn: TxnId, mode: LockMode)

  datatype LockEntry = LockEntry(mode: LockMode, holders: set<TxnId>, queue: seq<Waiter>)

  type Table = map<Key, LockEntry>

  datatype Verdict = Granted | Queued

  const FRESH_ENTRY := LockEntry(NoLock, {}, [])

  predicate Compatible(a: LockMode, b: LockMode) {
    a == NoLock || b == NoLock || (a == Shared && b == Shared)
  }

  function Rank(m: LockMode): nat {
    match m
    case NoLock => 0
    case Shared => 1
    case Exclusive => 2
  }

  // ---------------------------------------------------------------- operations

  /** The mode an entry is in after a compatible request joins its holders. */
  function Joined(mode: LockMode, requested: LockMode): LockMode {
    if mode == NoLock then requested
    else if requested == Exclusive then Exclusive
    else mode
  }

  function Enqueue(e: LockEntry, t: TxnId, m: LockMode): LockEntry {
    e.(queue := e.queue + [Waiter(t, m)])
  }

  /** One request on one entry: re-entry, upgrade, fast grant, or a place in the queue. */
  function Ask(e: LockEntry, t: TxnId, m: LockMode): (LockEntry, Verdict) {
    if t in e.holders then
      if e.mode == Exclusive || m == Shared then (e, Granted)
      else if |e.holders| == 1 && e.queue == [] then (e.(mode := Exclusive), Granted)
      else if |e.holders| == 1 && e.queue[0].txn == t then
        (e.(mode := Exclusive, queue := e.queue[1..]), Granted)
      else (Enqueue(e, t, m), Queued)
    else if Compatible(e.mode, m) && e.queue == [] then
      (e.(mode := Joined(e.mode, m), holders := e.holders + {t}), Granted)
    else (Enqueue(e, t, m), Queued)
  }

  function EntryAt(table: Table, k: Key): LockEntry {
    if k in table then table[k] else FRESH_ENTRY
  }

  function Request(table: Table, t: TxnId, k: Key, m: LockMode): Table {
    table[k := Ask(EntryAt(table, k), t, m).0]
  }

  function Without(q: seq<Waiter>, t: TxnId): seq<Waiter> {
    if q == [] then []
    else if q[0].txn == t then Without(q[1..], t)
    else [q[0]] + Without(q[1..], t)
  }

  /** A waiter gives up: it leaves the queue and nobody else is looked at. */
  function GiveUp(table: Table, t: TxnId, k: Key): Table {
    if k in table then table[k := table[k].(queue := Without(table[k].queue, t))] else table
  }

  function GrantFront(e: LockEntry): LockEntry
    requires e.queue != []
  {
    LockEntry(Joined(e.mode, e.queue[0].mode), e.holders + {e.queue[0].txn}, e.queue[1..])
  }

  /** Grants waiters from the front of the queue until one is incompatible. */
  function Drain(e: LockEntry): LockEntry
    decreases |e.queue|
  {
    if e.queue != [] && Compatible(e.mode, e.queue[0].mode) then Drain(GrantFront(e)) else e
  }

  function Drop(e: LockEntry, t: TxnId): LockEntry {
    var rest := e.holders - {t};
    if rest == {} then Drain(LockEntry(NoLock, {}, e.queue)) else e.(holders := rest)
  }

  predicate Spent(e: LockEntry) {
    e.holders == {} && e.queue == []
  }

  function Release(table: Table, t: TxnId, k: Key): Table {
    if k !in table then table
    else if Spent(Drop(table[k], t)) then table - {k}
    else table[k := Drop(table[k], t)]
  }

  function ReleaseAll(table: Table, t: TxnId): Table {
    map k | k in table && !(t in table[k].holders && Spent(Drop(table[k], t))) ::
      if t in table[k].holders then Drop(table[k], t) else table[k]
  }

  /** The mode in which a transaction holds a key. */
  function Hold(table: Table, t: TxnId, k: Key): LockMode {
    if k in table && t in table[k].holders then table[k].mode else NoLock
  }

  predicate InQueue(q: seq<Waiter>, t: TxnId) {
    exists i :: 0 <= i < |q| && q[i].txn == t
  }

  predicate Waits(table: Table, t: TxnId, k: Key) {
    k in table && InQueue(table[k].queue, t)
  }

  // ---------------------------------------------------------------- well-formedness

  predicate Distinct(q: seq<Waiter>) {
    forall i, j :: 0 <= i < j < |q| ==> q[i].txn != q[j].txn
  }

  predicate WaiterOk(e: LockEntry, w: Waiter) {
    w.mode != NoLock && (w.txn in e.holders ==> e.mode == Shared && w.mode == Exclusive)
  }

  predicate EntryOk(e: LockEntry) {
    && e.holders != {}
    && e.mode != NoLock
    && (e.mode == Exclusive ==> |e.holders| == 1)
    && Distinct(e.queue)
    && (forall i :: 0 <= i < |e.queue| ==> WaiterOk(e, e.queue[i]))
  }

  predicate TableOk(table: Table) {
    forall k :: k in table ==> EntryOk(table[k])
  }

  lemma OnlyElement(s: set<TxnId>, a: TxnId, b: TxnId)
    requires |s| == 1 && a in s && b in s
    ensures a == b
  {
    assert |s - {a}| == 0;
    assert b !in s - {a};
  }

  /** A key held EXCLUSIVE has no other holder. */
  lemma ExclusiveIsAlone(table: Table, t: TxnId, u: TxnId, k: Key)
    requires TableOk(table)
    requires Hold(table, t, k) == Exclusive && Hold(table, u, k) != NoLock
    ensures t == u
  {
    OnlyElement(table[k].holders, t, u);
  }

  // ---------------------------------------------------------------- asking

  /**
   * Nothing stands in the way of the request: the asker holds as much already, or nobody waits
   * and every other holder is a reader like the asker.
   */
  predicate Grantable(e: LockEntry, t: TxnId, m: LockMode) {
    || (t in e.holders && Rank(e.mode) >= Rank(m))
    || (e.queue == [] && forall u :: u in e.holders && u != t ==> e.mode == Shared && m == Shared)
  }

  /**
   * A request is granted at once exactly if nothing stands in its way, in the stronger of the
   * mode asked for and the mode that is there; and one that has to wait has somebody to wait for.
   */
  lemma AskGrantsIff(e: LockEntry, t: TxnId, m: LockMode)
    requires e == FRESH_ENTRY || EntryOk(e)
    requires m != NoLock && !InQueue(e.queue, t)
    ensures var (r, v) := Ask(e, t, m);
      && (v == Granted <==> Grantable(e, t, m))
      && (v == Granted ==> Rank(r.mode) == if Rank(e.mode) > Rank(m) then Rank(e.mode) else Rank(m))
      && (v == Queued ==> exists u :: u != t && (u in e.holders || InQueue(e.queue, u)))
  {
    if e.queue != [] {
      assert e.queue[0].txn != t && InQueue(e.queue, e.queue[0].txn);
    }
    if t in e.holders {
      OthersOrAlone(e.holders, t);
    } else if e.holders != {} {
      var u :| u in e.holders;
    }
  }

  lemma OthersOrAlone(holders: set<TxnId>, t: TxnId)
    requires t in holders
    ensures |holders| == 1 <==> forall u :: u in holders ==> u == t
  {
    if |holders| == 1 {
      forall u | u in holders ensures u == t {
        OnlyElement(holders, t, u);
      }
    } else {
      assert |holders - {t}| == |holders| - 1;
      var u :| u in holders - {t};
    }
  }

  lemma AskKeepsEntry(e: LockEntry, t: TxnId, m: LockMode)
    requires e == FRESH_ENTRY || EntryOk(e)
    requires m != NoLock && !InQueue(e.queue, t)
    ensures EntryOk(Ask(e, t, m).0)
  {
    var r := Ask(e, t, m).0;
    if t in e.holders && m == Exclusive && e.mode == Shared && |e.holders| == 1 && e.queue != [] {
      assert e.queue[0].txn != t;
    }
    if Ask(e, t, m).1 == Granted && t !in e.holders {
      assert |{t}| == 1;
      assert e == FRESH_ENTRY ==> r.holders == {t};
    }
  }

  /** What a request does to its own entry, seen by the asker and by everybody else. */
  lemma AskEffect(e: LockEntry, t: TxnId, m: LockMode)
    requires e == FRESH_ENTRY || EntryOk(e)
    requires m != NoLock && !InQueue(e.queue, t)
    ensures var (r, v) := Ask(e, t, m);
      && (v == Granted ==> t in r.holders && Rank(r.mode) >= Rank(m) && r.queue == e.queue)
      && (v == Granted && t in e.holders ==> Rank(r.mode) >= Rank(e.mode))
      && (v == Granted && |e.queue| > 0 ==> r == e)
      && (v == Queued ==> r == Enqueue(e, t, m) && e.holders != {})
      && r.holders == (if v == Granted then e.holders + {t} else e.holders)
      && (forall u :: u in e.holders ==> Rank(r.mode) >= Rank(e.mode))
  {
    if t in e.holders && m == Exclusive && e.mode == Shared && |e.holders| == 1 && e.queue != [] {
      assert e.queue[0].txn != t;
    }
  }

  // ---------------------------------------------------------------- draining

  function SharedRun(q: seq<Waiter>): nat
    ensures SharedRun(q) <= |q|
    ensures forall i :: 0 <= i < SharedRun(q) ==> q[i].mode == Shared
    ensures SharedRun(q) < |q| ==> q[SharedRun(q)].mode != Shared
  {
    if q != [] && q[0].mode == Shared then 1 + SharedRun(q[1..]) else 0
  }

  function Txns(q: seq<Waiter>): set<TxnId> {
    set w | w in q :: w.txn
  }

  /** How many waiters a released entry admits: one writer, or the leading run of readers. */
  function Admitted(q: seq<Waiter>): nat
    ensures Admitted(q) <= |q|
  {
    if q == [] then 0 else if q[0].mode == Exclusive then 1 else SharedRun(q)
  }

  lemma {:induction false} DrainShared(holders: set<TxnId>, q: seq<Waiter>)
    requires forall i :: 0 <= i < |q| ==> q[i].mode != NoLock
    ensures var n := SharedRun(q);
      Drain(LockEntry(Shared, holders, q)) == LockEntry(Shared, holders + Txns(q[..n]), q[n..])
    decreases |q|
  {
    var n := SharedRun(q);
    if n > 0 {
      var e := LockEntry(Shared, holders, q);
      DrainShared(holders + {q[0].txn}, q[1..]);
      assert GrantFront(e) == LockEntry(Shared, holders + {q[0].txn}, q[1..]);
      assert q[1..][..n - 1] == q[1..n] && q[1..][n - 1..] == q[n..];
      assert q[..n] == [q[0]] + q[1..n];
      assert Txns(q[..n]) == {q[0].txn} + Txns(q[1..n]);
    } else {
      assert q[..0] == [] && q[0..] == q;
      assert Txns([]) == {};
    }
  }

  /**
   * From an entry without holders, draining grants exactly one leading writer, or the
   * maximal leading block of readers, and leaves the rest of the queue in order.
   */
  lemma DrainExact(q: seq<Waiter>)
    requires forall i :: 0 <= i < |q| ==> q[i].mode != NoLock
    ensures var n := Admitted(q);
      && Drain(LockEntry(NoLock, {}, q))
         == LockEntry(if q == [] then NoLock else q[0].mode, Txns(q[..n]), q[n..])
      && (q != [] ==> n > 0)
      && (q != [] && q[0].mode == Exclusive ==> n == 1)
      && (q != [] && q[0].mode == Shared ==>
            (forall i :: 0 <= i < n ==> q[i].mode == Shared) && (n < |q| ==> q[n].mode == Exclusive))
  {
    if q == [] {
      assert q[..0] == [] && q[0..] == q;
      assert Txns([]) == {};
    } else {
      var e := LockEntry(NoLock, {}, q);
      var g := LockEntry(q[0].mode, {q[0].txn}, q[1..]);
      assert GrantFront(e) == g;
      assert q[..1] == [q[0]];
      assert Txns(q[..1]) == {q[0].txn};
      if q[0].mode == Shared {
        DrainShared({}, q);
        assert Drain(LockEntry(Shared, {}, q)) == Drain(g) by {
          assert GrantFront(LockEntry(Shared, {}, q)) == g;
        }
      }
    }
  }
}
