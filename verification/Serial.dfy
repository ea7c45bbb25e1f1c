// Serial execution: what a client would see if transactions ran one at a time and every
// write went straight to the store. Nothing here knows about buffers, locks or logs.
module Serial {
  import opened Kv

  datatype Event = Wrote(op: Op) | Saw(key: Key, result: Option<Value>)

  /** The store after running a transaction's commands on it, one by one. */
  function Run(store: Store, trace: seq<Event>): Store {
    if trace == [] then store
    else
      var e := trace[|trace| - 1];
      var before := Run(store, trace[..|trace| - 1]);
      if e.Wrote? then Apply(before, e.op) else before
  }

  /** Every GET of the trace returned what that serial run returns; keys in `except` are not judged. */
  predicate Faithful(store: Store, trace: seq<Event>, except: set<Key>) {
    trace == [] ||
    var e := trace[|trace| - 1];
    var before := trace[..|trace| - 1];
    Faithful(store, before, except)
    && (e.Saw? && e.key !in except ==> e.result == Read(Run(store, before), e.key))
  }

  /** A committed transaction as the clients know it. */
  datatype Done = Done(txn: TxnId, lsn: Lsn, level: Isolation, trace: seq<Event>)

  function RunAll(history: seq<Done>): Store {
    if history == [] then map[]
    else Run(RunAll(history[..|history| - 1]), history[|history| - 1].trace)
  }

  /** The last write per key: what a private buffer holds after the trace. */
  function BufferOf(trace: seq<Event>): map<Key, Write> {
    if trace == [] then map[]
    else
      var e := trace[|trace| - 1];
      var before := BufferOf(trace[..|trace| - 1]);
      if e.Wrote? then before[e.op.key := e.op.write] else before
  }

  predicate HasRead(trace: seq<Event>, k: Key) {
    exists i :: 0 <= i < |trace| && trace[i].Saw? && trace[i].key == k
  }

  /** Keeping only the last write per key loses nothing. */
  lemma {:induction false} BufferMeansTrace(store: Store, trace: seq<Event>, k: Key)
    ensures Read(Run(store, trace), k) == ReadThrough(store, BufferOf(trace), k)
  {
    if trace != [] {
      BufferMeansTrace(store, trace[..|trace| - 1], k);
    }
  }

  /**
   * Buffering preserves meaning: writing out the last write per key, in any order of the
   * keys, leaves the store that applying every PUT and DELETE in issue order leaves.
   */
  lemma BufferedCommitMeansTrace(store: Store, trace: seq<Event>, keys: seq<Key>)
    requires forall k :: k in keys <==> k in BufferOf(trace)
    ensures ApplyOps(store, OpsFor(BufferOf(trace), keys)) == Run(store, trace)
  {
    forall k ensures Read(ApplyOps(store, OpsFor(BufferOf(trace), keys)), k) == Read(Run(store, trace), k) {
      BufferMeansTrace(store, trace, k);
      ApplyBuffer(store, BufferOf(trace), keys, k);
    }
    StoresEqual(ApplyOps(store, OpsFor(BufferOf(trace), keys)), Run(store, trace));
  }

  /** A trace stays faithful as long as the keys it read keep their values. */
  lemma {:induction false} FaithfulFrame(a: Store, b: Store, trace: seq<Event>, except: set<Key>, more: set<Key>)
    requires Faithful(a, trace, except) && except <= more
    requires forall k :: HasRead(trace, k) && k !in more ==> Read(a, k) == Read(b, k)
    ensures Faithful(b, trace, more)
  {
    if trace != [] {
      var init := trace[..|trace| - 1];
      var e := trace[|trace| - 1];
      forall k | HasRead(init, k) ensures HasRead(trace, k) {
        var i :| 0 <= i < |init| && init[i].Saw? && init[i].key == k;
        assert trace[i] == init[i];
      }
      FaithfulFrame(a, b, init, except, more);
      if e.Saw? && e.key !in more {
        assert HasRead(trace, e.key);
        BufferMeansTrace(a, init, e.key);
        BufferMeansTrace(b, init, e.key);
      }
    }
  }

  lemma FaithfulAppend(store: Store, trace: seq<Event>, e: Event, except: set<Key>)
    requires Faithful(store, trace, except)
    requires e.Saw? && e.key !in except ==> e.result == ReadThrough(store, BufferOf(trace), e.key)
    ensures Faithful(store, trace + [e], except)
  {
    assert (trace + [e])[..|trace|] == trace;
    if e.Saw? {
      BufferMeansTrace(store, trace, e.key);
    }
  }

  lemma BufferOfAppend(trace: seq<Event>, e: Event)
    ensures BufferOf(trace + [e]) == if e.Wrote? then BufferOf(trace)[e.op.key := e.op.write] else BufferOf(trace)
  {
    assert (trace + [e])[..|trace|] == trace;
  }

  lemma HasReadAppend(trace: seq<Event>, e: Event, k: Key)
    ensures HasRead(trace + [e], k) <==> HasRead(trace, k) || (e.Saw? && e.key == k)
  {
    var longer := trace + [e];
    if HasRead(trace, k) {
      var i :| 0 <= i < |trace| && trace[i].Saw? && trace[i].key == k;
      assert longer[i] == trace[i];
    }
    if e.Saw? && e.key == k {
      assert longer[|trace|] == e;
    }
    if HasRead(longer, k) {
      var i :| 0 <= i < |longer| && longer[i].Saw? && longer[i].key == k;
      assert i < |trace| ==> trace[i] == longer[i];
    }
  }

  lemma RunAllAppend(history: seq<Done>, d: Done)
    ensures RunAll(history + [d]) == Run(RunAll(history), d.trace)
  {
    assert (history + [d])[..|history|] == history;
  }

  /** Repeatable reads: with no write of its own in between, a faithful trace reads a key twice alike. */
  lemma {:induction false} FaithfulReads(store: Store, trace: seq<Event>, except: set<Key>, i: nat)
    requires Faithful(store, trace, except)
    requires i < |trace| && trace[i].Saw? && trace[i].key !in except
    ensures trace[i].result == ReadThrough(store, BufferOf(trace[..i]), trace[i].key)
  {
    var init := trace[..|trace| - 1];
    if i == |trace| - 1 {
      BufferMeansTrace(store, init, trace[i].key);
    } else {
      FaithfulReads(store, init, except, i);
      assert init[..i] == trace[..i];
    }
  }
}
