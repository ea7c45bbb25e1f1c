// The group-commit flusher as an object, and the wait for a commit.
module GroupCommit {
  import opened Kv
  import opened LittleEndian
  import opened Log
  import opened Engine
  import opened RunSteps
  import opened WalManager
  import Framing
  import W = Wal

  /** The largest LSN of a batch; nothing if a record is too short to hold one. */
  method MaxLsn(records: seq<Bytes>) returns (max: Option<Lsn>)
    ensures max.None? <==> exists i :: 0 <= i < |records| && |records[i]| < 12
    ensures max.Some? ==>
      forall i :: 0 <= i < |records| ==> |records[i]| >= 12 && Decode(records[i][4..12]) <= max.value
    ensures max.Some? ==> max.value == 0 || exists i ::
      0 <= i < |records| && |records[i]| >= 12 && Decode(records[i][4..12]) == max.value
  {
    var top := 0;
    for i := 0 to |records|
      invariant forall j :: 0 <= j < i ==> |records[j]| >= 12 && Decode(records[j][4..12]) <= top
      invariant top == 0 || exists j :: 0 <= j < i && |records[j]| >= 12 && Decode(records[j][4..12]) == top
    {
      var lsn := ParseLsn(records[i]);
      if lsn.None? {
        return None;
      }
      if lsn.value > top {
        top := lsn.value;
      }
    }
    return Some(top);
  }

  /** The flusher's next step, by where it is. */
  function NextStep(w: W.Wal): Action {
    if !w.flushing then Fetch
    else if w.hands != [] then WriteRecord
    else if w.passed < |w.written| then PassOn
    else Sync
  }

  function Stepped(w: W.Wal): W.Wal {
    match NextStep(w)
    case WriteRecord => if w.hands != [] then W.WriteOne(w) else w
    case PassOn => W.Pass(w)
    case Sync => W.Sync(w)
    case _ => W.Fetch(w)
  }

  lemma StepIsAction(s: State)
    requires W.WalOk(s.wal)
    ensures Enabled(s, NextStep(s.wal)) && Do(s, NextStep(s.wal)) == s.(wal := Stepped(s.wal))
  {
  }

  class GroupCommitManager {
    const wal: WalManager
    var busy: bool            // between taking a batch and syncing it
    var records: seq<Bytes>   // the batch
    var next: nat             // how much of it is written
    var passed: bool          // whether the stream is flushed behind it

    ghost predicate Valid()
      reads this, wal
    {
      && wal.Valid()
      && busy == wal.model.flushing
      && (busy ==> next <= |records| && Serialized(wal.ser, records[next..], wal.model.hands))
      && (busy ==> (passed <==> wal.model.hands == [] && wal.model.passed == |wal.model.written|))
      && (busy ==> BatchBelow(wal.ser, records, |wal.model.written| + |wal.model.hands|))
    }

    constructor (wal: WalManager)
      requires wal.Valid() && !wal.model.flushing
      ensures Valid() && this.wal == wal && !busy
    {
      this.wal := wal;
      busy, records, next, passed := false, [], 0, false;
    }

    method Take(ghost from: nat)
      requires Valid() && !busy
      modifies this, wal
      ensures Valid() && wal.model == W.Fetch(old(wal.model)) && next == 0
      ensures old(wal.FileShows(from)) ==> wal.FileShows(from)
    {
      ghost var w := wal.model;
      records := wal.FetchAndClearBuffer();
      next, passed, busy := 0, false, records != [];
      assert records[0..] == records;
      BatchIsBelow(wal.ser, records, w);
    }

    method WriteNext(ghost from: nat)
      requires Valid() && busy && next < |records|
      modifies this, wal
      ensures Valid() && old(wal.model.hands) != [] && wal.model == W.WriteOne(old(wal.model))
      ensures old(wal.FileShows(from)) ==> wal.FileShows(from)
    {
      ghost var w := wal.model;
      wal.WriteRecord(records[next]);
      next := next + 1;
      assert records[next - 1..][1..] == records[next..];
      if w.passed <= |w.written| {
        StreamGrows(wal.ser, w.written, w.passed, w.hands[0]);
        SameParts(w.written, w.hands[0]);
      }
    }

    method PassStream(ghost from: nat)
      requires Valid() && busy && next == |records| && !passed
      modifies this, wal
      ensures Valid() && wal.model == W.Pass(old(wal.model))
      ensures old(wal.FileShows(from)) ==> wal.FileShows(from)
    {
      ghost var w := wal.model;
      wal.FlushStream();
      passed := true;
      if from <= w.passed <= |w.written| {
        StreamPasses(wal.ser, w.written, from, w.passed);
      }
    }

    method Finish(ghost from: nat)
      requires Valid() && busy && next == |records| && passed
      modifies this, wal
      ensures Valid() && wal.model == W.Sync(old(wal.model))
      ensures old(wal.FileShows(from)) ==> wal.FileShows(from)
    {
      ghost var w := wal.model;
      wal.Fsync(true);
      var max := MaxLsn(records);
      TopIsOld(wal.ser, records, w, max);
      wal.UpdateFlushedLsn(if max.Some? then max.value else 0);
      busy := false;
    }

    /** One step of flushOnce. Other threads may come in between any two. */
    method Step(ghost from: nat)
      requires Valid()
      modifies this, wal
      ensures Valid() && wal.model == Stepped(old(wal.model))
      ensures old(wal.FileShows(from)) ==> wal.FileShows(from)
    {
      if !busy {
        Take(from);
      } else if next < |records| {
        WriteNext(from);
      } else if !passed {
        PassStream(from);
      } else {
        Finish(from);
      }
    }

    /**
     * flushOnce, undisturbed: everything that was buffered is written and synced, the mark
     * stands at the last LSN given out, and the log as a whole is what it was.
     */
    method FlushOnce(ghost from: nat)
      requires Valid() && !busy
      modifies this, wal
      ensures Valid() && !busy && W.All(wal.model) == old(W.All(wal.model)) == wal.model.written
      ensures wal.model.durable == wal.flushedLsn == |wal.model.written| && wal.nextLsn == old(wal.nextLsn)
      ensures old(wal.FileShows(from)) ==> wal.FileShows(from)
    {
      W.FetchKeeps(wal.model);
      ghost var all := W.All(wal.model);
      Take(from);
      if busy {
        ghost var w := wal.model;
        assert records[0..] == records;
        wal.WriteToDisk(records);
        next, passed := |records|, true;
        if from <= w.passed <= |w.written| {
          WholeBatchPasses(wal.ser, w, from);
        }
        Finish(from);
      }
      assert W.All(wal.model) == all == wal.model.written;
    }

    /**
     * waitForCommit: sleeps until the mark has reached the LSN, while the flusher goes on from
     * wherever it is. It returns as soon as the record is written, synced or not.
     */
    method WaitForCommit(lsn: Lsn, ghost run: seq<Action>, ghost from: nat) returns (ghost longer: seq<Action>)
      requires Valid() && lsn < wal.nextLsn && Legal(run) && After(run).wal == wal.model
      modifies this, wal
      ensures Valid() && wal.flushedLsn >= lsn && W.All(wal.model) == old(W.All(wal.model))
      ensures Legal(longer) && run <= longer && After(longer) == After(run).(wal := wal.model)
      ensures old(wal.FileShows(from)) ==> wal.FileShows(from)
    {
      longer := run;
      ghost var all, shown := W.All(wal.model), wal.FileShows(from);
      while wal.flushedLsn < lsn
        modifies this, wal
        invariant Valid() && W.All(wal.model) == all && lsn < wal.nextLsn
        invariant Legal(longer) && run <= longer && After(longer) == After(run).(wal := wal.model)
        invariant shown ==> wal.FileShows(from)
        decreases lsn - wal.flushedLsn, Distance(wal.model)
      {
        ghost var before := longer;
        StepIsAction(After(longer));
        StepKeeps(wal.model);
        StepProgress(wal.model, lsn);
        longer := Go(longer, NextStep(wal.model));
        Longest(run, before, longer);
        Step(from);
      }
    }
  }

  lemma TailOfBoth(a: seq<Record>, b: seq<Record>, from: nat)
    requires from <= |a|
    ensures (a + b)[from..|a + b|] == a[from..|a|] + b
  {
    var x, y := (a + b)[from..|a + b|], a[from..|a|] + b;
    assert |x| == |y| && forall i :: 0 <= i < |x| ==> x[i] == y[i];
  }

  lemma WholeBatchPasses(ser: Record -> Bytes, w: W.Wal, from: nat)
    requires from <= w.passed <= |w.written|
    ensures var all := w.written + w.hands;
      && Framing.Write(ser, w.written[from..w.passed]) + Framing.Write(ser, w.written[w.passed..])
           + Framing.Write(ser, w.hands) == Framing.Write(ser, all[from..|all|])
      && Framing.Write(ser, all[|all|..]) == []
  {
    var all := w.written + w.hands;
    StreamPasses(ser, w.written, from, w.passed);
    TailOfBoth(w.written, w.hands, from);
    Framing.WriteConcat(ser, w.written[from..|w.written|], w.hands);
  }

  lemma StepKeeps(w: W.Wal)
    requires W.WalOk(w)
    ensures W.WalOk(Stepped(w)) && W.All(Stepped(w)) == W.All(w) && Stepped(w).nextLsn == w.nextLsn
    ensures w.buffer == [] ==> Stepped(w).buffer == []
  {
    match NextStep(w)
    case WriteRecord => W.WriteOneKeeps(w);
    case PassOn => W.PassKeeps(w);
    case Sync => W.SyncKeeps(w);
    case _ => W.FetchKeeps(w);
  }

  /** How many steps the flusher needs before it writes the next record. */
  function Distance(w: W.Wal): nat {
    if !w.flushing then 1 else if w.hands != [] then 0 else if w.passed < |w.written| then 3 else 2
  }

  lemma StepProgress(w: W.Wal, lsn: Lsn)
    requires W.WalOk(w) && w.flushed < lsn < w.nextLsn
    ensures Stepped(w).flushed > w.flushed || (Stepped(w).flushed == w.flushed && Distance(Stepped(w)) < Distance(w))
  {
    if NextStep(w) == WriteRecord {
      W.WriteOneKeeps(w);
    }
  }

  lemma SameParts(written: seq<Record>, r: Record)
    ensures forall from, to :: 0 <= from <= to <= |written| ==> (written + [r])[from..to] == written[from..to]
  {
  }

  /** The LSNs of a batch that has been taken are at most this. */
  ghost predicate BatchBelow(ser: Record -> Bytes, records: seq<Bytes>, top: nat) {
    forall i :: 0 <= i < |records| ==> |records[i]| >= 12 && Decode(records[i][4..12]) <= top
  }

  lemma BatchIsBelow(ser: Record -> Bytes, records: seq<Bytes>, w: W.Wal)
    requires LsnAtFour(ser) && W.WalOk(w) && w.nextLsn <= LSN_LIMIT && Serialized(ser, records, w.buffer)
    ensures BatchBelow(ser, records, |W.All(w)|)
  {
    forall i | 0 <= i < |records| ensures |records[i]| >= 12 && Decode(records[i][4..12]) <= |W.All(w)| {
      assert w.buffer[i] == W.All(w)[|w.written| + |w.hands| + i];
    }
  }

  lemma TopIsOld(ser: Record -> Bytes, records: seq<Bytes>, w: W.Wal, max: Option<Lsn>)
    requires BatchBelow(ser, records, |w.written| + |w.hands|) && w.hands == [] && w.flushed == |w.written|
    requires max.None? <==> exists i :: 0 <= i < |records| && |records[i]| < 12
    requires max.Some? ==> max.value == 0 || exists i ::
      0 <= i < |records| && |records[i]| >= 12 && Decode(records[i][4..12]) == max.value
    ensures max.Some? && max.value <= w.flushed
  {
  }
}
