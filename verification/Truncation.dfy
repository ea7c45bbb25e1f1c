// The byte loop that drops covered records from the log file, as it is written: it expects a
// key length in every record and a value length in PUT and DELETE records.
module Truncation {
  import opened Kv
  import opened LittleEndian
  import opened Log
  import opened Codec
  import opened Recovery
  import Framing

  /** The length of the value part, if it can be read. */
  function ReadValuePart(b: Bytes, code: bv8, at: nat): Option<nat> {
    if code == PUT_CODE || code == DELETE_CODE then
      match ReadStr(b, at)
      case None => None
      case Some((_, end)) => Some(end)
    else if at <= |b| then Some(at)
    else None
  }

  /** One turn of the loop: the LSN and the length of what it takes for a record. */
  function ReadRaw(b: Bytes): Option<(Lsn, nat)> {
    if |b| < 17 then None
    else
      match ReadStr(b, 17)
      case None => None
      case Some((_, mid)) =>
        match ReadValuePart(b, b[16], mid) {
          case None => None
          case Some(end) => Some((Decode(b[4..12]), end))
        }
  }

  function Kept(b: Bytes, checkpoint: Lsn): Bytes {
    match ReadRaw(b)
    case None => []
    case Some((lsn, n)) =>
      if 0 < n <= |b| then (if lsn > checkpoint then b[..n] else []) + Kept(b[n..], checkpoint) else []
  }

  lemma ReadRawBounds(b: Bytes)
    requires ReadRaw(b).Some?
    ensures 17 <= ReadRaw(b).value.1 <= |b|
  {
  }

  lemma KeptNext(b: Bytes, checkpoint: Lsn, lsn: Lsn, n: nat)
    requires ReadRaw(b) == Some((lsn, n))
    ensures 17 <= n <= |b|
    ensures Kept(b, checkpoint) == (if lsn > checkpoint then b[..n] else []) + Kept(b[n..], checkpoint)
  {
    ReadRawBounds(b);
  }

  /** The LSNs of all that the loop takes for records. */
  function RawLsns(b: Bytes): seq<Lsn> {
    match ReadRaw(b)
    case None => []
    case Some((lsn, n)) => if 0 < n <= |b| then [lsn] + RawLsns(b[n..]) else []
  }

  predicate NoneAbove(lsns: seq<Lsn>, checkpoint: Lsn) {
    forall i :: 0 <= i < |lsns| ==> lsns[i] <= checkpoint
  }

  lemma NoneAboveFront(lsn: Lsn, rest: seq<Lsn>, checkpoint: Lsn)
    ensures NoneAbove([lsn] + rest, checkpoint) <==> lsn <= checkpoint && NoneAbove(rest, checkpoint)
  {
    var all := [lsn] + rest;
    if NoneAbove(all, checkpoint) {
      assert all[0] <= checkpoint;
      forall i | 0 <= i < |rest| ensures rest[i] <= checkpoint {
        assert all[i + 1] == rest[i];
      }
    }
  }

  /** Nothing is kept of a file exactly if no LSN that the loop finds in it is above the checkpoint. */
  lemma {:induction false} KeptNothingIff(b: Bytes, checkpoint: Lsn)
    ensures Kept(b, checkpoint) == [] <==> NoneAbove(RawLsns(b), checkpoint)
    decreases |b|
  {
    if ReadRaw(b).Some? {
      var (lsn, n) := ReadRaw(b).value;
      KeptNext(b, checkpoint, lsn, n);
      KeptNothingIff(b[n..], checkpoint);
      NoneAboveFront(lsn, RawLsns(b[n..]), checkpoint);
      assert |Kept(b, checkpoint)| == (if lsn > checkpoint then n else 0) + |Kept(b[n..], checkpoint)|;
    }
  }

  lemma Regroup(a: Bytes, b: Bytes, c: Bytes)
    ensures a + (b + c) == (a + b) + c && [] + c == c && a + [] == a
  {
  }

  method TruncateWal(file: Bytes, checkpoint: Lsn) returns (remaining: Bytes)
    ensures remaining == Kept(file, checkpoint)
  {
    remaining := [];
    var rest := file;
    var raw := ReadRaw(rest);
    while raw.Some?
      invariant raw == ReadRaw(rest)
      invariant remaining + Kept(rest, checkpoint) == Kept(file, checkpoint)
      decreases |rest|
    {
      var (lsn, n) := raw.value;
      KeptNext(rest, checkpoint, lsn, n);
      Regroup(remaining, rest[..n], Kept(rest[n..], checkpoint));
      if lsn > checkpoint {
        remaining := remaining + rest[..n];
      }
      rest := rest[n..];
      raw := ReadRaw(rest);
    }
    assert Kept(rest, checkpoint) == [];
    Regroup(remaining, [], []);
  }

  // ---------------------------------------------------------------- where it does what it should

  predicate IsPut(r: Record) {
    r.body.Change? && r.body.op.write.Put?
  }

  lemma ReadRawPut(seal: Seal, r: Record, rest: Bytes)
    requires Fits(r) && IsPut(r)
    ensures ReadRaw(Serialize(seal, r) + rest) == Some((r.lsn, |Serialize(seal, r)|))
  {
    var b := Serialize(seal, r) + rest;
    ReadRecordThere(seal, r, rest);
    var n := |Serialize(seal, r)|;
    Sealed(seal, r, rest, b);
    HeaderThere(b, r, n);
  }

  lemma AboveOne(r: Record, lsn: Lsn)
    ensures Above([r], lsn) == if r.lsn > lsn then [r] else []
  {
    assert [r][..0] == [];
  }

  lemma LogBytesConcat(seal: Seal, a: seq<Record>, b: seq<Record>)
    ensures LogBytes(seal, a + b) == LogBytes(seal, a) + LogBytes(seal, b)
  {
    Framing.WriteConcat((r: Record) => Serialize(seal, r), a, b);
  }

  lemma OneRecordLog(seal: Seal, r: Record)
    ensures LogBytes(seal, [r]) == Serialize(seal, r) && LogBytes(seal, []) == []
    ensures |Serialize(seal, r)| >= 17
  {
    Framing.WriteOne((r: Record) => Serialize(seal, r), r);
    Sealed(seal, r, [], Serialize(seal, r) + []);
  }

  /** Past a PUT record the loop goes on at the next record. */
  lemma KeptPut(seal: Seal, r: Record, rest: Bytes, checkpoint: Lsn)
    requires Fits(r) && IsPut(r)
    ensures Kept(Serialize(seal, r) + rest, checkpoint)
         == LogBytes(seal, Above([r], checkpoint)) + Kept(rest, checkpoint)
  {
    var b := Serialize(seal, r) + rest;
    ReadRawPut(seal, r, rest);
    KeptNext(b, checkpoint, r.lsn, |Serialize(seal, r)|);
    assert b[|Serialize(seal, r)|..] == rest && b[..|Serialize(seal, r)|] == Serialize(seal, r);
    AboveOne(r, checkpoint);
    OneRecordLog(seal, r);
  }

  lemma {:induction false} KeptPuts(seal: Seal, puts: seq<Record>, rest: Bytes, checkpoint: Lsn)
    requires AllFit(puts) && forall i :: 0 <= i < |puts| ==> IsPut(puts[i])
    ensures Kept(LogBytes(seal, puts) + rest, checkpoint)
         == LogBytes(seal, Above(puts, checkpoint)) + Kept(rest, checkpoint)
    decreases |puts|
  {
    OneRecordLog(seal, if puts == [] then Record(0, 0, Begin) else puts[0]);
    if puts == [] {
      assert LogBytes(seal, puts) + rest == rest;
      Regroup([], [], Kept(rest, checkpoint));
    } else {
      var r, more := puts[0], puts[1..];
      assert puts == [r] + more;
      LogBytesConcat(seal, [r], more);
      Regroup(Serialize(seal, r), LogBytes(seal, more), rest);
      MoreFits(puts);
      KeptPut(seal, r, LogBytes(seal, more) + rest, checkpoint);
      KeptPuts(seal, more, rest, checkpoint);
      AboveConcat([r], more, checkpoint);
      LogBytesConcat(seal, Above([r], checkpoint), Above(more, checkpoint));
      Regroup(LogBytes(seal, Above([r], checkpoint)), LogBytes(seal, Above(more, checkpoint)), Kept(rest, checkpoint));
    }
  }

  lemma MoreFits(log: seq<Record>)
    requires AllFit(log) && log != []
    ensures AllFit(log[1..]) && Fits(log[0])
  {
    forall i | 0 <= i < |log[1..]| ensures Fits(log[1..][i]) {
      assert Fits(log[i + 1]);
    }
  }

  /** On a log of PUT records alone the loop keeps exactly the records above the checkpoint. */
  lemma TruncationOfPuts(seal: Seal, puts: seq<Record>, checkpoint: Lsn)
    requires AllFit(puts) && forall i :: 0 <= i < |puts| ==> IsPut(puts[i])
    ensures Kept(LogBytes(seal, puts), checkpoint) == LogBytes(seal, Above(puts, checkpoint))
  {
    Regroup(LogBytes(seal, puts), [], []);
    KeptPuts(seal, puts, [], checkpoint);
    Regroup(LogBytes(seal, Above(puts, checkpoint)), [], []);
  }

  // ---------------------------------------------------------------- where it does not

  /** What the loop takes for a length behind a record that is not a PUT: half the next checksum. */
  function Misread(seal: Seal, next: Record): nat {
    Decode(seal(BodyBytes(next))[..2])
  }

  /** Behind `r` the file ends, or ends before as many bytes as the loop then wants. */
  predicate StopsAt(seal: Seal, r: Record, more: seq<Record>) {
    more == [] || 2 + Misread(seal, more[0]) > |LogBytes(seal, more)|
  }

  lemma NextSeal(seal: Seal, more: seq<Record>)
    requires more != []
    ensures |LogBytes(seal, more)| >= 2 && LogBytes(seal, more)[..2] == seal(BodyBytes(more[0]))[..2]
  {
    assert more == [more[0]] + more[1..];
    LogBytesConcat(seal, [more[0]], more[1..]);
    OneRecordLog(seal, more[0]);
  }

  lemma NoLengthThere(seal: Seal, r: Record, more: seq<Record>)
    requires StopsAt(seal, r, more)
    ensures ReadStr(Serialize(seal, r) + LogBytes(seal, more), |Serialize(seal, r)|) == None
  {
    OneRecordLog(seal, r);
    var at := |Serialize(seal, r)|;
    var b := Serialize(seal, r) + LogBytes(seal, more);
    if more != [] {
      NextSeal(seal, more);
      assert b[at..at + 2] == LogBytes(seal, more)[..2];
    }
  }

  lemma ReadRawStops(seal: Seal, r: Record, more: seq<Record>)
    requires Fits(r) && !IsPut(r) && StopsAt(seal, r, more)
    ensures ReadRaw(Serialize(seal, r) + LogBytes(seal, more)) == None
  {
    var b := Serialize(seal, r) + LogBytes(seal, more);
    var at := |Serialize(seal, r)|;
    NoLengthThere(seal, r, more);
    Sealed(seal, r, LogBytes(seal, more), b);
    BodyParts(r, BodyBytes(r));
    HeaderThere(b, r, at);
    if r.body.Change? {
      ReadStrThere(b, 17, r.body.op.key);
    }
  }

  lemma OnlyEmptyLogHasNoBytes(seal: Seal, log: seq<Record>)
    ensures LogBytes(seal, log) == [] <==> log == []
  {
    if log != [] {
      NextSeal(seal, log);
    } else {
      OneRecordLog(seal, Record(0, 0, Begin));
    }
  }

  /**
   * At the first record that is not a PUT the loop takes the next checksum for a length, and
   * stops if the file is shorter than that: it keeps nothing from there on. That is as
   * intended exactly if the checkpoint covers all that follows.
   */
  lemma TruncationStopsIff(seal: Seal, puts: seq<Record>, r: Record, more: seq<Record>, checkpoint: Lsn)
    requires AllFit(puts) && (forall i :: 0 <= i < |puts| ==> IsPut(puts[i]))
    requires Fits(r) && !IsPut(r) && StopsAt(seal, r, more)
    ensures var log := puts + ([r] + more);
      && Kept(LogBytes(seal, log), checkpoint) == LogBytes(seal, Above(puts, checkpoint))
      && (Kept(LogBytes(seal, log), checkpoint) == LogBytes(seal, Above(log, checkpoint)) <==>
          Above([r] + more, checkpoint) == [])
  {
    var tail := [r] + more;
    LogBytesConcat(seal, puts, tail);
    LogBytesConcat(seal, [r], more);
    OneRecordLog(seal, r);
    ReadRawStops(seal, r, more);
    KeptPuts(seal, puts, LogBytes(seal, tail), checkpoint);
    var kept := LogBytes(seal, Above(puts, checkpoint));
    Regroup(kept, [], []);
    AboveConcat(puts, tail, checkpoint);
    LogBytesConcat(seal, Above(puts, checkpoint), Above(tail, checkpoint));
    OnlyEmptyLogHasNoBytes(seal, Above(tail, checkpoint));
  }
}
