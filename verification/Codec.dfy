// The byte format of log records: a four-byte seal over the body, then LSN, transaction id,
// type and a payload that depends on the type. The framing is the same for every seal.
module Codec {
  import opened Kv
  import opened LittleEndian
  import opened Log
  import Framing

  type Seal = f: Bytes -> Bytes | forall b :: |f(b)| == 4 witness (b: Bytes) => [0, 0, 0, 0]

  const PUT_CODE: bv8 := 2
  const DELETE_CODE: bv8 := 3

  function Code(b: Body): bv8 {
    match b
    case Begin => 1
    case Change(op) => if op.write.Put? then PUT_CODE else DELETE_CODE
    case Commit => 4
    case Abort => 5
    case Unknown(code) => code
  }

  /** A string behind its length; the length is cast to 16 bits. */
  function Str(s: Bytes): Bytes {
    Encode(|s|, 2) + s
  }

  function Payload(b: Body): Bytes {
    match b
    case Change(op) => if op.write.Put? then Str(op.key) + Str(op.write.value) else Str(op.key)
    case _ => []
  }

  function BodyBytes(r: Record): Bytes {
    Encode(r.lsn, 8) + Encode(r.txn, 4) + [Code(r.body)] + Payload(r.body)
  }

  function Serialize(seal: Seal, r: Record): Bytes {
    seal(BodyBytes(r)) + BodyBytes(r)
  }

  // ---------------------------------------------------------------- the layout, byte by byte

  /** The type byte of a record, the seventeenth. */
  lemma TypeByte(seal: Seal, r: Record)
    ensures |Serialize(seal, r)| >= 17
    ensures Serialize(seal, r)[16] == match r.body
      case Begin => 1
      case Change(Op(_, Put(_))) => 2
      case Change(Op(_, Delete)) => 3
      case Commit => 4
      case Abort => 5
      case Unknown(code) => code
  {
    BodyParts(r, BodyBytes(r));
  }

  /** A number in a field of the file, lowest byte first. */
  predicate NumberAt(b: Bytes, at: nat, width: nat, n: nat) {
    at + width <= |b| && forall i :: 0 <= i < width ==> OfByte(b[at + i]) == Shifted(n, i) % 256
  }

  lemma EncodedAt(b: Bytes, at: nat, width: nat, n: nat)
    requires at + width <= |b| && b[at..at + width] == Encode(n, width)
    ensures NumberAt(b, at, width, n)
  {
    forall i | 0 <= i < width ensures OfByte(b[at + i]) == Shifted(n, i) % 256 {
      EncodeAt(n, width, i);
      assert b[at + i] == b[at..at + width][i];
    }
  }

  /** A string in the file: its length in two bytes, and then its bytes. */
  predicate StringAt(b: Bytes, at: nat, s: Bytes) {
    NumberAt(b, at, 2, |s|) && at + 2 + |s| <= |b| && b[at + 2..at + 2 + |s|] == s
  }

  lemma StrAt(b: Bytes, at: nat, s: Bytes)
    requires at + 2 + |s| <= |b| && b[at..at + 2 + |s|] == Str(s)
    ensures StringAt(b, at, s)
  {
    var part := b[at..at + 2 + |s|];
    Slice(b, at, at + 2 + |s|, 0, 2);
    Slice(b, at, at + 2 + |s|, 2, 2 + |s|);
    assert part[0..2] == Encode(|s|, 2) && part[2..2 + |s|] == s;
    EncodedAt(b, at, 2, |s|);
  }

  /**
   * A record in the log file: four bytes of checksum over the rest, eight of LSN, four of
   * transaction id, one of type, and for PUT and DELETE the key and for PUT the value behind it.
   */
  lemma RecordLayout(seal: Seal, r: Record)
    ensures var b := Serialize(seal, r);
      && |b| == 17 + (match r.body
                      case Change(Op(key, Put(value))) => 4 + |key| + |value|
                      case Change(Op(key, Delete)) => 2 + |key|
                      case _ => 0)
      && b[..4] == seal(b[4..]) && NumberAt(b, 4, 8, r.lsn) && NumberAt(b, 12, 4, r.txn)
      && (r.body.Change? ==> StringAt(b, 17, r.body.op.key))
      && (r.body.Change? && r.body.op.write.Put? ==> StringAt(b, 19 + |r.body.op.key|, r.body.op.write.value))
  {
    var b := Serialize(seal, r);
    var whole := BodyBytes(r);
    BodyParts(r, whole);
    assert b[4..] == whole && b[..4] == seal(whole);
    assert b[4..12] == whole[..8] && b[12..16] == whole[8..12] && b[17..] == whole[13..];
    EncodedAt(b, 4, 8, r.lsn);
    EncodedAt(b, 12, 4, r.txn);
    if r.body.Change? {
      PayloadLayout(b, r.body.op);
    }
  }

  lemma PayloadLayout(b: Bytes, op: Op)
    requires |b| >= 17 && b[17..] == Payload(Change(op))
    ensures StringAt(b, 17, op.key)
    ensures op.write.Put? ==> StringAt(b, 19 + |op.key|, op.write.value)
  {
    var payload := b[17..];
    var mid := 19 + |op.key|;
    assert b[17..mid] == payload[..2 + |op.key|] == Str(op.key);
    StrAt(b, 17, op.key);
    if op.write.Put? {
      assert b[mid..mid + 2 + |op.write.value|] == payload[2 + |op.key|..] == Str(op.write.value);
      StrAt(b, mid, op.write.value);
    }
  }

  // ---------------------------------------------------------------- reading

  function ReadStr(b: Bytes, at: nat): (r: Option<(Bytes, nat)>) {
    if at + 2 > |b| then None
    else
      var n := Decode(b[at..at + 2]);
      if at + 2 + n > |b| then None else Some((b[at + 2..at + 2 + n], at + 2 + n))
  }

  function PlainBody(code: bv8): Body {
    if code == 1 then Begin else if code == 4 then Commit else if code == 5 then Abort else Unknown(code)
  }

  function ReadPayload(code: bv8, b: Bytes, at: nat): Option<(Body, nat)> {
    if code == PUT_CODE then
      match ReadStr(b, at)
      case None => None
      case Some((key, mid)) =>
        match ReadStr(b, mid) {
          case None => None
          case Some((value, end)) => Some((Change(Op(key, Put(value))), end))
        }
    else if code == DELETE_CODE then
      match ReadStr(b, at)
      case None => None
      case Some((key, end)) => Some((Change(Op(key, Delete)), end))
    else if at <= |b| then Some((PlainBody(code), at))
    else None
  }

  /** One turn of the recovery loop: the record and its length, or nothing if it must stop. */
  function ReadRecord(seal: Seal, b: Bytes): Option<(Record, nat)> {
    if |b| < 17 then None
    else
      match ReadPayload(b[16], b, 17)
      case None => None
      case Some((body, end)) =>
        var r := Record(Decode(b[4..12]), Decode(b[12..16]), body);
        if b[..4] == seal(BodyBytes(r)) then Some((r, end)) else None
  }

  // ---------------------------------------------------------------- what fits the format

  predicate BodyFits(b: Body) {
    match b
    case Change(op) => |op.key| < 65536 && (op.write.Put? ==> |op.write.value| < 65536)
    case Unknown(code) => code == 0 || code > 5
    case _ => true
  }

  predicate Fits(r: Record) {
    r.lsn < 0x1_0000_0000_0000_0000 && r.txn < 0x1_0000_0000 && BodyFits(r.body)
  }

  // ---------------------------------------------------------------- strings

  lemma ReadStrBack(b: Bytes, at: nat, s: Bytes, end: nat)
    requires ReadStr(b, at) == Some((s, end))
    ensures at + 2 <= end <= |b| && |s| < 65536 && b[at..end] == Str(s) && end == at + 2 + |s|
  {
    var len := b[at..at + 2];
    LengthBack(len);
    assert b[at..end] == len + b[at + 2..end];
  }

  lemma LengthThere(n: nat)
    requires n < 65536
    ensures Decode(Encode(n, 2)) == n
  {
    Capacities();
    DecodeEncode(n, 2);
  }

  lemma LengthBack(len: Bytes)
    requires |len| == 2
    ensures Decode(len) < 65536 && Encode(Decode(len), 2) == len
  {
    Capacities();
    EncodeDecode(len);
  }

  lemma ReadStrThere(b: Bytes, at: nat, s: Bytes)
    requires at + 2 + |s| <= |b| && |s| < 65536 && b[at..at + 2 + |s|] == Str(s)
    ensures ReadStr(b, at) == Some((s, at + 2 + |s|))
  {
    var end := at + 2 + |s|;
    LengthThere(|s|);
    assert b[at..at + 2] == b[at..end][..2] == Encode(|s|, 2);
    assert b[at + 2..end] == b[at..end][2..] == s;
  }

  // ---------------------------------------------------------------- payloads

  lemma ReadPayloadBack(b: Bytes, at: nat, code: bv8, body: Body, end: nat)
    requires ReadPayload(code, b, at) == Some((body, end))
    ensures at <= end <= |b| && b[at..end] == Payload(body) && Code(body) == code && BodyFits(body)
  {
    if code == PUT_CODE {
      var (key, mid) := ReadStr(b, at).value;
      var (value, last) := ReadStr(b, mid).value;
      ReadStrBack(b, at, key, mid);
      ReadStrBack(b, mid, value, last);
      assert b[at..end] == b[at..mid] + b[mid..end];
    } else if code == DELETE_CODE {
      var (key, last) := ReadStr(b, at).value;
      ReadStrBack(b, at, key, last);
    }
  }

  lemma ReadPayloadThere(b: Bytes, at: nat, body: Body)
    requires at + |Payload(body)| <= |b| && b[at..at + |Payload(body)|] == Payload(body) && BodyFits(body)
    ensures ReadPayload(Code(body), b, at) == Some((body, at + |Payload(body)|))
  {
    if body.Change? {
      var key := body.op.key;
      var mid := at + 2 + |key|;
      assert b[at..mid] == b[at..at + |Payload(body)|][..2 + |key|] == Str(key);
      ReadStrThere(b, at, key);
      if body.op.write.Put? {
        var value := body.op.write.value;
        var end := mid + 2 + |value|;
        assert b[mid..end] == b[at..end][2 + |key|..] == Str(value);
        ReadStrThere(b, mid, value);
      }
    }
  }

  // ---------------------------------------------------------------- records

  lemma HeaderBack(b: Bytes, body: Body, end: nat)
    requires 17 <= end <= |b| && b[17..end] == Payload(body) && b[16] == Code(body)
    ensures b[4..end] == BodyBytes(Record(Decode(b[4..12]), Decode(b[12..16]), body))
  {
    EncodeDecode(b[4..12]);
    EncodeDecode(b[12..16]);
    assert b[4..end] == b[4..12] + b[12..16] + [b[16]] + b[17..end];
  }

  lemma BodyParts(r: Record, whole: Bytes)
    requires whole == BodyBytes(r)
    ensures |whole| == 13 + |Payload(r.body)|
    ensures whole[..8] == Encode(r.lsn, 8) && whole[8..12] == Encode(r.txn, 4)
    ensures whole[12] == Code(r.body) && whole[13..] == Payload(r.body)
  {
  }

  /** What the loop accepts is exactly a serialized record that fits the format. */
  lemma ReadRecordBack(seal: Seal, b: Bytes, r: Record, n: nat)
    requires ReadRecord(seal, b) == Some((r, n))
    ensures Fits(r) && 17 <= n <= |b| && b[..n] == Serialize(seal, r)
  {
    ReadPayloadBack(b, 17, b[16], r.body, n);
    HeaderBack(b, r.body, n);
    Capacities();
    EncodeDecode(b[4..12]);
    EncodeDecode(b[12..16]);
    assert b[..n] == b[..4] + b[4..n];
  }

  lemma Slice(b: Bytes, lo: nat, hi: nat, i: nat, j: nat)
    requires lo <= hi <= |b| && i <= j <= hi - lo
    ensures b[lo..hi][i..j] == b[lo + i..lo + j]
  {
    var part := b[lo..hi][i..j];
    forall k | 0 <= k < j - i ensures part[k] == b[lo + i..lo + j][k] {
      assert part[k] == b[lo..hi][i + k];
    }
  }

  lemma HeaderThere(b: Bytes, r: Record, end: nat)
    requires Fits(r) && 17 <= end <= |b| && b[4..end] == BodyBytes(r)
    ensures Decode(b[4..12]) == r.lsn && Decode(b[12..16]) == r.txn && b[16] == Code(r.body)
    ensures b[17..end] == Payload(r.body)
  {
    var whole := b[4..end];
    BodyParts(r, whole);
    Slice(b, 4, end, 0, 8);
    Slice(b, 4, end, 8, 12);
    Slice(b, 4, end, 13, |whole|);
    assert whole[0..8] == whole[..8] && whole[13..|whole|] == whole[13..];
    Capacities();
    DecodeEncode(r.lsn, 8);
    DecodeEncode(r.txn, 4);
  }

  lemma Sealed(seal: Seal, r: Record, rest: Bytes, b: Bytes)
    requires b == Serialize(seal, r) + rest
    ensures 17 <= |Serialize(seal, r)| <= |b|
    ensures b[..4] == seal(BodyBytes(r)) && b[4..|Serialize(seal, r)|] == BodyBytes(r)
  {
    BodyParts(r, BodyBytes(r));
  }

  lemma ReadRecordThere(seal: Seal, r: Record, rest: Bytes)
    requires Fits(r)
    ensures ReadRecord(seal, Serialize(seal, r) + rest) == Some((r, |Serialize(seal, r)|))
  {
    var b := Serialize(seal, r) + rest;
    var n := |Serialize(seal, r)|;
    Sealed(seal, r, rest, b);
    HeaderThere(b, r, n);
    ReadPayloadThere(b, 17, r.body);
  }

  // ---------------------------------------------------------------- logs

  function LogBytes(seal: Seal, log: seq<Record>): Bytes {
    Framing.Write((r: Record) => Serialize(seal, r), log)
  }

  function ParseLog(seal: Seal, b: Bytes): seq<Record> {
    Framing.Parse((b: Bytes) => ReadRecord(seal, b), b)
  }

  predicate AllFit(log: seq<Record>) {
    Framing.AllFit((r: Record) => Fits(r), log)
  }

  lemma RecordFormat(seal: Seal)
    ensures Framing.Format((r: Record) => Serialize(seal, r), (b: Bytes) => ReadRecord(seal, b), (r: Record) => Fits(r))
  {
    forall r: Record, rest: Bytes | Fits(r)
      ensures ReadRecord(seal, Serialize(seal, r) + rest) == Some((r, |Serialize(seal, r)|))
    {
      ReadRecordThere(seal, r, rest);
    }
    forall b: Bytes | ReadRecord(seal, b).Some?
      ensures var (r, n) := ReadRecord(seal, b).value; Fits(r) && 0 < n <= |b| && b[..n] == Serialize(seal, r)
    {
      var (r, n) := ReadRecord(seal, b).value;
      ReadRecordBack(seal, b, r, n);
    }
  }

  /** Any serialized records followed by any strict prefix of one more parse to exactly the complete ones. */
  lemma ParseTornLog(seal: Seal, log: seq<Record>, r: Record, cut: nat)
    requires AllFit(log) && Fits(r) && cut < |Serialize(seal, r)|
    ensures ParseLog(seal, LogBytes(seal, log) + Serialize(seal, r)[..cut]) == log
  {
    RecordFormat(seal);
    Framing.ParseTorn((r: Record) => Serialize(seal, r), (b: Bytes) => ReadRecord(seal, b),
                      (r: Record) => Fits(r), log, r, cut);
  }

  /** A log cut at any byte keeps exactly the records that end before the cut. */
  lemma ParseCutLog(seal: Seal, log: seq<Record>, cut: nat) returns (n: nat)
    requires AllFit(log) && cut <= |LogBytes(seal, log)|
    ensures n <= |log| && ParseLog(seal, LogBytes(seal, log)[..cut]) == log[..n] && |LogBytes(seal, log[..n])| <= cut
    ensures forall m :: 0 <= m <= |log| && |LogBytes(seal, log[..m])| <= cut ==> m <= n
  {
    RecordFormat(seal);
    n := Framing.ParseCut((r: Record) => Serialize(seal, r), (b: Bytes) => ReadRecord(seal, b),
                          (r: Record) => Fits(r), log, cut);
  }

  /** A record comes back from its bytes exactly when its numbers and lengths fit their fields. */
  lemma RoundTripIff(seal: Seal, r: Record)
    ensures ReadRecord(seal, Serialize(seal, r)) == Some((r, |Serialize(seal, r)|)) <==> Fits(r)
  {
    if Fits(r) {
      ReadRecordThere(seal, r, []);
      assert Serialize(seal, r) + [] == Serialize(seal, r);
    }
    if ReadRecord(seal, Serialize(seal, r)) == Some((r, |Serialize(seal, r)|)) {
      ReadRecordBack(seal, Serialize(seal, r), r, |Serialize(seal, r)|);
    }
  }
}
