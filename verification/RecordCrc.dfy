// The seal that the log uses, the CRC-32 of the body, and what it catches.
module RecordCrc {
  import opened Kv
  import opened LittleEndian
  import opened Log
  import opened Codec
  import Crc
  import Framing

  function CrcBytes(c: bv32): Bytes {
    [(c & 0xFF) as bv8, ((c >> 8) & 0xFF) as bv8, ((c >> 16) & 0xFF) as bv8, ((c >> 24) & 0xFF) as bv8]
  }

  /** Reading the four bytes back into a word. */
  function CrcWord(b: Bytes): bv32
    requires |b| == 4
  {
    (b[0] as bv32) | ((b[1] as bv32) << 8) | ((b[2] as bv32) << 16) | ((b[3] as bv32) << 24)
  }

  lemma CrcWordBytes(c: bv32)
    ensures CrcWord(CrcBytes(c)) == c
  {
  }

  lemma SameCrcBytes(c: bv32, d: bv32)
    requires CrcBytes(c) == CrcBytes(d)
    ensures c == d
  {
    CrcWordBytes(c);
    CrcWordBytes(d);
  }

  function CrcSeal(body: Bytes): Bytes {
    CrcBytes(Crc.Crc32(body))
  }

  const CRC: Seal := CrcSeal

  // ---------------------------------------------------------------- damage inside a body

  /** The damaged body has the same type byte and the same length fields as the record. */
  predicate SameShape(r: Record, damaged: Bytes) {
    var body := BodyBytes(r);
    && |damaged| == |body|
    && damaged[12] == body[12]
    && (r.body.Change? ==>
          && damaged[13..15] == body[13..15]
          && (r.body.op.write.Put? ==>
                var at := 15 + |r.body.op.key|;
                damaged[at..at + 2] == body[at..at + 2]))
  }

  lemma PayloadParts(r: Record)
    requires r.body.Change?
    ensures var body := BodyBytes(r); var op := r.body.op;
      && |body| == 15 + |op.key| + (if op.write.Put? then 2 + |op.write.value| else 0)
      && body[13..15] == Encode(|op.key|, 2)
      && (op.write.Put? ==> body[15 + |op.key|..17 + |op.key|] == Encode(|op.write.value|, 2))
  {
    var body := BodyBytes(r);
    BodyParts(r, body);
    var p := Payload(r.body);
    var key := r.body.op.key;
    assert body[13..15] == body[13..][..2] == p[..2];
    assert p[..2] == Encode(|key|, 2);
    if r.body.op.write.Put? {
      assert body[15 + |key|..17 + |key|] == body[13..][2 + |key|..4 + |key|] == p[2 + |key|..4 + |key|];
      assert p == (Encode(|key|, 2) + key) + (Encode(|r.body.op.write.value|, 2) + r.body.op.write.value);
    }
  }

  lemma EncodedLength(m: nat, n: nat)
    requires m < 65536 && n < 65536 && Encode(m, 2) == Encode(n, 2)
    ensures m == n
  {
    Capacities();
    DecodeEncode(m, 2);
    DecodeEncode(n, 2);
  }

  lemma TakeField(b: Bytes, n: nat, lo: nat, hi: nat)
    requires lo <= hi <= n <= |b|
    ensures b[..n][lo..hi] == b[lo..hi]
  {
    Slice(b, 0, n, lo, hi);
    assert b[0..n] == b[..n];
  }

  /** The payload lengths of `r`, as its type and length fields in `b` give them. */
  predicate ShapeIn(r: Record, b: Bytes) {
    && |b| >= |BodyBytes(r)| && b[12] == Code(r.body)
    && (r.body.Change? ==>
          && b[13..15] == Encode(|r.body.op.key|, 2)
          && (r.body.op.write.Put? ==>
                b[15 + |r.body.op.key|..17 + |r.body.op.key|] == Encode(|r.body.op.write.value|, 2)))
  }

  lemma DamagedShape(r: Record, damaged: Bytes, rest: Bytes)
    requires SameShape(r, damaged)
    ensures ShapeIn(r, damaged + rest)
  {
    var body := BodyBytes(r);
    var b := damaged + rest;
    BodyParts(r, body);
    assert b[..|body|] == damaged;
    if r.body.Change? {
      PayloadParts(r);
      TakeField(b, |body|, 13, 15);
      if r.body.op.write.Put? {
        TakeField(b, |body|, 15 + |r.body.op.key|, 17 + |r.body.op.key|);
      }
    }
  }

  lemma PrefixShape(q: Record, b: Bytes)
    requires |BodyBytes(q)| <= |b| && b[..|BodyBytes(q)|] == BodyBytes(q)
    ensures ShapeIn(q, b)
  {
    var body := BodyBytes(q);
    BodyParts(q, body);
    assert b[12] == body[12];
    if q.body.Change? {
      PayloadParts(q);
      TakeField(b, |body|, 13, 15);
      if q.body.op.write.Put? {
        TakeField(b, |body|, 15 + |q.body.op.key|, 17 + |q.body.op.key|);
      }
    }
  }

  /** The type and length fields fix the length of the body. */
  lemma ShapeFixesLength(r: Record, q: Record, b: Bytes)
    requires Fits(r) && Fits(q) && ShapeIn(r, b) && ShapeIn(q, b)
    ensures |BodyBytes(q)| == |BodyBytes(r)|
  {
    BodyParts(r, BodyBytes(r));
    BodyParts(q, BodyBytes(q));
    if r.body.Change? {
      PayloadParts(r);
      PayloadParts(q);
      EncodedLength(|r.body.op.key|, |q.body.op.key|);
      if r.body.op.write.Put? {
        EncodedLength(|r.body.op.write.value|, |q.body.op.write.value|);
      }
    }
  }

  /** Whatever the reader accepts behind a seal is the body of some record with that seal. */
  lemma AcceptedBody(seal: Seal, crc: Bytes, tail: Bytes) returns (q: Record)
    requires |crc| == 4 && ReadRecord(seal, crc + tail).Some?
    ensures Fits(q) && |BodyBytes(q)| <= |tail| && tail[..|BodyBytes(q)|] == BodyBytes(q) && crc == seal(BodyBytes(q))
  {
    var b := crc + tail;
    var (q', n) := ReadRecord(seal, b).value;
    q := q';
    ReadRecordBack(seal, b, q, n);
    SealedSplit(seal, q, b, n);
    assert b[..4] == crc && b[4..n] == tail[..n - 4];
  }

  /** If the reader accepts a damaged record, the seal did not tell the damage from the original. */
  lemma DamageAccepted(seal: Seal, r: Record, damaged: Bytes, rest: Bytes)
    requires Fits(r) && SameShape(r, damaged)
    requires ReadRecord(seal, seal(BodyBytes(r)) + (damaged + rest)).Some?
    ensures seal(damaged) == seal(BodyBytes(r))
  {
    var tail := damaged + rest;
    var q := AcceptedBody(seal, seal(BodyBytes(r)), tail);
    DamagedShape(r, damaged, rest);
    PrefixShape(q, tail);
    ShapeFixesLength(r, q, tail);
    assert tail[..|damaged|] == damaged;
  }

  /** A damaged body that keeps its shape is rejected whenever the seal tells it from the original. */
  lemma DamageRejected(seal: Seal, r: Record, damaged: Bytes, rest: Bytes)
    requires Fits(r) && SameShape(r, damaged) && seal(damaged) != seal(BodyBytes(r))
    ensures ReadRecord(seal, seal(BodyBytes(r)) + (damaged + rest)) == None
  {
    if ReadRecord(seal, seal(BodyBytes(r)) + (damaged + rest)).Some? {
      DamageAccepted(seal, r, damaged, rest);
    }
  }

  lemma SealedSplit(seal: Seal, q: Record, b: Bytes, n: nat)
    requires n <= |b| && b[..n] == Serialize(seal, q)
    ensures 4 <= n && b[..4] == seal(BodyBytes(q)) && b[4..n] == BodyBytes(q)
  {
    assert b[..n][..4] == b[..4];
    assert b[..n][4..] == b[4..n];
  }

  /** Damage confined to the four bytes starting at `at`. */
  predicate Burst(body: Bytes, damaged: Bytes, at: nat) {
    && |damaged| == |body| && at + 4 <= |body| && damaged != body
    && forall i :: 0 <= i < |body| && !(at <= i < at + 4) ==> damaged[i] == body[i]
  }

  lemma BurstChangesSeal(body: Bytes, damaged: Bytes, at: nat)
    requires Burst(body, damaged, at)
    ensures CrcSeal(damaged) != CrcSeal(body)
  {
    var before, after := body[..at], body[at + 4..];
    var a, b := body[at..at + 4], damaged[at..at + 4];
    assert body == before + a + after;
    assert damaged == before + b + after;
    if CrcSeal(damaged) == CrcSeal(body) {
      SameCrcBytes(Crc.Crc32(damaged), Crc.Crc32(body));
      Crc.BurstChangesCrc(before, a, b, after);
    }
  }

  /**
   * If one record of a log is damaged in at most four adjacent body bytes, its type and
   * length fields aside, reading stops there: exactly the records before it come back.
   */
  lemma BurstStopsReading(log: seq<Record>, r: Record, damaged: Bytes, at: nat, rest: Bytes)
    requires AllFit(log) && Fits(r) && SameShape(r, damaged) && Burst(BodyBytes(r), damaged, at)
    ensures ParseLog(CRC, LogBytes(CRC, log) + (CrcSeal(BodyBytes(r)) + (damaged + rest))) == log
  {
    BurstChangesSeal(BodyBytes(r), damaged, at);
    DamageRejected(CRC, r, damaged, rest);
    RecordFormat(CRC);
    Framing.ParseLog((r: Record) => Serialize(CRC, r), (b: Bytes) => ReadRecord(CRC, b),
                     (r: Record) => Fits(r), log, CrcSeal(BodyBytes(r)) + (damaged + rest));
  }
}
