// The files as bytes, written out: what the server writes for a first small transaction and for
// a snapshot of it, with the real checksums, and what recovery makes of exactly those bytes.
module Literals {
  import opened Kv
  import opened LittleEndian
  import opened Log
  import opened LogFacts
  import opened Codec
  import opened Recovery
  import opened RecordCrc
  import opened Disk
  import opened Scenarios
  import Crc
  import Framing
  import SnapshotFile

  // ---------------------------------------------------------------- three checksums

  lemma {:induction false} ZeroBytes(width: nat, i: nat)
    requires i < width
    ensures Encode(0, width)[i] == 0
  {
    if i > 0 {
      ZeroBytes(width - 1, i - 1);
    }
  }

  lemma SmallBytes(n: nat, width: nat, i: nat)
    requires n < 256 && i < width
    ensures Encode(n, width)[i] == if i == 0 then ToByte(n) else 0
  {
    if i > 0 {
      ZeroBytes(width - 1, i - 1);
    }
  }

  /** The thirteen bytes in front of the payload, for small numbers. */
  lemma SmallHeader(r: Record, i: nat)
    requires r.lsn < 256 && r.txn < 256 && i < 13
    ensures |BodyBytes(r)| >= 13
    ensures BodyBytes(r)[i] == if i == 0 then ToByte(r.lsn) else if i == 8 then ToByte(r.txn)
                               else if i == 12 then Code(r.body) else 0
  {
    if i < 8 {
      SmallBytes(r.lsn, 8, i);
    } else if i < 12 {
      SmallBytes(r.txn, 4, i - 8);
    }
  }

  lemma Next(start: bv32, data: Bytes, j: nat, x: bv8, c: bv32, r: bv32)
    requires j < |data| && data[j] == x && Crc.Feed(Crc.Eight, start, data[..j]) == c
    requires Crc.Octet(Crc.Xor(c, x as bv32)) == r
    ensures Crc.Feed(Crc.Eight, start, data[..j + 1]) == r
  {
    assert data[..j + 1] == data[..j] + [x];
    Crc.FeedMore(start, data[..j], c, x, r);
  }

  /** The bytes under the checksum of a BEGIN with LSN 1 and transaction 1. */
  predicate BeginBytes(data: Bytes) {
    |data| == 13 && forall i :: 0 <= i < 13 ==> data[i] == if i == 0 || i == 8 || i == 12 then 1 else 0
  }

  /** The payload of a PUT of "1" to the key "a". */
  predicate PutsA(data: Bytes) {
    |data| == 19
    && data[13] == 1 && data[14] == 0 && data[15] == 97 && data[16] == 1 && data[17] == 0 && data[18] == 49
  }

  /** The bytes under the checksum of that PUT with LSN 2 and transaction 1. */
  predicate PutBytes(data: Bytes) {
    PutsA(data) && forall i :: 0 <= i < 13 ==> data[i] == if i == 0 || i == 12 then 2 else if i == 8 then 1 else 0
  }

  lemma BeginFed1(start: bv32, data: Bytes)
    requires start == 0xFFFFFFFF && BeginBytes(data)
    ensures Crc.Feed(Crc.Eight, start, data[..5]) == 0x04BD2152
  {
    assert data[..0] == [];
    Next(start, data, 0, 1, 0xFFFFFFFF, 0x5AFA20E4);
    Next(start, data, 1, 0, 0x5AFA20E4, 0xA73DDC41);
    Next(start, data, 2, 0, 0xA73DDC41, 0x017C4CDA);
    Next(start, data, 3, 0, 0x017C4CDA, 0x66074786);
    Next(start, data, 4, 0, 0x66074786, 0x04BD2152);
  }

  lemma BeginFed2(start: bv32, data: Bytes)
    requires start == 0xFFFFFFFF && BeginBytes(data)
    ensures Crc.Feed(Crc.Eight, start, data[..9]) == 0x798ACF84
  {
    BeginFed1(start, data);
    Next(start, data, 5, 0, 0x04BD2152, 0x85618DF9);
    Next(start, data, 6, 0, 0x85618DF9, 0xC4E42B35);
    Next(start, data, 7, 0, 0xC4E42B35, 0x56772008);
    Next(start, data, 8, 1, 0x56772008, 0x798ACF84);
  }

  lemma BeginFed3(start: bv32, data: Bytes)
    requires start == 0xFFFFFFFF && BeginBytes(data)
    ensures Crc.Feed(Crc.Eight, start, data[..13]) == 0x677A79DE
  {
    BeginFed2(start, data);
    Next(start, data, 9, 0, 0x798ACF84, 0xEAACCDF6);
    Next(start, data, 10, 0, 0xEAACCDF6, 0x5434FBE4);
    Next(start, data, 11, 0, 0x5434FBE4, 0xA733129A);
    Next(start, data, 12, 1, 0xA733129A, 0x677A79DE);
  }

  lemma PutFed1(start: bv32, data: Bytes)
    requires start == 0xFFFFFFFF && PutBytes(data)
    ensures Crc.Feed(Crc.Eight, start, data[..5]) == 0x431D5B82
  {
    assert data[..0] == [];
    Next(start, data, 0, 2, 0xFFFFFFFF, 0xC3F3715E);
    Next(start, data, 1, 0, 0xC3F3715E, 0x8C108F82);
    Next(start, data, 2, 0, 0x8C108F82, 0x033AF283);
    Next(start, data, 3, 0, 0x033AF283, 0x74B2E868);
    Next(start, data, 4, 0, 0x74B2E868, 0x431D5B82);
  }

  lemma PutFed2(start: bv32, data: Bytes)
    requires start == 0xFFFFFFFF && PutBytes(data)
    ensures Crc.Feed(Crc.Eight, start, data[..9]) == 0x4007F341
  {
    PutFed1(start, data);
    Next(start, data, 5, 0, 0x431D5B82, 0x03F5FF57);
    Next(start, data, 6, 0, 0x03F5FF57, 0xF50C31A8);
    Next(start, data, 7, 0, 0xF50C31A8, 0xD8F827EB);
    Next(start, data, 8, 1, 0xD8F827EB, 0x4007F341);
  }

  lemma PutFed3(start: bv32, data: Bytes)
    requires start == 0xFFFFFFFF && PutBytes(data)
    ensures Crc.Feed(Crc.Eight, start, data[..13]) == 0x43B944AA
  {
    PutFed2(start, data);
    Next(start, data, 9, 0, 0x4007F341, 0x019B76F5);
    Next(start, data, 10, 0, 0x019B76F5, 0xCDD69DE5);
    Next(start, data, 11, 0, 0xCDD69DE5, 0xD0ADC06A);
    Next(start, data, 12, 2, 0xD0ADC06A, 0x43B944AA);
  }

  lemma PutFed4(start: bv32, data: Bytes)
    requires start == 0xFFFFFFFF && PutBytes(data)
    ensures Crc.Feed(Crc.Eight, start, data[..16]) == 0xC9306225
  {
    PutFed3(start, data);
    Next(start, data, 13, 1, 0x43B944AA, 0x4147C324);
    Next(start, data, 14, 0, 0x4147C324, 0x3C42A312);
    Next(start, data, 15, 97, 0x3C42A312, 0xC9306225);
  }

  lemma PutFed5(start: bv32, data: Bytes)
    requires start == 0xFFFFFFFF && PutBytes(data)
    ensures Crc.Feed(Crc.Eight, start, data[..19]) == 0x1F88D746
  {
    PutFed4(start, data);
    Next(start, data, 16, 1, 0xC9306225, 0x3CCAD4B3);
    Next(start, data, 17, 0, 0x3CCAD4B3, 0x525428E2);
    Next(start, data, 18, 49, 0x525428E2, 0x1F88D746);
  }

  lemma HeaderFacts(r: Record)
    requires r.lsn < 256 && r.txn == 1
    ensures |BodyBytes(r)| >= 13
    ensures forall i :: 0 <= i < 13 ==>
      BodyBytes(r)[i] == if i == 0 then ToByte(r.lsn) else if i == 8 then 1 else if i == 12 then Code(r.body) else 0
  {
    forall i | 0 <= i < 13
      ensures |BodyBytes(r)| >= 13
      ensures BodyBytes(r)[i] == if i == 0 then ToByte(r.lsn) else if i == 8 then 1
                                 else if i == 12 then Code(r.body) else 0
    {
      SmallHeader(r, i);
    }
  }

  lemma BeginSeal()
    ensures CrcSeal(BodyBytes(LOG1[0])) == CrcBytes(0x98858621)
  {
    var data := BodyBytes(LOG1[0]);
    HeaderFacts(LOG1[0]);
    BodyParts(LOG1[0], data);
    BeginFed3(0xFFFFFFFF, data);
    assert data[..13] == data;
    SealFrom(data, 0x677A79DE);
  }

  lemma SealFrom(data: Bytes, register: bv32)
    requires Crc.Feed(Crc.Eight, 0xFFFFFFFF, data) == register
    ensures CrcSeal(data) == CrcBytes(!register)
  {
  }

  lemma PutPayload()
    ensures PutsA(BodyBytes(LOG1[1]))
  {
    var data := BodyBytes(LOG1[1]);
    BodyParts(LOG1[1], data);
    SmallBytes(1, 2, 0);
    SmallBytes(1, 2, 1);
    assert Payload(LOG1[1].body) == Str(A) + Str(ONE);
    assert forall i :: 0 <= i < 6 ==> data[13 + i] == (Str(A) + Str(ONE))[i];
  }

  lemma PutSeal()
    ensures CrcSeal(BodyBytes(LOG1[1])) == CrcBytes(0xE07728B9)
  {
    var data := BodyBytes(LOG1[1]);
    HeaderFacts(LOG1[1]);
    PutPayload();
    PutFed5(0xFFFFFFFF, data);
    assert data[..19] == data;
    SealFrom(data, 0x1F88D746);
  }

  // COMMIT of transaction 1 with LSN 3

  predicate CommitBytes(data: Bytes) {
    |data| == 13
    && forall i :: 0 <= i < 13 ==> data[i] == if i == 0 then 3 else if i == 8 then 1 else if i == 12 then 4 else 0
  }

  lemma CommitFed1(start: bv32, data: Bytes)
    requires start == 0xFFFFFFFF && CommitBytes(data)
    ensures Crc.Feed(Crc.Eight, start, data[..5]) == 0x7E7D7232
  {
    assert data[..0] == [];
    Next(start, data, 0, 3, 0xFFFFFFFF, 0xB4F441C8);
    Next(start, data, 1, 0, 0xB4F441C8, 0x950BBEC3);
    Next(start, data, 2, 0, 0x950BBEC3, 0x02F898B4);
    Next(start, data, 3, 0, 0x02F898B4, 0xCC0E8F0D);
    Next(start, data, 4, 0, 0xCC0E8F0D, 0x7E7D7232);
  }

  lemma CommitFed2(start: bv32, data: Bytes)
    requires start == 0xFFFFFFFF && CommitBytes(data)
    ensures Crc.Feed(Crc.Eight, start, data[..9]) == 0x577CE702
  {
    CommitFed1(start, data);
    Next(start, data, 5, 0, 0x7E7D7232, 0xC8A92CF2);
    Next(start, data, 6, 0, 0xC8A92CF2, 0x537B3A1C);
    Next(start, data, 7, 0, 0x537B3A1C, 0x14522775);
    Next(start, data, 8, 1, 0x14522775, 0x577CE702);
  }

  lemma CommitFed3(start: bv32, data: Bytes)
    requires start == 0xFFFFFFFF && CommitBytes(data)
    ensures Crc.Feed(Crc.Eight, start, data[..13]) == 0x774C381A
  {
    CommitFed2(start, data);
    Next(start, data, 9, 0, 0x577CE702, 0xEE591DCB);
    Next(start, data, 10, 0, 0xEE591DCB, 0x0C584225);
    Next(start, data, 11, 0, 0x0C584225, 0x4B088C05);
    Next(start, data, 12, 4, 0x4B088C05, 0x774C381A);
  }

  lemma SmallByte(n: nat, b: bv8)
    requires n < 256 && OfByte(b) == n
    ensures ToByte(n) == b
  {
    ByteRoundTripBack(b);
  }

  lemma CommitBody()
    ensures CommitBytes(BodyBytes(LOG1[2]))
  {
    HeaderFacts(LOG1[2]);
    BodyParts(LOG1[2], BodyBytes(LOG1[2]));
    SmallByte(3, 3);
  }

  lemma CommitSeal()
    ensures CrcSeal(BodyBytes(LOG1[2])) == CrcBytes(0x88B3C7E5)
  {
    var data := BodyBytes(LOG1[2]);
    CommitBody();
    CommitFed3(0xFFFFFFFF, data);
    assert data[..13] == data;
    SealFrom(data, 0x774C381A);
  }

  // ---------------------------------------------------------------- the log file

  /** The log of BEGIN, PUT a 1, COMMIT on a new server. */
  predicate IsBeginA(r: Record) {
    r.lsn == 1 && r.txn == 1 && r.body == Begin
  }

  predicate IsPutA(r: Record) {
    r.lsn == 2 && r.txn == 1 && r.body.Change? && r.body.op.key == A && r.body.op.write == Put(ONE)
  }

  predicate IsCommitA(r: Record) {
    r.lsn == 3 && r.txn == 1 && r.body == Commit
  }

  predicate IsLogA(log: seq<Record>) {
    |log| == 3 && IsBeginA(log[0]) && IsPutA(log[1]) && IsCommitA(log[2])
  }

  /** BEGIN by transaction 1, as it stands in the log file. */
  const BEGIN_BYTES: Bytes := [0x21, 0x86, 0x85, 0x98, 1, 0, 0, 0, 0, 0, 0, 0, 1, 0, 0, 0, 1]

  /** Its PUT of "1" to the key "a". */
  const PUT_BYTES: Bytes :=
    [0xB9, 0x28, 0x77, 0xE0, 2, 0, 0, 0, 0, 0, 0, 0, 1, 0, 0, 0, 2, 1, 0, 97, 1, 0, 49]

  /** Its COMMIT. */
  const COMMIT_BYTES: Bytes := [0xE5, 0xC7, 0xB3, 0x88, 3, 0, 0, 0, 0, 0, 0, 0, 1, 0, 0, 0, 4]

  lemma BeginSealBytes(c: bv32)
    requires c == 0x98858621
    ensures CrcBytes(c) == BEGIN_BYTES[..4]
  {
  }

  lemma PutSealBytes(c: bv32)
    requires c == 0xE07728B9
    ensures CrcBytes(c) == PUT_BYTES[..4]
  {
  }

  lemma CommitSealBytes(c: bv32)
    requires c == 0x88B3C7E5
    ensures CrcBytes(c) == COMMIT_BYTES[..4]
  {
  }

  lemma BeginBody()
    ensures BeginBytes(BodyBytes(LOG1[0]))
  {
    HeaderFacts(LOG1[0]);
    BodyParts(LOG1[0], BodyBytes(LOG1[0]));
    SmallByte(1, 1);
  }

  lemma PutBody()
    ensures PutBytes(BodyBytes(LOG1[1]))
  {
    HeaderFacts(LOG1[1]);
    PutPayload();
    SmallByte(2, 2);
  }

  lemma BeginWhole(seal: Bytes, data: Bytes)
    requires seal == BEGIN_BYTES[..4] && BeginBytes(data)
    ensures seal + data == BEGIN_BYTES
  {
    assert |BEGIN_BYTES| == 4 + |data|;
    forall i | 0 <= i < |data| ensures data[i] == BEGIN_BYTES[4 + i] {
    }
  }

  lemma BeginWritten(c: bv32, r: Record)
    requires c == 0x98858621 && r == LOG1[0]
    ensures Serialize(CRC, r) == BEGIN_BYTES
  {
    BeginBody();
    BeginSeal();
    BeginSealBytes(c);
    BeginWhole(CrcBytes(c), BodyBytes(r));
  }

  lemma BeginIsWritten(c: bv32, r: Record)
    requires c == 0x98858621 && IsBeginA(r)
    ensures Serialize(CRC, r) == BEGIN_BYTES
  {
    BeginWritten(c, r);
  }

  lemma PutWhole(seal: Bytes, data: Bytes)
    requires seal == PUT_BYTES[..4] && PutBytes(data)
    ensures seal + data == PUT_BYTES
  {
    assert |PUT_BYTES| == 4 + |data|;
    forall i | 0 <= i < |data| ensures data[i] == PUT_BYTES[4 + i] {
    }
  }

  lemma PutWritten(c: bv32, r: Record)
    requires c == 0xE07728B9 && r == LOG1[1]
    ensures Serialize(CRC, r) == PUT_BYTES
  {
    PutBody();
    PutSeal();
    PutSealBytes(c);
    PutWhole(CrcBytes(c), BodyBytes(r));
  }

  lemma SamePut(r: Record)
    requires IsPutA(r)
    ensures r == LOG1[1]
  {
  }

  lemma PutIsWritten(c: bv32, r: Record)
    requires c == 0xE07728B9 && IsPutA(r)
    ensures Serialize(CRC, r) == PUT_BYTES
  {
    SamePut(r);
    PutWritten(c, r);
  }

  lemma CommitWhole(seal: Bytes, data: Bytes)
    requires seal == COMMIT_BYTES[..4] && CommitBytes(data)
    ensures seal + data == COMMIT_BYTES
  {
    assert |COMMIT_BYTES| == 4 + |data|;
    forall i | 0 <= i < |data| ensures data[i] == COMMIT_BYTES[4 + i] {
    }
  }

  lemma CommitWritten(c: bv32, r: Record)
    requires c == 0x88B3C7E5 && r == LOG1[2]
    ensures Serialize(CRC, r) == COMMIT_BYTES
  {
    CommitBody();
    CommitSeal();
    CommitSealBytes(c);
    CommitWhole(CrcBytes(c), BodyBytes(r));
  }

  lemma CommitIsWritten(c: bv32, r: Record)
    requires c == 0x88B3C7E5 && IsCommitA(r)
    ensures Serialize(CRC, r) == COMMIT_BYTES
  {
    CommitWritten(c, r);
  }

  lemma WriteThree(seal: Seal, log: seq<Record>, x: Bytes, y: Bytes, z: Bytes)
    requires |log| == 3
    requires Serialize(seal, log[0]) == x && Serialize(seal, log[1]) == y && Serialize(seal, log[2]) == z
    ensures LogBytes(seal, log) == x + (y + z)
  {
    var last, two := [log[2]], log[1..];
    assert two[1..] == last && last[1..] == [];
    assert LogBytes(seal, last) == z + LogBytes(seal, []);
    assert LogBytes(seal, two) == y + LogBytes(seal, last);
    assert z + [] == z;
  }

  /** Those records, byte by byte as they stand in the log file. */
  lemma LogIsWritten(log: seq<Record>)
    requires IsLogA(log)
    ensures Serialize(CRC, log[0]) == BEGIN_BYTES
    ensures Serialize(CRC, log[1]) == PUT_BYTES
    ensures Serialize(CRC, log[2]) == COMMIT_BYTES
  {
    BeginIsWritten(0x98858621, log[0]);
    PutIsWritten(0xE07728B9, log[1]);
    CommitIsWritten(0x88B3C7E5, log[2]);
  }

  lemma OpsOfA(begin: Record, put: Record, op: Op)
    requires begin == Record(1, 1, Begin) && put == Record(2, 1, Change(op))
    ensures OpsOf([begin, put], 1) == [op]
  {
    OpsOfAppend([], begin, 1);
    OpsOfAppend([begin], put, 1);
    assert [] + [begin] == [begin] && [begin] + [put] == [begin, put];
    assert [] + [op] == [op];
  }

  lemma FoldOfOne(begin: Record, put: Record, commit: Record, op: Op)
    requires begin == Record(1, 1, Begin) && put == Record(2, 1, Change(op)) && commit == Record(3, 1, Commit)
    ensures Fold([begin, put, commit]) == Apply(map[], op)
  {
    FoldAppend([], begin);
    FoldAppend([begin], put);
    FoldAppend([begin, put], commit);
    OpsOfA(begin, put, op);
    assert [] + [begin] == [begin] && [begin] + [put] == [begin, put];
    assert [begin, put] + [commit] == [begin, put, commit];
    assert [op][..0] == [];
  }

  lemma RecoveredA(log: seq<Record>)
    requires IsLogA(log)
    ensures Recovered(map[], 0, log) == map[A := ONE]
  {
    AboveSuffix(log, 0, 0);
    assert log[0..] == log;
    RecoveredIsFold(map[], 0, log);
    FoldOfOne(log[0], log[1], log[2], Put1());
    assert log == [log[0], log[1], log[2]];
  }

  lemma FitsA(log: seq<Record>)
    requires IsLogA(log)
    ensures AllFit(log)
  {
  }

  lemma ParsesThree(seal: Seal, log: seq<Record>, x: Bytes, y: Bytes, z: Bytes, file: Bytes)
    requires AllFit(log) && |log| == 3
    requires Serialize(seal, log[0]) == x && Serialize(seal, log[1]) == y && Serialize(seal, log[2]) == z
    requires file == x + (y + z)
    ensures ParseLog(seal, file) == log
  {
    WriteThree(seal, log, x, y, z);
    ParseWholeLog(seal, log);
  }

  lemma SomeLogA() returns (log: seq<Record>)
    ensures IsLogA(log)
  {
    log := LOG1;
  }

  lemma LogIsParsed(file: Bytes) returns (log: seq<Record>)
    requires file == BEGIN_BYTES + (PUT_BYTES + COMMIT_BYTES)
    ensures IsLogA(log) && ParseLog(CRC, file) == log
  {
    log := SomeLogA();
    FitsA(log);
    LogIsWritten(log);
    ParsesThree(CRC, log, BEGIN_BYTES, PUT_BYTES, COMMIT_BYTES, file);
  }

  lemma RecoversA(seal: Seal, file: Bytes, log: seq<Record>)
    requires IsLogA(log) && ParseLog(seal, file) == log
    ensures RecoverFiles(seal, None, Some(file), map[], 0) == map[A := ONE]
  {
    RecoveredA(log);
  }

  /** Exactly those bytes, found after a crash, recover to the store in which a is 1. */
  lemma LogIsRecovered(file: Bytes)
    requires file == BEGIN_BYTES + (PUT_BYTES + COMMIT_BYTES)
    ensures RecoverFiles(CRC, None, Some(file), map[], 0) == map[A := ONE]
  {
    var log := LogIsParsed(file);
    RecoversA(CRC, file, log);
  }

  // ---------------------------------------------------------------- the data file

  const SNAPSHOT_BYTES: Bytes :=
    [0x42, 0x44, 0x56, 0x4B, 1, 0, 0, 0, 3, 0, 0, 0, 0, 0, 0, 0, 1, 0, 0, 0, 0, 0, 0, 0, 1, 0, 97, 1, 0, 49]

  /** Every data file starts with these eight bytes: the magic number and the version. */
  lemma HeaderStarts(lsn: Lsn, count: nat)
    ensures SnapshotFile.Header(lsn, count)[..8] == [0x42, 0x44, 0x56, 0x4B, 1, 0, 0, 0]
  {
    MagicBytes(SnapshotFile.MAGIC);
    VersionBytes(SnapshotFile.VERSION);
  }

  lemma FourBytes(b: Bytes, w: bv8, x: bv8, y: bv8, z: bv8)
    requires |b| == 4 && b[0] == w && b[1] == x && b[2] == y && b[3] == z
    ensures b == [w, x, y, z]
  {
  }

  lemma MagicBytes(n: nat)
    requires n == 0x4B564442
    ensures Encode(n, 4) == [0x42, 0x44, 0x56, 0x4B]
  {
    ByteAt(n, 0, 0x42);
    ByteAt(n, 1, 0x44);
    ByteAt(n, 2, 0x56);
    ByteAt(n, 3, 0x4B);
    FourBytes(Encode(n, 4), 0x42, 0x44, 0x56, 0x4B);
  }

  lemma ByteAt(n: nat, i: nat, b: bv8)
    requires i < 4 && OfByte(b) == Shifted(n, i) % 256
    ensures Encode(n, 4)[i] == b
  {
    EncodeAt(n, 4, i);
    ByteRoundTripBack(b);
    ByteRoundTripBack(Encode(n, 4)[i]);
  }

  lemma VersionBytes(n: nat)
    requires n == 1
    ensures Encode(n, 4) == [1, 0, 0, 0]
  {
    ByteAt(n, 0, 1);
    ByteAt(n, 1, 0);
    ByteAt(n, 2, 0);
    ByteAt(n, 3, 0);
    FourBytes(Encode(n, 4), 1, 0, 0, 0);
  }

  lemma EightSmall(n: nat, b: bv8)
    requires n < 256 && OfByte(b) == n
    ensures Encode(n, 8) == [b, 0, 0, 0, 0, 0, 0, 0]
  {
    SmallByte(n, b);
    forall i: nat | i < 8 ensures Encode(n, 8)[i] == if i == 0 then b else 0 {
      SmallBytes(n, 8, i);
    }
  }

  lemma HeaderWhole(start: Bytes, lsn: Bytes, count: Bytes)
    requires start == SNAPSHOT_BYTES[..8] && lsn == [3, 0, 0, 0, 0, 0, 0, 0] && count == [1, 0, 0, 0, 0, 0, 0, 0]
    ensures start + lsn + count == SNAPSHOT_BYTES[..24]
  {
  }

  lemma SnapshotHeader(lsn: Lsn, count: nat)
    requires lsn == 3 && count == 1
    ensures SnapshotFile.Header(lsn, count) == SNAPSHOT_BYTES[..24]
  {
    var header := SnapshotFile.Header(lsn, count);
    HeaderStarts(lsn, count);
    EightSmall(lsn, 3);
    EightSmall(count, 1);
    assert header == header[..8] + Encode(lsn, 8) + Encode(count, 8);
    HeaderWhole(header[..8], Encode(lsn, 8), Encode(count, 8));
  }

  lemma SnapshotEntry(e: SnapshotFile.Entry)
    requires e == SnapshotFile.Entry(A, ONE)
    ensures SnapshotFile.EntryBytes(e) == SNAPSHOT_BYTES[24..]
  {
    SnapshotFile.ClippedIsStr(A);
    SnapshotFile.ClippedIsStr(ONE);
    SmallBytes(1, 2, 0);
    SmallBytes(1, 2, 1);
    SmallByte(1, 1);
  }

  /** The data file of a checkpoint at LSN 3 of the store in which a is 1, byte by byte. */
  lemma SnapshotIsWritten(entries: seq<SnapshotFile.Entry>)
    requires entries == [SnapshotFile.Entry(A, ONE)]
    ensures SnapshotFile.FileBytes(entries, 3) == SNAPSHOT_BYTES
  {
    SnapshotHeader(3, 1);
    SnapshotEntry(entries[0]);
    WriteOneEntry(SnapshotFile.EntryBytes, entries);
    SplitAt(SNAPSHOT_BYTES, 24);
  }

  lemma WriteOneEntry(ser: SnapshotFile.Entry -> Bytes, entries: seq<SnapshotFile.Entry>)
    requires |entries| == 1
    ensures Framing.Write(ser, entries) == ser(entries[0])
  {
    assert entries[1..] == [];
    assert ser(entries[0]) + [] == ser(entries[0]);
  }

  lemma SplitAt(b: Bytes, n: nat)
    requires n <= |b|
    ensures b == b[..n] + b[n..]
  {
  }

  lemma LoadsA(file: Bytes, entries: seq<SnapshotFile.Entry>, store: Store, lsn: Lsn)
    requires entries == [SnapshotFile.Entry(A, ONE)] && store == map[A := ONE] && lsn == 3
    requires file == SnapshotFile.FileBytes(entries, lsn)
    ensures SnapshotFile.Load(file, map[], 0) == (store, lsn)
  {
    assert entries[0] in entries;
    SnapshotFile.SnapshotRoundTrip(store, entries, lsn, 0);
  }

  /** Exactly those bytes load as that store and that LSN. */
  lemma SnapshotIsLoaded(file: Bytes)
    requires file == SNAPSHOT_BYTES
    ensures SnapshotFile.Load(file, map[], 0) == (map[A := ONE], 3)
  {
    var entries := [SnapshotFile.Entry(A, ONE)];
    SnapshotIsWritten(entries);
    LoadsA(file, entries, map[A := ONE], 3);
  }
}
