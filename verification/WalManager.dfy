// The log manager and the group-commit flusher as objects working on serialized records,
// proved against the record-level log that the engine's actions use.
module WalManager {
  import opened Kv
  import opened LittleEndian
  import opened Log
  import opened Codec
  import Framing
  import W = Wal

  // ---------------------------------------------------------------- serialization

  method AppendUint(b: Bytes, v: nat, width: nat) returns (out: Bytes)
    ensures out == b + Encode(v, width)
  {
    out := b;
    var left := v;
    for i := 0 to width
      invariant out + Encode(left, width - i) == b + Encode(v, width)
    {
      var low := ToByte(left % 256);
      assert Encode(left, width - i) == [low] + Encode(left / 256, width - i - 1);
      assert out + ([low] + Encode(left / 256, width - i - 1)) == out + [low] + Encode(left / 256, width - i - 1);
      out := out + [low];
      left := left / 256;
    }
    assert out + [] == out;
  }

  method AppendStr(b: Bytes, s: Bytes) returns (out: Bytes)
    ensures out == b + Str(s)
  {
    out := AppendUint(b, |s|, 2);
    out := out + s;
    assert b + Encode(|s|, 2) + s == b + (Encode(|s|, 2) + s);
  }

  method AppendPayload(b: Bytes, body: Body) returns (out: Bytes)
    ensures out == b + Payload(body)
  {
    out := b;
    if body.Change? {
      out := AppendStr(out, body.op.key);
      if body.op.write.Put? {
        out := AppendStr(out, body.op.write.value);
        assert b + Str(body.op.key) + Str(body.op.write.value) == b + (Str(body.op.key) + Str(body.op.write.value));
      }
    }
  }

  method SerializeRecord(seal: Seal, r: Record) returns (out: Bytes)
    ensures out == Serialize(seal, r)
  {
    var body := AppendUint([], r.lsn, 8);
    body := AppendUint(body, r.txn, 4);
    body := body + [Code(r.body)];
    body := AppendPayload(body, r.body);
    assert [] + Encode(r.lsn, 8) == Encode(r.lsn, 8);
    out := seal(body) + body;
  }

  /** The LSN field of a serialized record, or nothing if the record is too short to hold one. */
  method ParseLsn(rec: Bytes) returns (lsn: Option<Lsn>)
    ensures lsn == if |rec| < 12 then None else Some(Decode(rec[4..12]))
  {
    if |rec| < 12 {
      return None;
    }
    var v, weight := 0, 1;
    for i := 0 to 8
      invariant weight == Capacity(i)
      invariant v == Decode(rec[4..4 + i])
    {
      DecodeNext(rec[4..4 + i], rec[4 + i]);
      assert rec[4..4 + (i + 1)] == rec[4..4 + i] + [rec[4 + i]];
      v := v + OfByte(rec[4 + i]) * weight;
      weight := 256 * weight;
    }
    return Some(v);
  }

  lemma {:induction false} DecodeNext(front: Bytes, x: bv8)
    ensures Decode(front + [x]) == Decode(front) + OfByte(x) * Capacity(|front|)
    decreases |front|
  {
    if front == [] {
      assert [] + [x] == [x] && [x][1..] == [];
    } else {
      var rest := front[1..];
      DecodeNext(rest, x);
      assert (front + [x])[1..] == rest + [x];
      Carry(Decode(rest), OfByte(x), Capacity(|rest|));
    }
  }

  lemma Carry(d: nat, e: nat, c: nat)
    ensures 256 * (d + e * c) == 256 * d + e * (256 * c)
  {
  }

  // ---------------------------------------------------------------- where the LSN is

  const LSN_LIMIT: nat := 0x1_0000_0000_0000_0000

  /** Every serialized record carries its LSN in bytes 4 to 12, whatever its key and value. */
  ghost predicate LsnAtFour(ser: Record -> Bytes) {
    forall r: Record :: r.lsn < LSN_LIMIT ==> |ser(r)| >= 12 && Decode(ser(r)[4..12]) == r.lsn
  }

  lemma SerializePutsLsnAtFour(seal: Seal)
    ensures LsnAtFour((r: Record) => Serialize(seal, r))
  {
    forall r: Record | r.lsn < LSN_LIMIT
      ensures |Serialize(seal, r)| >= 12 && Decode(Serialize(seal, r)[4..12]) == r.lsn
    {
      var rec, body := Serialize(seal, r), BodyBytes(r);
      BodyParts(r, body);
      assert rec[4..12] == body[..8];
      Capacities();
      DecodeEncode(r.lsn, 8);
    }
  }

  // ---------------------------------------------------------------- the manager

  ghost predicate Serialized(ser: Record -> Bytes, bytes: seq<Bytes>, records: seq<Record>) {
    |bytes| == |records| && forall i :: 0 <= i < |records| ==> bytes[i] == ser(records[i])
  }

  class WalManager {
    const ser: Record -> Bytes
    var nextLsn: Lsn
    var flushedLsn: Lsn
    var buffer: seq<Bytes>
    var stream: Bytes         // what the log stream has taken and not yet passed on
    var file: Bytes           // the log file
    ghost var model: W.Wal

    ghost predicate Valid()
      reads this
    {
      && LsnAtFour(ser)
      && W.WalOk(model)
      && nextLsn == model.nextLsn <= LSN_LIMIT
      && flushedLsn == model.flushed
      && Serialized(ser, buffer, model.buffer)
    }

    /** File and stream together hold the written records above `from`. */
    ghost predicate FileShows(from: nat)
      reads this
    {
      && from <= model.passed <= |model.written|
      && file == Framing.Write(ser, model.written[from..model.passed])
      && stream == Framing.Write(ser, model.written[model.passed..])
    }

    constructor (ser: Record -> Bytes)
      requires LsnAtFour(ser)
      ensures Valid() && model == W.FRESH && this.ser == ser && FileShows(0)
    {
      this.ser := ser;
      nextLsn, flushedLsn, buffer, stream, file := 1, 0, [], [], [];
      model := W.FRESH;
      new;
      assert W.All(W.FRESH) == [];
    }

    /** logBegin, logPut, logDelete, logCommit and logAbort: number the record and buffer its bytes. */
    method LogRecord(t: TxnId, body: Body) returns (lsn: Lsn)
      requires Valid() && nextLsn < LSN_LIMIT
      modifies this`nextLsn, this`buffer, this`model
      ensures Valid() && lsn == old(nextLsn) && model == W.Append(old(model), t, body)
    {
      lsn := nextLsn;
      nextLsn := nextLsn + 1;
      buffer := buffer + [ser(Record(lsn, t, body))];
      W.AppendKeeps(model, t, body);
      model := W.Append(model, t, body);
    }

    method FetchAndClearBuffer() returns (out: seq<Bytes>)
      requires Valid() && !model.flushing
      modifies this`buffer, this`model
      ensures Valid() && model == W.Fetch(old(model)) && out == old(buffer) && buffer == []
      ensures Serialized(ser, out, old(model.buffer))
    {
      out := buffer;
      buffer := [];
      W.FetchKeeps(model);
      model := W.Fetch(model);
    }

    /** The mark rises to the LSN if that is higher, and never falls. */
    method UpdateFlushedLsn(lsn: Lsn)
      modifies this`flushedLsn
      ensures flushedLsn >= old(flushedLsn) && flushedLsn >= lsn
      ensures flushedLsn == old(flushedLsn) || flushedLsn == lsn
    {
      if lsn > flushedLsn {
        flushedLsn := lsn;
      }
    }

    /** Hands one record to the log stream and raises the mark. */
    method WriteRecord(rec: Bytes)
      requires Valid() && model.hands != [] && rec == ser(model.hands[0])
      modifies this`flushedLsn, this`stream, this`model
      ensures Valid() && model == W.WriteOne(old(model)) && stream == old(stream) + rec
    {
      stream := stream + rec;
      assert model.hands[0] == W.All(model)[|model.written|];
      if |rec| >= 12 {
        UpdateFlushedLsn(Decode(rec[4..12]));
      }
      W.WriteOneKeeps(model);
      model := W.WriteOne(model);
    }

    /** Flushes the log stream to the file. */
    method FlushStream()
      requires Valid()
      modifies this`stream, this`file, this`model
      ensures Valid() && model == W.Pass(old(model)) && file == old(file) + old(stream) && stream == []
    {
      file, stream := file + stream, [];
      W.PassKeeps(model);
      model := W.Pass(model);
    }

    /** The write loop, record by record, and then the flush of the stream. */
    method WriteToDisk(records: seq<Bytes>)
      requires Valid() && Serialized(ser, records, model.hands)
      modifies this`flushedLsn, this`stream, this`file, this`model
      ensures Valid() && stream == []
      ensures file == old(file) + old(stream) + Framing.Write(ser, old(model.hands))
      ensures model == old(model).(hands := [], written := old(model.written) + old(model.hands), flushed := flushedLsn,
                                  passed := |old(model.written)| + |old(model.hands)|)
    {
      ghost var before, start := model, stream;
      ghost var hands := model.hands;
      assert hands[0..] == hands && before.written + hands[..0] == before.written;
      assert start + [] == start;
      for i := 0 to |records|
        modifies this`flushedLsn, this`stream, this`model
        invariant Valid() && stream == start + Framing.Write(ser, hands[..i])
        invariant model == before.(hands := hands[i..], written := before.written + hands[..i], flushed := flushedLsn)
      {
        WriteRecord(records[i]);
        Advance(ser, before.written, hands, start, i);
      }
      assert hands[..|hands|] == hands;
      FlushStream();
      assert file == old(file) + old(stream) + Framing.Write(ser, hands);
    }

    /** A sync covers what the stream has passed on; the flusher's own sync also ends its batch. */
    method Fsync(ghost ends: bool)
      requires Valid() && (ends ==> model.hands == [] && model.passed == |model.written|)
      modifies this`model
      ensures Valid() && model == if ends then W.Sync(old(model)) else W.Cover(old(model))
    {
      W.CoverKeeps(model);
      if ends {
        W.SyncKeeps(model);
        model := W.Sync(model);
      } else {
        model := W.Cover(model);
      }
    }

    /** The truncated log takes the file's place. */
    method ReplaceFile(bytes: Bytes)
      requires Valid()
      modifies this`file
      ensures Valid() && file == bytes
    {
      file := bytes;
    }
  }

  lemma Advance(ser: Record -> Bytes, written: seq<Record>, hands: seq<Record>, start: Bytes, i: nat)
    requires i < |hands|
    ensures hands[i..][1..] == hands[i + 1..] && hands[i..][0] == hands[i]
    ensures written + hands[..i] + [hands[i]] == written + hands[..i + 1]
    ensures start + Framing.Write(ser, hands[..i]) + ser(hands[i]) == start + Framing.Write(ser, hands[..i + 1])
  {
    Framing.WriteNext(ser, hands, i);
  }

  /** One more record in the stream: file and stream still hold the written records. */
  lemma StreamGrows(ser: Record -> Bytes, written: seq<Record>, passed: nat, r: Record)
    requires passed <= |written|
    ensures Framing.Write(ser, (written + [r])[passed..]) == Framing.Write(ser, written[passed..]) + ser(r)
  {
    assert (written + [r])[passed..] == written[passed..] + [r];
    Framing.WriteConcat(ser, written[passed..], [r]);
    Framing.WriteOne(ser, r);
  }

  /** The stream passed on: the file holds it all. */
  lemma StreamPasses(ser: Record -> Bytes, written: seq<Record>, from: nat, passed: nat)
    requires from <= passed <= |written|
    ensures Framing.Write(ser, written[from..passed]) + Framing.Write(ser, written[passed..])
         == Framing.Write(ser, written[from..|written|])
    ensures Framing.Write(ser, written[|written|..]) == []
  {
    assert written[from..passed] + written[passed..] == written[from..|written|];
    Framing.WriteConcat(ser, written[from..passed], written[passed..]);
  }
}
