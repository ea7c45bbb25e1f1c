// Fixed-width little-endian integers over bytes.
module LittleEndian {
  import opened Kv

  function Capacity(width: nat): nat {
    if width == 0 then 1 else 256 * Capacity(width - 1)
  }

  lemma Capacities()
    ensures Capacity(2) == 65536
    ensures Capacity(4) == 0x1_0000_0000
    ensures Capacity(8) == 0x1_0000_0000_0000_0000
  {
    assert Capacity(2) == 65536;
    assert Capacity(4) == 256 * (256 * Capacity(2));
    assert Capacity(6) == 256 * (256 * Capacity(4));
    assert Capacity(8) == 256 * (256 * Capacity(6));
  }

  function ToByte(n: nat): bv8 {
    (n % 256) as bv8
  }

  function OfByte(b: bv8): (n: nat)
    ensures n < 256
  {
    b as nat
  }

  lemma ByteRoundTrip(n: nat)
    requires n < 256
    ensures OfByte(ToByte(n)) == n
  {
  }

  lemma ByteRoundTripBack(b: bv8)
    ensures ToByte(OfByte(b)) == b
  {
    assert OfByte(b) % 256 == OfByte(b);
  }

  /** The low `width` bytes of `n`, lowest first: a cast to the narrower type drops the rest. */
  function Encode(n: nat, width: nat): (b: Bytes)
    ensures |b| == width
  {
    if width == 0 then [] else [ToByte(n % 256)] + Encode(n / 256, width - 1)
  }

  function Decode(b: Bytes): (n: nat) {
    if b == [] then 0 else OfByte(b[0]) + 256 * Decode(b[1..])
  }

  /** The number without its lowest `i` bytes. */
  function Shifted(n: nat, i: nat): nat {
    if i == 0 then n else Shifted(n / 256, i - 1)
  }

  /** Byte `i` counts the multiples of 256 to the power `i`: the lowest byte comes first. */
  lemma {:induction false} EncodeAt(n: nat, width: nat, i: nat)
    requires i < width
    ensures OfByte(Encode(n, width)[i]) == Shifted(n, i) % 256
  {
    if i == 0 {
      ByteRoundTrip(n % 256);
    } else {
      EncodeAt(n / 256, width - 1, i - 1);
      assert Encode(n, width)[i] == Encode(n / 256, width - 1)[i - 1];
    }
  }

  lemma {:induction false} DecodeEncode(n: nat, width: nat)
    requires n < Capacity(width)
    ensures Decode(Encode(n, width)) == n
  {
    if width > 0 {
      DecodeEncode(n / 256, width - 1);
      ByteRoundTrip(n % 256);
      assert Encode(n, width)[1..] == Encode(n / 256, width - 1);
    }
  }

  lemma {:induction false} EncodeDecode(b: Bytes)
    ensures Decode(b) < Capacity(|b|)
    ensures Encode(Decode(b), |b|) == b
  {
    if b != [] {
      EncodeDecode(b[1..]);
      ByteRoundTripBack(b[0]);
      assert Decode(b) % 256 == OfByte(b[0]);
      assert Decode(b) / 256 == Decode(b[1..]);
      assert b == [b[0]] + b[1..];
    }
  }
}
