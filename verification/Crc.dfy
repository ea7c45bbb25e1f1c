// The CRC-32 that guards each log record: reflected polynomial 0xEDB88320, initial value
// and final complement all ones.
module Crc {
  import opened Kv

  const POLYNOMIAL: bv32 := 0xEDB88320

  /** One bit of the division: shift right, and subtract the polynomial if a one fell out. */
  function BitStep(c: bv32): bv32 {
    if c & 1 == 1 then (c >> 1) ^ POLYNOMIAL else c >> 1
  }

  function Xor(x: bv32, y: bv32): bv32 {
    x ^ y
  }

  function Iterate(f: bv32 -> bv32, c: bv32, n: nat): bv32 {
    if n == 0 then c else f(Iterate(f, c, n - 1))
  }

  function Eight(c: bv32): bv32 {
    Iterate(BitStep, c, 8)
  }

  /** Runs the bytes through a register whose byte step is `f`. */
  function Feed(f: bv32 -> bv32, c: bv32, data: Bytes): bv32 {
    if data == [] then c else f(Xor(Feed(f, c, data[..|data| - 1]), data[|data| - 1] as bv32))
  }

  lemma FeedNext(f: bv32 -> bv32, c: bv32, data: Bytes, j: nat)
    requires j < |data|
    ensures Feed(f, c, data[..j + 1]) == f(Xor(Feed(f, c, data[..j]), data[j] as bv32))
  {
    assert data[..j + 1][..j] == data[..j];
  }

  function Checksum(f: bv32 -> bv32, data: Bytes): bv32 {
    !Feed(f, 0xFFFFFFFF, data)
  }

  function Crc32(data: Bytes): bv32 {
    Checksum(Eight, data)
  }

  // ---------------------------------------------------------------- the loops

  method ByteLoop(c: bv32) returns (crc: bv32)
    ensures crc == Eight(c)
  {
    crc := c;
    for i := 0 to 8
      invariant crc == Iterate(BitStep, c, i)
    {
      if crc & 1 == 1 {
        crc := (crc >> 1) ^ POLYNOMIAL;
      } else {
        crc := crc >> 1;
      }
    }
  }

  method ComputeCrc(data: Bytes) returns (crc: bv32)
    ensures crc == Crc32(data)
  {
    crc := 0xFFFFFFFF;
    for j := 0 to |data|
      invariant crc == Feed(Eight, 0xFFFFFFFF, data[..j])
    {
      FeedNext(Eight, 0xFFFFFFFF, data, j);
      crc := ByteLoop(Xor(crc, data[j] as bv32));
    }
    assert data[..|data|] == data;
    crc := !crc;
  }

  // ---------------------------------------------------------------- linear and injective steps

  ghost predicate Linear(f: bv32 -> bv32) {
    forall x, y {:trigger f(Xor(x, y))} :: f(Xor(x, y)) == Xor(f(x), f(y))
  }

  ghost predicate Injective(f: bv32 -> bv32) {
    forall x, y :: f(x) == f(y) ==> x == y
  }

  /** Bits above the low byte just move down. */
  ghost predicate ShiftsDown(f: bv32 -> bv32) {
    forall b: bv32 :: b & 0xFF == 0 ==> f(b) == b >> 8
  }

  lemma {:induction false} IterateXor(f: bv32 -> bv32, x: bv32, y: bv32, n: nat)
    requires Linear(f)
    ensures Iterate(f, Xor(x, y), n) == Xor(Iterate(f, x, n), Iterate(f, y, n))
  {
    if n > 0 {
      IterateXor(f, x, y, n - 1);
      var a, b := Iterate(f, x, n - 1), Iterate(f, y, n - 1);
      assert f(Xor(a, b)) == Xor(f(a), f(b));
    }
  }

  lemma {:induction false} IterateInjective(f: bv32 -> bv32, x: bv32, y: bv32, n: nat)
    requires Injective(f) && Iterate(f, x, n) == Iterate(f, y, n)
    ensures x == y
  {
    if n > 0 {
      IterateInjective(f, x, y, n - 1);
    }
  }

  lemma ShiftXor(x: bv32, y: bv32)
    ensures (x ^ y) >> 1 == (x >> 1) ^ (y >> 1)
    ensures (x ^ y) & 1 == (x & 1) ^ (y & 1)
    ensures (x & 1 == 0 || x & 1 == 1) && (y & 1 == 0 || y & 1 == 1)
  {
  }

  lemma XorRegroup(a: bv32, b: bv32, p: bv32)
    ensures (a ^ b) ^ p == (a ^ p) ^ b
    ensures (a ^ b) ^ p == a ^ (b ^ p)
    ensures a ^ b == (a ^ p) ^ (b ^ p)
  {
  }

  lemma BitStepXor(x: bv32, y: bv32)
    ensures BitStep(x ^ y) == BitStep(x) ^ BitStep(y)
  {
    ShiftXor(x, y);
    XorRegroup(x >> 1, y >> 1, POLYNOMIAL);
  }

  /** The polynomial's top bit is set, so the bit that fell out can be read back. */
  lemma BitStepInjective(x: bv32, y: bv32)
    requires BitStep(x) == BitStep(y)
    ensures x == y
  {
  }

  lemma EightLinear()
    ensures Linear(Eight)
  {
    assert Linear(BitStep) by {
      forall x: bv32, y: bv32 ensures BitStep(Xor(x, y)) == Xor(BitStep(x), BitStep(y)) {
        BitStepXor(x, y);
      }
    }
    forall x: bv32, y: bv32 ensures Eight(Xor(x, y)) == Xor(Eight(x), Eight(y)) {
      IterateXor(BitStep, x, y, 8);
    }
  }

  lemma EightInjective()
    ensures Injective(Eight)
  {
    assert Injective(BitStep) by {
      forall x: bv32, y: bv32 | BitStep(x) == BitStep(y) ensures x == y {
        BitStepInjective(x, y);
      }
    }
    forall x: bv32, y: bv32 | Eight(x) == Eight(y) ensures x == y {
      IterateInjective(BitStep, x, y, 8);
    }
  }

  lemma EightShift(c: bv32)
    requires c & 0xFF == 0
    ensures Eight(c) == c >> 8
  {
    assert Iterate(BitStep, c, 1) == c >> 1;
    assert Iterate(BitStep, c, 2) == c >> 2;
    assert Iterate(BitStep, c, 3) == c >> 3;
    assert Iterate(BitStep, c, 4) == c >> 4;
    assert Iterate(BitStep, c, 5) == c >> 5;
    assert Iterate(BitStep, c, 6) == c >> 6;
    assert Iterate(BitStep, c, 7) == c >> 7;
  }

  lemma EightShiftsDown()
    ensures ShiftsDown(Eight)
  {
    forall c: bv32 | c & 0xFF == 0 ensures Eight(c) == c >> 8 {
      EightShift(c);
    }
  }

  // ---------------------------------------------------------------- the byte-wise form

  lemma SplitByte(c: bv32)
    ensures c == Xor(c & 0xFFFFFF00, c & 0xFF)
    ensures (c & 0xFFFFFF00) & 0xFF == 0 && (c & 0xFFFFFF00) >> 8 == c >> 8
    ensures ((c & 0xFF) as bv8) as bv32 == c & 0xFF
  {
  }

  lemma LowByteOnly(c: bv32, b: bv8)
    ensures Xor(c, b as bv32) >> 8 == c >> 8
  {
  }

  /**
   * One byte of the bit loop is one lookup of the table-driven form given in section 8 of
   * RFC 1952, whose table entry for `n` is eight bit steps of `n`.
   */
  lemma ByteStepIsTableLookup(f: bv32 -> bv32, c: bv32, b: bv8)
    requires Linear(f) && ShiftsDown(f)
    ensures var x := Xor(c, b as bv32);
      f(x) == Xor(c >> 8, f(((x & 0xFF) as bv8) as bv32))
  {
    var x := Xor(c, b as bv32);
    SplitByte(x);
    LowByteOnly(c, b);
    assert f(Xor(x & 0xFFFFFF00, x & 0xFF)) == Xor(f(x & 0xFFFFFF00), f(x & 0xFF));
    assert f(x & 0xFFFFFF00) == (x & 0xFFFFFF00) >> 8;
  }

  // ---------------------------------------------------------------- bursts

  lemma XorCancel(x: bv32, y: bv32, b: bv32)
    requires Xor(x, b) == Xor(y, b) || Xor(b, x) == Xor(b, y)
    ensures x == y
  {
  }

  /** Different states stay different under the same further input. */
  lemma {:induction false} FeedInjective(f: bv32 -> bv32, x: bv32, y: bv32, data: Bytes)
    requires Injective(f) && Feed(f, x, data) == Feed(f, y, data)
    ensures x == y
  {
    if data != [] {
      var init := data[..|data| - 1];
      XorCancel(Feed(f, x, init), Feed(f, y, init), data[|data| - 1] as bv32);
      FeedInjective(f, x, y, init);
    }
  }

  lemma {:induction false} FeedConcat(f: bv32 -> bv32, c: bv32, a: Bytes, b: Bytes)
    ensures Feed(f, c, a + b) == Feed(f, Feed(f, c, a), b)
  {
    if b == [] {
      assert a + b == a;
    } else {
      FeedConcat(f, c, a, b[..|b| - 1]);
      assert (a + b)[..|a + b| - 1] == a + b[..|b| - 1];
    }
  }

  lemma UpAndDown(b: bv32)
    requires b & 0xFF000000 == 0
    ensures (b << 8) & 0xFF == 0 && (b << 8) >> 8 == b
  {
  }

  lemma XorAssociates(a: bv32, b: bv32, c: bv32)
    ensures Xor(Xor(a, b), c) == Xor(a, Xor(b, c))
  {
  }

  /** A byte and what enters one round after it, one place higher. */
  function Stack(low: bv8, high: bv32): bv32 {
    Xor(low as bv32, high << 8)
  }

  lemma StackBounds(low: bv8, high: bv32)
    ensures high & 0xFFFFFF00 == 0 ==> Stack(low, high) & 0xFFFF0000 == 0
    ensures high & 0xFFFF0000 == 0 ==> Stack(low, high) & 0xFF000000 == 0
    ensures high & 0xFFFF0000 == 0 ==> high & 0xFF000000 == 0
    ensures high & 0xFFFFFF00 == 0 ==> high & 0xFF000000 == 0
    ensures (low as bv32) & 0xFFFFFF00 == 0
  {
  }

  /** Two inputs of a round merge into one: `high` enters one round later than `low`. */
  lemma MergeRound(f: bv32 -> bv32, c: bv32, low: bv8, high: bv32)
    requires Linear(f) && ShiftsDown(f) && high & 0xFF000000 == 0
    ensures Xor(f(Xor(c, low as bv32)), high) == f(Xor(c, Stack(low, high)))
  {
    UpAndDown(high);
    assert f(high << 8) == (high << 8) >> 8;
    XorAssociates(c, low as bv32, high << 8);
  }

  /** Four bytes as the register meets them. */
  function Pack(b0: bv8, b1: bv8, b2: bv8, b3: bv8): bv32 {
    Stack(b0, Stack(b1, Stack(b2, b3 as bv32)))
  }

  lemma PackInjective(a0: bv8, a1: bv8, a2: bv8, a3: bv8, b0: bv8, b1: bv8, b2: bv8, b3: bv8)
    requires Pack(a0, a1, a2, a3) == Pack(b0, b1, b2, b3)
    ensures a0 == b0 && a1 == b1 && a2 == b2 && a3 == b3
  {
  }

  lemma SameFour(a: Bytes, b: Bytes)
    requires |a| == 4 && |b| == 4 && a[0] == b[0] && a[1] == b[1] && a[2] == b[2] && a[3] == b[3]
    ensures a == b
  {
    forall i | 0 <= i < 4 ensures a[i] == b[i] {
      assert i == 0 || i == 1 || i == 2 || i == 3;
    }
  }

  lemma FeedAppend(f: bv32 -> bv32, c: bv32, data: Bytes, x: bv8)
    ensures Feed(f, c, data + [x]) == f(Xor(Feed(f, c, data), x as bv32))
  {
    assert (data + [x])[..|data|] == data;
  }

  lemma FeedTwo(f: bv32 -> bv32, c: bv32, data: Bytes, x: bv8, y: bv8)
    ensures Feed(f, c, data + [x, y]) == f(Xor(f(Xor(Feed(f, c, data), x as bv32)), y as bv32))
  {
    FeedAppend(f, c, data, x);
    FeedAppend(f, c, data + [x], y);
    assert data + [x, y] == data + [x] + [y];
  }

  lemma FeedFour(f: bv32 -> bv32, c: bv32, b: Bytes)
    requires |b| == 4
    ensures Feed(f, c, b)
         == f(Xor(f(Xor(f(Xor(f(Xor(c, b[0] as bv32)), b[1] as bv32)), b[2] as bv32)), b[3] as bv32))
  {
    FeedTwo(f, c, [], b[0], b[1]);
    FeedTwo(f, c, [] + [b[0], b[1]], b[2], b[3]);
    assert b == [] + [b[0], b[1]] + [b[2], b[3]];
  }

  /** Four bytes in a row are one packed word followed by four rounds. */
  lemma FeedFourPacked(f: bv32 -> bv32, c: bv32, b: Bytes)
    requires Linear(f) && ShiftsDown(f) && |b| == 4
    ensures Feed(f, c, b) == f(f(f(f(Xor(c, Pack(b[0], b[1], b[2], b[3]))))))
  {
    FeedFour(f, c, b);
    var h3 := b[3] as bv32;
    var h2 := Stack(b[2], h3);
    var h1 := Stack(b[1], h2);
    StackBounds(b[3], 0);
    StackBounds(b[2], h3);
    StackBounds(b[1], h2);
    var c1 := f(Xor(c, b[0] as bv32));
    var c2 := f(Xor(c1, b[1] as bv32));
    MergeRound(f, c2, b[2], h3);
    MergeRound(f, c1, b[1], h2);
    MergeRound(f, c, b[0], h1);
  }

  lemma FourRounds(f: bv32 -> bv32, x: bv32, y: bv32)
    requires Injective(f) && f(f(f(f(x)))) == f(f(f(f(y))))
    ensures x == y
  {
  }

  lemma FourChange(f: bv32 -> bv32, c: bv32, a: Bytes, b: Bytes)
    requires Linear(f) && ShiftsDown(f) && Injective(f) && |a| == 4 && |b| == 4
    requires Feed(f, c, a) == Feed(f, c, b)
    ensures a == b
  {
    FeedFourPacked(f, c, a);
    FeedFourPacked(f, c, b);
    var p, q := Pack(a[0], a[1], a[2], a[3]), Pack(b[0], b[1], b[2], b[3]);
    FourRounds(f, Xor(c, p), Xor(c, q));
    XorCancel(p, q, c);
    PackInjective(a[0], a[1], a[2], a[3], b[0], b[1], b[2], b[3]);
    SameFour(a, b);
  }

  lemma BurstChangesFeed(f: bv32 -> bv32, c: bv32, before: Bytes, a: Bytes, b: Bytes, after: Bytes)
    requires Linear(f) && ShiftsDown(f) && Injective(f) && |a| == 4 && |b| == 4
    requires Feed(f, c, before + a + after) == Feed(f, c, before + b + after)
    ensures a == b
  {
    FeedConcat(f, c, before + a, after);
    FeedConcat(f, c, before + b, after);
    FeedConcat(f, c, before, a);
    FeedConcat(f, c, before, b);
    FeedInjective(f, Feed(f, Feed(f, c, before), a), Feed(f, Feed(f, c, before), b), after);
    FourChange(f, Feed(f, c, before), a, b);
  }

  lemma SameChecksum(f: bv32 -> bv32, a: Bytes, b: Bytes)
    requires Checksum(f, a) == Checksum(f, b)
    ensures Feed(f, 0xFFFFFFFF, a) == Feed(f, 0xFFFFFFFF, b)
  {
  }

  lemma BurstChangesChecksum(f: bv32 -> bv32, before: Bytes, a: Bytes, b: Bytes, after: Bytes)
    requires Linear(f) && ShiftsDown(f) && Injective(f) && |a| == 4 && |b| == 4
    requires Checksum(f, before + a + after) == Checksum(f, before + b + after)
    ensures a == b
  {
    SameChecksum(f, before + a + after, before + b + after);
    BurstChangesFeed(f, 0xFFFFFFFF, before, a, b, after);
  }

  /**
   * Any change confined to four adjacent bytes changes the checksum: the four bytes pass
   * through 32 injective steps, and what follows cannot bring the two states together.
   */
  lemma BurstChangesCrc(before: Bytes, a: Bytes, b: Bytes, after: Bytes)
    requires |a| == 4 && |b| == 4 && Crc32(before + a + after) == Crc32(before + b + after)
    ensures a == b
  {
    EightLinear();
    EightInjective();
    EightShiftsDown();
    BurstChangesChecksum(Eight, before, a, b, after);
  }

  // ---------------------------------------------------------------- the table-driven form

  /** Runs the bytes through a register, one step for each byte. */
  function Roll(step: (bv32, bv8) -> bv32, c: bv32, data: Bytes): bv32 {
    if data == [] then c else step(Roll(step, c, data[..|data| - 1]), data[|data| - 1])
  }

  /** Entry `n` of the table of section 8 of RFC 1952: eight bit steps of `n`. */
  function TableEntry(n: bv8): bv32 {
    Eight(n as bv32)
  }

  /** One turn of the loop of section 8 of RFC 1952. */
  function TableStep(c: bv32, b: bv8): bv32 {
    Xor(c >> 8, TableEntry((Xor(c, b as bv32) & 0xFF) as bv8))
  }

  function TableCrc(data: Bytes): bv32 {
    !Roll(TableStep, 0xFFFFFFFF, data)
  }

  ghost predicate Steps(step: (bv32, bv8) -> bv32, f: bv32 -> bv32) {
    forall c, b :: step(c, b) == f(Xor(c, b as bv32))
  }

  lemma {:induction false} RollIsFeed(step: (bv32, bv8) -> bv32, f: bv32 -> bv32, c: bv32, data: Bytes)
    requires Steps(step, f)
    ensures Roll(step, c, data) == Feed(f, c, data)
  {
    if data != [] {
      RollIsFeed(step, f, c, data[..|data| - 1]);
    }
  }

  lemma ChecksumIsRoll(step: (bv32, bv8) -> bv32, f: bv32 -> bv32, data: Bytes)
    requires Steps(step, f)
    ensures Checksum(f, data) == !Roll(step, 0xFFFFFFFF, data)
  {
    RollIsFeed(step, f, 0xFFFFFFFF, data);
  }

  lemma TableSteps()
    ensures Steps(TableStep, Eight)
  {
    EightLinear();
    EightShiftsDown();
    forall c, b ensures TableStep(c, b) == Eight(Xor(c, b as bv32)) {
      ByteStepIsTableLookup(Eight, c, b);
    }
  }

  /** The bit-by-bit checksum of any string is the table-driven one of section 8 of RFC 1952. */
  lemma CrcIsTableCrc(data: Bytes)
    ensures Crc32(data) == TableCrc(data)
  {
    TableSteps();
    ChecksumIsRoll(TableStep, Eight, data);
  }

  // ---------------------------------------------------------------- known values

  /** Eight bit steps written out, for evaluation. */
  function Octet(c: bv32): bv32 {
    BitStep(BitStep(BitStep(BitStep(BitStep(BitStep(BitStep(BitStep(c))))))))
  }

  lemma IterateTwo(f: bv32 -> bv32, c: bv32, n: nat)
    ensures Iterate(f, c, n + 2) == f(f(Iterate(f, c, n)))
  {
    assert Iterate(f, c, n + 1) == f(Iterate(f, c, n));
  }

  lemma IterateEight(f: bv32 -> bv32, c: bv32)
    ensures Iterate(f, c, 8) == f(f(f(f(f(f(f(f(c))))))))
  {
    IterateTwo(f, c, 0);
    IterateTwo(f, c, 2);
    IterateTwo(f, c, 4);
    IterateTwo(f, c, 6);
  }

  lemma EightIsOctet(c: bv32)
    ensures Eight(c) == Octet(c)
  {
    IterateEight(BitStep, c);
  }

  /** One more byte, from a known register to a known register. */
  lemma FeedMore(start: bv32, data: Bytes, c: bv32, x: bv8, r: bv32)
    requires Feed(Eight, start, data) == c && Octet(Xor(c, x as bv32)) == r
    ensures Feed(Eight, start, data + [x]) == r
  {
    EightIsOctet(Xor(c, x as bv32));
    FeedAppend(Eight, start, data, x);
  }
}
