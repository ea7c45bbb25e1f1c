// Concatenated frames and the loop that reads them back, for any frame format in which
// reading accepts exactly what writing produces.
module Framing {
  import opened Kv

  function Write<T>(ser: T -> Bytes, xs: seq<T>): Bytes {
    if xs == [] then [] else ser(xs[0]) + Write(ser, xs[1..])
  }

  function Parse<T>(read: Bytes -> Option<(T, nat)>, b: Bytes): seq<T> {
    match read(b)
    case None => []
    case Some((x, n)) => if 0 < n <= |b| then [x] + Parse(read, b[n..]) else []
  }

  /** Reading finds a written frame whatever follows it. */
  ghost predicate Finds<T(!new)>(ser: T -> Bytes, read: Bytes -> Option<(T, nat)>, fits: T -> bool) {
    forall x, rest :: fits(x) ==> read(ser(x) + rest) == Some((x, |ser(x)|))
  }

  /** Reading accepts nothing but a written frame. */
  ghost predicate Accepts<T(!new)>(ser: T -> Bytes, read: Bytes -> Option<(T, nat)>, fits: T -> bool) {
    forall b :: read(b).Some? ==>
      var (x, n) := read(b).value; fits(x) && 0 < n <= |b| && b[..n] == ser(x)
  }

  ghost predicate Format<T(!new)>(ser: T -> Bytes, read: Bytes -> Option<(T, nat)>, fits: T -> bool) {
    Finds(ser, read, fits) && Accepts(ser, read, fits)
  }

  predicate AllFit<T>(fits: T -> bool, xs: seq<T>) {
    forall i :: 0 <= i < |xs| ==> fits(xs[i])
  }

  lemma NotEmpty<T(!new)>(ser: T -> Bytes, read: Bytes -> Option<(T, nat)>, fits: T -> bool, x: T)
    requires Format(ser, read, fits) && fits(x)
    ensures |ser(x)| > 0
  {
    assert ser(x) + [] == ser(x);
    assert read(ser(x) + []) == Some((x, |ser(x)|));
  }

  /** One frame is read, and the loop goes on behind it. */
  lemma ParseNext<T(!new)>(ser: T -> Bytes, read: Bytes -> Option<(T, nat)>, fits: T -> bool, x: T, rest: Bytes)
    requires Format(ser, read, fits) && fits(x)
    ensures Parse(read, ser(x) + rest) == [x] + Parse(read, rest)
  {
    NotEmpty(ser, read, fits, x);
    assert (ser(x) + rest)[|ser(x)|..] == rest;
  }

  ghost predicate ParsesEach<T(!new)>(ser: T -> Bytes, parse: Bytes -> seq<T>, xs: seq<T>) {
    forall i, rest :: 0 <= i < |xs| ==> parse(ser(xs[i]) + rest) == [xs[i]] + parse(rest)
  }

  lemma {:induction false} ParseAll<T(!new)>(ser: T -> Bytes, parse: Bytes -> seq<T>, xs: seq<T>, tail: Bytes)
    requires ParsesEach(ser, parse, xs)
    ensures parse(Write(ser, xs) + tail) == xs + parse(tail)
    decreases |xs|
  {
    if xs == [] {
      assert Write(ser, xs) + tail == tail;
      assert xs + parse(tail) == parse(tail);
    } else {
      var x, more := xs[0], xs[1..];
      forall i, rest | 0 <= i < |more| ensures parse(ser(more[i]) + rest) == [more[i]] + parse(rest) {
        assert more[i] == xs[i + 1];
      }
      ParseAll(ser, parse, more, tail);
      assert Write(ser, xs) + tail == ser(x) + (Write(ser, more) + tail);
      assert xs + parse(tail) == [x] + (more + parse(tail));
    }
  }

  /** Frames followed by bytes that do not start a frame parse to those frames. */
  lemma ParseLog<T(!new)>(ser: T -> Bytes, read: Bytes -> Option<(T, nat)>, fits: T -> bool, xs: seq<T>, tail: Bytes)
    requires Format(ser, read, fits) && AllFit(fits, xs) && read(tail) == None
    ensures Parse(read, Write(ser, xs) + tail) == xs
  {
    var parse := b => Parse(read, b);
    forall i, rest | 0 <= i < |xs| ensures parse(ser(xs[i]) + rest) == [xs[i]] + parse(rest) {
      ParseNext(ser, read, fits, xs[i], rest);
    }
    ParseAll(ser, parse, xs, tail);
    assert xs + [] == xs;
  }

  /** A frame found in the beginning of some bytes is the frame found in all of them. */
  lemma FoundInPrefix<T(!new)>(ser: T -> Bytes, read: Bytes -> Option<(T, nat)>, fits: T -> bool, b: Bytes, cut: nat)
    requires Format(ser, read, fits) && cut <= |b| && read(b[..cut]).Some?
    ensures read(b) == read(b[..cut]) && read(b).value.1 <= cut
  {
    var (x, n) := read(b[..cut]).value;
    assert b == ser(x) + b[n..];
  }

  /** A frame cut short is not accepted, wherever the cut falls. */
  lemma TornFrame<T(!new)>(ser: T -> Bytes, read: Bytes -> Option<(T, nat)>, fits: T -> bool, x: T, cut: nat)
    requires Format(ser, read, fits) && fits(x) && cut < |ser(x)|
    ensures read(ser(x)[..cut]) == None
  {
    assert ser(x) == ser(x) + [];
    if read(ser(x)[..cut]).Some? {
      FoundInPrefix(ser, read, fits, ser(x), cut);
    }
  }

  /** Frames followed by any strict prefix of one more parse to exactly the complete ones. */
  lemma ParseTorn<T(!new)>(ser: T -> Bytes, read: Bytes -> Option<(T, nat)>, fits: T -> bool,
                           xs: seq<T>, x: T, cut: nat)
    requires Format(ser, read, fits) && AllFit(fits, xs) && fits(x) && cut < |ser(x)|
    ensures Parse(read, Write(ser, xs) + ser(x)[..cut]) == xs
  {
    TornFrame(ser, read, fits, x, cut);
    ParseLog(ser, read, fits, xs, ser(x)[..cut]);
  }

  lemma {:induction false} WriteConcat<T>(ser: T -> Bytes, a: seq<T>, b: seq<T>)
    ensures Write(ser, a + b) == Write(ser, a) + Write(ser, b)
  {
    if a == [] {
      assert a + b == b;
    } else {
      WriteConcat(ser, a[1..], b);
      assert (a + b)[1..] == a[1..] + b;
    }
  }

  lemma WriteOne<T>(ser: T -> Bytes, x: T)
    ensures Write(ser, [x]) == ser(x) && Write(ser, []) == []
  {
    assert ser(x) + [] == ser(x);
  }

  lemma WriteNext<T>(ser: T -> Bytes, xs: seq<T>, i: nat)
    requires i < |xs|
    ensures Write(ser, xs[..i + 1]) == Write(ser, xs[..i]) + ser(xs[i])
  {
    WriteConcat(ser, xs[..i], [xs[i]]);
    assert xs[..i] + [xs[i]] == xs[..i + 1];
    assert Write(ser, [xs[i]]) == ser(xs[i]) + [];
  }

  /** Frame `n` is the one in which the byte position `cut` falls. */
  ghost predicate CutsIn<T>(ser: T -> Bytes, xs: seq<T>, cut: nat, n: nat)
    requires n < |xs|
  {
    |Write(ser, xs[..n])| <= cut < |Write(ser, xs[..n])| + |ser(xs[n])|
  }

  lemma {:induction false} FindCut<T>(ser: T -> Bytes, xs: seq<T>, cut: nat) returns (n: nat)
    requires cut < |Write(ser, xs)|
    ensures n < |xs| && CutsIn(ser, xs, cut, n)
    decreases |xs|
  {
    var first := ser(xs[0]);
    if cut < |first| {
      n := 0;
      assert xs[..0] == [];
    } else {
      var m := FindCut(ser, xs[1..], cut - |first|);
      n := m + 1;
      assert xs[..n] == [xs[0]] + xs[1..][..m];
      assert xs[..n][1..] == xs[1..][..m];
    }
  }

  lemma SplitAtCut<T>(ser: T -> Bytes, xs: seq<T>, cut: nat, n: nat)
    requires n < |xs| && CutsIn(ser, xs, cut, n)
    ensures var keep := Write(ser, xs[..n]);
      cut <= |Write(ser, xs)| && Write(ser, xs)[..cut] == keep + ser(xs[n])[..cut - |keep|]
  {
    WriteConcat(ser, xs[..n], xs[n..]);
    assert xs[..n] + xs[n..] == xs;
    var keep, next, rest := Write(ser, xs[..n]), ser(xs[n]), Write(ser, xs[n..][1..]);
    assert Write(ser, xs) == keep + (next + rest);
    assert (keep + (next + rest))[..cut] == keep + next[..cut - |keep|];
  }

  lemma LaterIsLonger<T>(ser: T -> Bytes, xs: seq<T>, cut: nat, n: nat, m: nat)
    requires n < m <= |xs| && CutsIn(ser, xs, cut, n)
    ensures |Write(ser, xs[..m])| > cut
  {
    WriteConcat(ser, xs[..n], xs[n..m]);
    assert xs[..m] == xs[..n] + xs[n..m];
  }

  /** Cutting written frames at any byte leaves exactly the frames that end before the cut. */
  lemma ParseCut<T(!new)>(ser: T -> Bytes, read: Bytes -> Option<(T, nat)>, fits: T -> bool, xs: seq<T>, cut: nat)
    returns (n: nat)
    requires Format(ser, read, fits) && AllFit(fits, xs) && cut <= |Write(ser, xs)|
    ensures n <= |xs| && Parse(read, Write(ser, xs)[..cut]) == xs[..n] && |Write(ser, xs[..n])| <= cut
    ensures forall m :: 0 <= m <= |xs| && |Write(ser, xs[..m])| <= cut ==> m <= n
  {
    if cut == |Write(ser, xs)| {
      n := |xs|;
      assert Write(ser, xs)[..cut] == Write(ser, xs) + [];
      assert xs[..n] == xs;
      assert read([]) == None;
      ParseLog(ser, read, fits, xs, []);
    } else {
      n := FindCut(ser, xs, cut);
      SplitAtCut(ser, xs, cut, n);
      ParseTorn(ser, read, fits, xs[..n], xs[n], cut - |Write(ser, xs[..n])|);
      forall m | n < m <= |xs| ensures |Write(ser, xs[..m])| > cut {
        LaterIsLonger(ser, xs, cut, n, m);
      }
    }
  }
}
