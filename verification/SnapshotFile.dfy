// The snapshot file: a header and the store's entries, written in any order and read back.
module SnapshotFile {
  import opened Kv
  import opened LittleEndian
  import opened Codec
  import Framing

  datatype Entry = Entry(key: Key, value: Value)

  const MAGIC: nat := 0x4B564442
  const VERSION: nat := 1

  /** A string behind its 16-bit length; only as many bytes as that length says are written. */
  function Clipped(s: Bytes): Bytes {
    Encode(|s|, 2) + s[..|s| % 65536]
  }

  function EntryBytes(e: Entry): Bytes {
    Clipped(e.key) + Clipped(e.value)
  }

  function Header(lsn: Lsn, count: nat): Bytes {
    Encode(MAGIC, 4) + Encode(VERSION, 4) + Encode(lsn, 8) + Encode(count, 8)
  }

  function Body(entries: seq<Entry>): Bytes {
    Framing.Write(EntryBytes, entries)
  }

  function FileBytes(entries: seq<Entry>, lsn: Lsn): Bytes {
    Header(lsn, |entries|) + Body(entries)
  }

  /** The write loop, for any way of writing one entry. */
  method WriteEntries(ser: Entry -> Bytes, header: Bytes, entries: seq<Entry>) returns (out: Bytes)
    ensures out == header + Framing.Write(ser, entries)
  {
    out := header;
    for i := 0 to |entries|
      invariant out == header + Framing.Write(ser, entries[..i])
    {
      out := out + ser(entries[i]);
      Framing.WriteNext(ser, entries, i);
    }
    assert entries[..|entries|] == entries;
  }

  method WriteSnapshot(entries: seq<Entry>, lsn: Lsn) returns (out: Bytes)
    ensures out == FileBytes(entries, lsn)
  {
    out := WriteEntries(EntryBytes, Header(lsn, |entries|), entries);
  }

  // ---------------------------------------------------------------- reading

  function ReadEntry(b: Bytes, at: nat): Option<(Entry, nat)> {
    match ReadStr(b, at)
    case None => None
    case Some((key, mid)) =>
      match ReadStr(b, mid) {
        case None => None
        case Some((value, end)) => Some((Entry(key, value), end))
      }
  }

  /** Reads up to `count` entries into the store and stops quietly where the file ends early. */
  function LoadEntries(b: Bytes, at: nat, count: nat, store: Store): Store
    decreases count
  {
    if count == 0 then store
    else
      match ReadEntry(b, at)
      case None => store
      case Some((e, end)) => LoadEntries(b, end, count - 1, store[e.key := e.value])
  }

  predicate HeaderOk(b: Bytes) {
    |b| >= 24 && Decode(b[..4]) == MAGIC
  }

  /** The store and the checkpoint LSN after loading; a file without a valid header changes nothing. */
  function Load(b: Bytes, store: Store, lsn: Lsn): (Store, Lsn) {
    if HeaderOk(b) then (LoadEntries(b, 24, Decode(b[16..24]), store), Decode(b[8..16])) else (store, lsn)
  }

  // ---------------------------------------------------------------- round trip

  predicate EntryFits(e: Entry) {
    |e.key| < 65536 && |e.value| < 65536
  }

  function StoreOf(store: Store, entries: seq<Entry>): Store
    decreases |entries|
  {
    if entries == [] then store else StoreOf(store[entries[0].key := entries[0].value], entries[1..])
  }

  /** The entries list the store, in whatever order. */
  ghost predicate Lists(entries: seq<Entry>, store: Store) {
    && (forall i :: 0 <= i < |entries| ==> entries[i].key in store && store[entries[i].key] == entries[i].value)
    && (forall k :: k in store ==> Entry(k, store[k]) in entries)
  }

  lemma ClippedIsStr(s: Bytes)
    requires |s| < 65536
    ensures Clipped(s) == Str(s)
  {
    assert s[..|s|] == s;
  }

  lemma SplitEntry(b: Bytes, at: nat, x: Bytes, y: Bytes, rest: Bytes)
    requires at <= |b| && b[at..] == x + y + rest
    ensures at + |x| + |y| <= |b|
    ensures b[at..at + |x|] == x && b[at + |x|..at + |x| + |y|] == y && b[at + |x| + |y|..] == rest
  {
    var tail := b[at..];
    assert |tail| == |x| + |y| + |rest|;
    assert b[at..at + |x|] == tail[..|x|];
    assert b[at + |x|..at + |x| + |y|] == tail[|x|..|x| + |y|];
    assert b[at + |x| + |y|..] == tail[|x| + |y|..];
  }

  lemma ReadEntryThere(b: Bytes, at: nat, e: Entry, rest: Bytes)
    requires EntryFits(e) && at <= |b| && b[at..] == Str(e.key) + Str(e.value) + rest
    ensures var end := at + |Str(e.key)| + |Str(e.value)|;
      end <= |b| && ReadEntry(b, at) == Some((e, end)) && b[end..] == rest
  {
    SplitEntry(b, at, Str(e.key), Str(e.value), rest);
    ReadStrThere(b, at, e.key);
    ReadStrThere(b, at + |Str(e.key)|, e.value);
  }

  lemma BodyStarts(entries: seq<Entry>)
    requires entries != [] && EntryFits(entries[0])
    ensures Body(entries) == Str(entries[0].key) + Str(entries[0].value) + Body(entries[1..])
  {
    ClippedIsStr(entries[0].key);
    ClippedIsStr(entries[0].value);
  }

  lemma LoadStep(b: Bytes, at: nat, count: nat, store: Store, e: Entry, end: nat)
    requires count > 0 && ReadEntry(b, at) == Some((e, end))
    ensures LoadEntries(b, at, count, store) == LoadEntries(b, end, count - 1, store[e.key := e.value])
  {
  }

  lemma {:induction false} LoadEntriesThere(b: Bytes, at: nat, entries: seq<Entry>, store: Store)
    requires (forall i :: 0 <= i < |entries| ==> EntryFits(entries[i])) && at <= |b| && b[at..] == Body(entries)
    ensures LoadEntries(b, at, |entries|, store) == StoreOf(store, entries)
    decreases |entries|
  {
    if entries != [] {
      var e := entries[0];
      var end := at + |Str(e.key)| + |Str(e.value)|;
      BodyStarts(entries);
      ReadEntryThere(b, at, e, Body(entries[1..]));
      LoadStep(b, at, |entries|, store, e, end);
      LoadEntriesThere(b, end, entries[1..], store[e.key := e.value]);
    }
  }

  lemma {:induction false} StoreOfRead(store: Store, entries: seq<Entry>, target: Store, k: Key)
    requires forall i :: 0 <= i < |entries| ==> entries[i].key in target && target[entries[i].key] == entries[i].value
    ensures Read(StoreOf(store, entries), k)
         == if exists v :: Entry(k, v) in entries then Read(target, k) else Read(store, k)
    decreases |entries|
  {
    if entries != [] {
      var e := entries[0];
      var rest := entries[1..];
      StoreOfRead(store[e.key := e.value], rest, target, k);
      assert entries == [e] + rest;
      if v :| Entry(k, v) in rest {
        assert Entry(k, v) in entries;
      } else {
        assert e in entries;
        if e.key == k {
          assert Entry(k, e.value) in entries;
        }
      }
    }
  }

  lemma ListedStore(entries: seq<Entry>, store: Store)
    requires Lists(entries, store)
    ensures StoreOf(map[], entries) == store
  {
    forall k ensures Read(StoreOf(map[], entries), k) == Read(store, k) {
      StoreOfRead(map[], entries, store, k);
      if v :| Entry(k, v) in entries {
        var i :| 0 <= i < |entries| && entries[i] == Entry(k, v);
      }
      if k in store {
        assert Entry(k, store[k]) in entries;
      }
    }
    StoresEqual(StoreOf(map[], entries), store);
  }

  lemma Fields(magic: Bytes, version: Bytes, lsn: Bytes, count: Bytes, rest: Bytes)
    requires |magic| == 4 && |version| == 4 && |lsn| == 8 && |count| == 8
    ensures var b := magic + version + lsn + count + rest;
      |b| >= 24 && b[..4] == magic && b[8..16] == lsn && b[16..24] == count && b[24..] == rest
  {
  }

  lemma MagicBack(n: nat)
    requires n < 0x1_0000_0000
    ensures Decode(Encode(n, 4)) == n
  {
    Capacities();
    DecodeEncode(n, 4);
  }

  lemma EightBack(n: nat)
    requires n < 0x1_0000_0000_0000_0000
    ensures Decode(Encode(n, 8)) == n
  {
    Capacities();
    DecodeEncode(n, 8);
  }

  lemma HeaderParts(lsn: Lsn, count: nat, rest: Bytes)
    requires lsn < 0x1_0000_0000_0000_0000 && count < 0x1_0000_0000_0000_0000
    ensures var b := Header(lsn, count) + rest;
      && |b| >= 24 && Decode(b[..4]) == MAGIC && Decode(b[8..16]) == lsn && Decode(b[16..24]) == count
      && b[24..] == rest
  {
    Fields(Encode(MAGIC, 4), Encode(VERSION, 4), Encode(lsn, 8), Encode(count, 8), rest);
    MagicBack(MAGIC);
    EightBack(lsn);
    EightBack(count);
  }

  /**
   * Writing a snapshot of any store, with its entries in any order, and loading the file
   * into an empty store gives back exactly that store and that LSN.
   */
  lemma SnapshotRoundTrip(store: Store, entries: seq<Entry>, lsn: Lsn, before: Lsn)
    requires Lists(entries, store) && (forall i :: 0 <= i < |entries| ==> EntryFits(entries[i]))
    requires lsn < 0x1_0000_0000_0000_0000 && |entries| < 0x1_0000_0000_0000_0000
    ensures Load(FileBytes(entries, lsn), map[], before) == (store, lsn)
  {
    HeaderParts(lsn, |entries|, Body(entries));
    LoadEntriesThere(FileBytes(entries, lsn), 24, entries, map[]);
    ListedStore(entries, store);
  }

  // ---------------------------------------------------------------- a data file cut short

  lemma ReadStrTorn(b: Bytes, at: nat, s: Bytes)
    requires at <= |b| && |s| < 65536 && b[at..] <= Str(s) && |b| - at < |Str(s)|
    ensures ReadStr(b, at) == None
  {
    if at + 2 <= |b| {
      assert b[at..at + 2] == b[at..][..2] == Str(s)[..2] == Encode(|s|, 2);
      LengthThere(|s|);
    }
  }

  lemma ReadEntryTorn(b: Bytes, at: nat, e: Entry)
    requires at <= |b| && EntryFits(e)
    requires b[at..] <= Str(e.key) + Str(e.value) && |b| - at < |Str(e.key)| + |Str(e.value)|
    ensures ReadEntry(b, at) == None
  {
    var both, mid := Str(e.key) + Str(e.value), at + |Str(e.key)|;
    if |b| < mid {
      assert b[at..] == both[..|b| - at] == Str(e.key)[..|b| - at];
      ReadStrTorn(b, at, e.key);
    } else {
      assert b[at..mid] == b[at..][..|Str(e.key)|] == Str(e.key);
      ReadStrThere(b, at, e.key);
      assert b[mid..] == b[at..][|Str(e.key)|..] == both[|Str(e.key)|..|b| - at];
      assert b[mid..] == Str(e.value)[..|b| - mid];
      ReadStrTorn(b, mid, e.value);
    }
  }

  /** `n` entries are complete before the cut, and no more. */
  ghost predicate EntriesBefore(entries: seq<Entry>, at: nat, cut: nat, n: nat) {
    && n <= |entries| && at + |Body(entries[..n])| <= cut
    && (n < |entries| ==> cut < at + |Body(entries[..n + 1])|)
  }

  lemma BodyFront(entries: seq<Entry>, n: nat)
    requires 0 < n <= |entries| && EntryFits(entries[0])
    ensures |Body(entries[..n])| == |Str(entries[0].key)| + |Str(entries[0].value)| + |Body(entries[1..][..n - 1])|
  {
    BodyStarts(entries[..n]);
    assert entries[..n][1..] == entries[1..][..n - 1];
  }

  lemma {:induction false} LoadTorn(b: Bytes, at: nat, entries: seq<Entry>, cut: nat, store: Store) returns (n: nat)
    requires (forall i :: 0 <= i < |entries| ==> EntryFits(entries[i])) && at <= cut <= |b|
    requires b[at..] == Body(entries)
    ensures EntriesBefore(entries, at, cut, n)
    ensures LoadEntries(b[..cut], at, |entries|, store) == StoreOf(store, entries[..n])
    decreases |entries|
  {
    n := 0;
    assert entries[..0] == [];
    if entries != [] {
      var e := entries[0];
      var rest := entries[1..];
      var end := at + |Str(e.key)| + |Str(e.value)|;
      BodyStarts(entries);
      BodyFront(entries, 1);
      if end <= cut {
        n := LoadNext(b, at, entries, cut, store, end);
      } else {
        assert b[..cut][at..] == b[at..][..cut - at] == (Str(e.key) + Str(e.value))[..cut - at];
        ReadEntryTorn(b[..cut], at, e);
      }
    }
  }

  lemma EntryInCut(b: Bytes, at: nat, e: Entry, rest: Bytes, cut: nat, end: nat)
    requires EntryFits(e) && at <= |b| && b[at..] == Str(e.key) + Str(e.value) + rest
    requires end == at + |Str(e.key)| + |Str(e.value)| <= cut <= |b|
    ensures ReadEntry(b[..cut], at) == Some((e, end))
  {
    assert b[..cut][at..] == Str(e.key) + Str(e.value) + b[end..cut];
    ReadEntryThere(b[..cut], at, e, b[end..cut]);
  }

  lemma {:induction false} LoadNext(b: Bytes, at: nat, entries: seq<Entry>, cut: nat, store: Store, end: nat)
    returns (n: nat)
    requires (forall i :: 0 <= i < |entries| ==> EntryFits(entries[i])) && at <= cut <= |b|
    requires b[at..] == Body(entries) && entries != [] && end <= cut
    requires end == at + |Str(entries[0].key)| + |Str(entries[0].value)|
    ensures EntriesBefore(entries, at, cut, n)
    ensures LoadEntries(b[..cut], at, |entries|, store) == StoreOf(store, entries[..n])
    decreases |entries|, 0
  {
    var e := entries[0];
    var rest := entries[1..];
    BodyStarts(entries);
    SplitEntry(b, at, Str(e.key), Str(e.value), Body(rest));
    EntryInCut(b, at, e, Body(rest), cut, end);
    LoadStep(b[..cut], at, |entries|, store, e, end);
    var m := LoadTorn(b, end, rest, cut, store[e.key := e.value]);
    n := m + 1;
    OneMoreBefore(entries, at, end, cut, m);
    StoreNext(store, entries, m);
  }

  lemma StoreNext(store: Store, entries: seq<Entry>, m: nat)
    requires m < |entries|
    ensures var e := entries[0];
      StoreOf(store, entries[..m + 1]) == StoreOf(store[e.key := e.value], entries[1..][..m])
  {
    assert entries[..m + 1][1..] == entries[1..][..m];
  }

  lemma OneMoreBefore(entries: seq<Entry>, at: nat, end: nat, cut: nat, m: nat)
    requires entries != [] && EntryFits(entries[0]) && EntriesBefore(entries[1..], end, cut, m)
    requires end == at + |Str(entries[0].key)| + |Str(entries[0].value)|
    ensures EntriesBefore(entries, at, cut, m + 1)
  {
    BodyFront(entries, m + 1);
    if m + 1 < |entries| {
      BodyFront(entries, m + 2);
    }
  }

  /**
   * A data file cut short at any byte: without its whole header it changes nothing; with it,
   * the LSN and exactly the entries that are complete before the cut are loaded.
   */
  lemma LoadCutSnapshot(entries: seq<Entry>, lsn: Lsn, cut: nat, store: Store, before: Lsn) returns (n: nat)
    requires forall i :: 0 <= i < |entries| ==> EntryFits(entries[i])
    requires lsn < 0x1_0000_0000_0000_0000 && |entries| < 0x1_0000_0000_0000_0000 && cut <= |FileBytes(entries, lsn)|
    ensures var loaded := Load(FileBytes(entries, lsn)[..cut], store, before);
      if cut < 24 then loaded == (store, before)
      else EntriesBefore(entries, 24, cut, n) && loaded == (StoreOf(store, entries[..n]), lsn)
  {
    var b := FileBytes(entries, lsn);
    HeaderParts(lsn, |entries|, Body(entries));
    n := 0;
    if cut >= 24 {
      var c := b[..cut];
      assert c[..4] == b[..4] && c[8..16] == b[8..16] && c[16..24] == b[16..24];
      n := LoadTorn(b, 24, entries, cut, store);
    }
  }
}
