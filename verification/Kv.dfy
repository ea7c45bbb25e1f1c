// The vocabulary shared by every part of the engine: keys, values, writes, the
// store as a map, and what it means to apply writes to it.
module Kv {
  type Bytes = seq<bv8>
  type Key = Bytes
  type Value = Bytes
  type TxnId = nat
  type SessionId = nat
  type Lsn = nat
  type Store = map<Key, Value>

  datatype Option<+T> = None | Some(value: T)

  datatype Isolation = ReadCommitted | RepeatableRead

  /** One buffered modification of a key (`pending_buffer` maps a key to one of these). */
  datatype Write = Put(value: Value) | Delete

  datatype Op = Op(key: Key, write: Write)

  function Read(store: Store, k: Key): Option<Value> {
    if k in store then Some(store[k]) else None
  }

  /** What a read of the key returns right after the write. */
  function Effect(w: Write): Option<Value> {
    match w
    case Put(v) => Some(v)
    case Delete => None
  }

  function Apply(store: Store, op: Op): Store {
    match op.write
    case Put(v) => store[op.key := v]
    case Delete => store - {op.key}
  }

  /** Applies the operations from left to right. */
  function ApplyOps(store: Store, ops: seq<Op>): Store {
    if ops == [] then store
    else Apply(ApplyOps(store, ops[..|ops| - 1]), ops[|ops| - 1])
  }

  /** The operations that a buffer stands for when its keys are taken in the order `keys`. */
  function OpsFor(buffer: map<Key, Write>, keys: seq<Key>): seq<Op>
    requires forall k :: k in keys ==> k in buffer
  {
    seq(|keys|, i requires 0 <= i < |keys| => Op(keys[i], buffer[keys[i]]))
  }

  /** What a read returns on a store with a buffer laid over it. */
  function ReadThrough(store: Store, buffer: map<Key, Write>, k: Key): Option<Value> {
    if k in buffer then Effect(buffer[k]) else Read(store, k)
  }

  lemma StoresEqual(a: Store, b: Store)
    requires forall k: Key :: Read(a, k) == Read(b, k)
    ensures a == b
  {
    forall k: Key ensures (k in a <==> k in b) && (k in a ==> a[k] == b[k]) {
      assert Read(a, k) == Read(b, k);
    }
  }

  lemma {:induction false} ApplyOpsConcat(store: Store, a: seq<Op>, b: seq<Op>)
    ensures ApplyOps(store, a + b) == ApplyOps(ApplyOps(store, a), b)
  {
    if b == [] {
      assert a + b == a;
    } else {
      ApplyOpsConcat(store, a, b[..|b| - 1]);
      assert (a + b)[..|a + b| - 1] == a + b[..|b| - 1];
    }
  }

  /** Writing a buffer out key by key, in any order, overlays it on the store. */
  lemma {:induction false} ApplyBuffer(store: Store, buffer: map<Key, Write>, keys: seq<Key>, k: Key)
    requires forall j :: j in keys ==> j in buffer
    ensures Read(ApplyOps(store, OpsFor(buffer, keys)), k)
         == if k in keys then Effect(buffer[k]) else Read(store, k)
  {
    if keys != [] {
      var init := keys[..|keys| - 1];
      var last := keys[|keys| - 1];
      ApplyBuffer(store, buffer, init, k);
      var ops := OpsFor(buffer, keys);
      assert ops[..|ops| - 1] == OpsFor(buffer, init);
      assert keys == init + [last];
    }
  }

  /** Operations that do not touch a key leave its value alone. */
  lemma {:induction false} ApplyOpsElsewhere(store: Store, ops: seq<Op>, k: Key)
    requires forall i :: 0 <= i < |ops| ==> ops[i].key != k
    ensures Read(ApplyOps(store, ops), k) == Read(store, k)
  {
    if ops != [] {
      ApplyOpsElsewhere(store, ops[..|ops| - 1], k);
    }
  }
}
