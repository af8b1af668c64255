/** The index of all modifications of a block: byte keys that sort them by
    storage key, kind, content and transaction. */
module ModificationIndex {
  import opened StorageTypes

  type Bytes = seq<byte>

  const FIELD_LENGTH := 40
  const ADDRKEY_LENGTH := 64
  const HASH_LENGTH := 32

  function Pow256(n: nat): nat { if n == 0 then 1 else 256 * Pow256(n - 1) }

  /** `n` bytes, most significant first. */
  function BigEndian(x: nat, n: nat): (b: Bytes)
    ensures |b| == n
  {
    if n == 0 then [] else BigEndian(x / 256, n - 1) + [x % 256]
  }

  lemma {:induction false} BigEndianInjective(x: nat, y: nat, n: nat)
    requires x < Pow256(n) && y < Pow256(n) && BigEndian(x, n) == BigEndian(y, n)
    ensures x == y
  {
    if n > 0 {
      var bs, cs := BigEndian(x, n), BigEndian(y, n);
      assert bs[..n - 1] == BigEndian(x / 256, n - 1) && cs[..n - 1] == BigEndian(y / 256, n - 1);
      assert bs[n - 1] == x % 256 && cs[n - 1] == y % 256;
      BigEndianInjective(x / 256, y / 256, n - 1);
    }
  }

  function Zeros(n: nat): (b: Bytes)
    ensures |b| == n
  {
    if n == 0 then [] else [0] + Zeros(n - 1)
  }

  function Unsigned(x: int64): uint64 { x % TWO_64 }

  function Tag(d: Delta): byte {
    match d
    case DeleteLast => 0
    case RawMemoryWrite(_) => 1
    case Int64SetAdd(_, _) => 2
    case HashSetInsert(_) => 3
    case HashSetIncreaseLimit(_) => 4
    case HashSetClear(_) => 5
    case AssetAdd(_) => 9
  }

  /** What the delta writes into the zeroed field. */
  function Content(d: Delta, digest: Bytes -> Bytes): Bytes {
    match d
    case DeleteLast => []
    case RawMemoryWrite(data) => digest(data)
    case Int64SetAdd(v, a) => BigEndian(Unsigned(v), 8) + BigEndian(Unsigned(a), 8)
    case HashSetInsert(e) => BigEndian(e.hash, HASH_LENGTH) + BigEndian(e.index, 8)
    case HashSetIncreaseLimit(n) => BigEndian(n, 4)
    case HashSetClear(t) => BigEndian(t, 8)
    case AssetAdd(a) => BigEndian(Unsigned(a), 8)
  }

  predicate HashFits(d: Delta) { d.HashSetInsert? ==> d.entry.hash < Pow256(HASH_LENGTH) }

  datatype Modification = Modification(addrkey: Bytes, delta: Delta, txHash: Bytes)

  /** The fields have their sizes; `digest` is the hash of raw memory. */
  predicate WellFormed(m: Modification, digest: Bytes -> Bytes) {
    && |m.addrkey| == ADDRKEY_LENGTH && |m.txHash| == HASH_LENGTH && HashFits(m.delta)
    && (m.delta.RawMemoryWrite? ==> |digest(m.delta.data)| == HASH_LENGTH)
  }

  function ContentLength(d: Delta): nat {
    match d
    case DeleteLast => 0
    case RawMemoryWrite(_) => HASH_LENGTH
    case Int64SetAdd(_, _) => 16
    case HashSetInsert(_) => FIELD_LENGTH
    case HashSetIncreaseLimit(_) => 4
    case HashSetClear(_) => 8
    case AssetAdd(_) => 8
  }

  function IndexKey(m: Modification, digest: Bytes -> Bytes): Bytes {
    m.addrkey + [Tag(m.delta)] + Field(m.delta, digest) + m.txHash
  }

  lemma Powers()
    ensures Pow256(4) == 0x1_0000_0000 && Pow256(8) == TWO_64
  {
    assert Pow256(0) == 1;
    assert Pow256(1) == 0x100;
    assert Pow256(2) == 0x1_0000;
    assert Pow256(3) == 0x100_0000;
    assert Pow256(4) == 0x1_0000_0000;
    assert Pow256(5) == 0x100_0000_0000;
    assert Pow256(6) == 0x1_0000_0000_0000;
    assert Pow256(7) == 0x100_0000_0000_0000;
  }

  lemma SplitEqual(a: Bytes, b: Bytes, c: Bytes, d: Bytes)
    requires a + b == c + d && |a| == |c|
    ensures a == c && b == d
  {
    assert (a + b)[..|a|] == a && (c + d)[..|c|] == c;
    assert (a + b)[|a|..] == b && (c + d)[|c|..] == d;
  }

  lemma PairInjective(x: nat, y: nat, x2: nat, y2: nat, n: nat, m: nat)
    requires x < Pow256(n) && x2 < Pow256(n) && y < Pow256(m) && y2 < Pow256(m)
    requires BigEndian(x, n) + BigEndian(y, m) == BigEndian(x2, n) + BigEndian(y2, m)
    ensures x == x2 && y == y2
  {
    SplitEqual(BigEndian(x, n), BigEndian(y, m), BigEndian(x2, n), BigEndian(y2, m));
    BigEndianInjective(x, x2, n);
    BigEndianInjective(y, y2, m);
  }

  lemma UnsignedInjective(x: int64, y: int64)
    ensures Unsigned(x) == Unsigned(y) ==> x == y
    ensures Unsigned(x) < Pow256(8)
  {
    Powers();
  }

  lemma NumberInjective(d: Delta, e: Delta, digest: Bytes -> Bytes)
    requires Tag(d) == Tag(e) && Content(d, digest) == Content(e, digest)
    requires d.HashSetIncreaseLimit? || d.HashSetClear? || d.AssetAdd?
    ensures d == e
  {
    Powers();
    match d
    case HashSetIncreaseLimit(n) => BigEndianInjective(n, e.increase, 4);
    case HashSetClear(t) => BigEndianInjective(t, e.threshold, 8);
    case AssetAdd(a) =>
      UnsignedInjective(a, e.assetAmount);
      BigEndianInjective(Unsigned(a), Unsigned(e.assetAmount), 8);
  }

  lemma ContentInjective(d: Delta, e: Delta, digest: Bytes -> Bytes)
    requires HashFits(d) && HashFits(e) && !d.RawMemoryWrite?
    requires Tag(d) == Tag(e) && Content(d, digest) == Content(e, digest)
    ensures d == e
  {
    match d
    case Int64SetAdd(v, a) =>
      UnsignedInjective(v, e.setValue);
      UnsignedInjective(a, e.amount);
      PairInjective(Unsigned(v), Unsigned(a), Unsigned(e.setValue), Unsigned(e.amount), 8, 8);
    case HashSetInsert(x) =>
      Powers();
      PairInjective(x.hash, x.index, e.entry.hash, e.entry.index, HASH_LENGTH, 8);
    case DeleteLast =>
    case _ => NumberInjective(d, e, digest);
  }

  /** Two different writes of raw memory, by one transaction to one key, with
      the same digest. */
  predicate Collide(m: Modification, n: Modification, digest: Bytes -> Bytes) {
    && m != n && m.addrkey == n.addrkey && m.txHash == n.txHash
    && m.delta.RawMemoryWrite? && n.delta.RawMemoryWrite? && digest(m.delta.data) == digest(n.delta.data)
  }

  function Field(d: Delta, digest: Bytes -> Bytes): Bytes {
    Content(d, digest) + Zeros(FIELD_LENGTH - ContentLength(d))
  }

  lemma KeyParts(m: Modification, n: Modification, digest: Bytes -> Bytes)
    requires WellFormed(m, digest) && WellFormed(n, digest) && IndexKey(m, digest) == IndexKey(n, digest)
    ensures m.addrkey == n.addrkey && m.txHash == n.txHash && Tag(m.delta) == Tag(n.delta)
    ensures Field(m.delta, digest) == Field(n.delta, digest)
  {
    var fm, fn := Field(m.delta, digest), Field(n.delta, digest);
    SplitEqual(m.addrkey + [Tag(m.delta)] + fm, m.txHash, n.addrkey + [Tag(n.delta)] + fn, n.txHash);
    SplitEqual(m.addrkey + [Tag(m.delta)], fm, n.addrkey + [Tag(n.delta)], fn);
    SplitEqual(m.addrkey, [Tag(m.delta)], n.addrkey, [Tag(n.delta)]);
  }

  /** Modifications share an index key exactly when they are the same or their
      raw memory collides. */
  lemma IndexKeyInjective(m: Modification, n: Modification, digest: Bytes -> Bytes)
    requires WellFormed(m, digest) && WellFormed(n, digest)
    ensures IndexKey(m, digest) == IndexKey(n, digest) <==> m == n || Collide(m, n, digest)
  {
    if IndexKey(m, digest) == IndexKey(n, digest) {
      KeyParts(m, n, digest);
      TagsFixLength(m.delta, n.delta);
      SplitEqual(Content(m.delta, digest), Zeros(FIELD_LENGTH - ContentLength(m.delta)),
                 Content(n.delta, digest), Zeros(FIELD_LENGTH - ContentLength(n.delta)));
      if !m.delta.RawMemoryWrite? {
        ContentInjective(m.delta, n.delta, digest);
      }
    }
  }

  lemma TagsFixLength(d: Delta, e: Delta)
    ensures Tag(d) == Tag(e) ==> ContentLength(d) == ContentLength(e)
  {
  }

  // ---- logging and saving ----

  /** The trie: index key to logged delta. */
  type Index = map<Bytes, Delta>

  function LogAll(ms: seq<Modification>, digest: Bytes -> Bytes): Index {
    if ms == [] then map[]
    else LogAll(ms[..|ms| - 1], digest)[IndexKey(ms[|ms| - 1], digest) := ms[|ms| - 1].delta]
  }

  /** What saving reads back from one node: the ends of its key, and its value. */
  function Restore(key: Bytes, d: Delta): Modification
    requires |key| >= ADDRKEY_LENGTH + HASH_LENGTH
  {
    Modification(key[..ADDRKEY_LENGTH], d, key[|key| - HASH_LENGTH..])
  }

  lemma RestoreInverts(m: Modification, digest: Bytes -> Bytes)
    requires WellFormed(m, digest)
    ensures |IndexKey(m, digest)| >= ADDRKEY_LENGTH + HASH_LENGTH
    ensures Restore(IndexKey(m, digest), m.delta) == m
  {
  }

  ghost predicate AllWellFormed(ms: seq<Modification>, digest: Bytes -> Bytes) {
    forall m :: m in ms ==> WellFormed(m, digest)
  }

  ghost predicate NoCollisions(ms: seq<Modification>, digest: Bytes -> Bytes) {
    forall m, n :: m in ms && n in ms ==> !Collide(m, n, digest)
  }

  /** A node restores to a logged modification with the node's key. */
  ghost predicate NodeOk(ms: seq<Modification>, digest: Bytes -> Bytes, key: Bytes, d: Delta) {
    && |key| >= ADDRKEY_LENGTH + HASH_LENGTH
    && Restore(key, d) in ms && IndexKey(Restore(key, d), digest) == key
  }

  /** Collisions or not, the index holds nothing that was not logged. */
  lemma {:induction false} NodesAreLogged(ms: seq<Modification>, digest: Bytes -> Bytes)
    requires AllWellFormed(ms, digest)
    ensures forall key :: key in LogAll(ms, digest) ==> NodeOk(ms, digest, key, LogAll(ms, digest)[key])
    ensures forall m :: m in ms ==> IndexKey(m, digest) in LogAll(ms, digest)
  {
    if ms != [] {
      var last, front := ms[|ms| - 1], ms[..|ms| - 1];
      assert ms == front + [last];
      NodesAreLogged(front, digest);
      RestoreInverts(last, digest);
      forall key | key in LogAll(ms, digest)
        ensures NodeOk(ms, digest, key, LogAll(ms, digest)[key])
      {
        if key != IndexKey(last, digest) {
          assert NodeOk(front, digest, key, LogAll(front, digest)[key]);
        }
      }
    }
  }

  /** A modification is read back from its node exactly when the node still
      holds its delta. */
  lemma NodeHolds(ms: seq<Modification>, digest: Bytes -> Bytes, m: Modification)
    requires AllWellFormed(ms, digest) && m in ms
    ensures var index := LogAll(ms, digest);
      && IndexKey(m, digest) in index
      && NodeOk(ms, digest, IndexKey(m, digest), index[IndexKey(m, digest)])
      && var r := Restore(IndexKey(m, digest), index[IndexKey(m, digest)]);
         r == m || Collide(r, m, digest)
  {
    NodesAreLogged(ms, digest);
    var key := IndexKey(m, digest);
    IndexKeyInjective(Restore(key, LogAll(ms, digest)[key]), m, digest);
  }

  /** Without collisions the nodes of the index are exactly the logged
      modifications, one each. */
  lemma LogIsLossless(ms: seq<Modification>, digest: Bytes -> Bytes)
    requires AllWellFormed(ms, digest) && NoCollisions(ms, digest)
    ensures forall m :: m in ms ==>
      IndexKey(m, digest) in LogAll(ms, digest) && LogAll(ms, digest)[IndexKey(m, digest)] == m.delta
    ensures forall key :: key in LogAll(ms, digest) ==> NodeOk(ms, digest, key, LogAll(ms, digest)[key])
  {
    NodesAreLogged(ms, digest);
    forall m | m in ms
      ensures LogAll(ms, digest)[IndexKey(m, digest)] == m.delta
    {
      NodeHolds(ms, digest, m);
    }
  }

  function Distinct(ms: seq<Modification>): set<Modification> { set m | m in ms }

  lemma Grow<T>(s: set<T>, x: T, t: set<T>)
    requires t == s + {x}
    ensures |t| == |s| + if x in s then 0 else 1
  {
    if x in s {
      assert t == s;
    }
  }

  /** A key is in the index exactly when its modification was logged. */
  lemma KeyIsLogged(ms: seq<Modification>, m: Modification, digest: Bytes -> Bytes)
    requires AllWellFormed(ms, digest) && WellFormed(m, digest) && forall n :: n in ms ==> !Collide(n, m, digest)
    ensures IndexKey(m, digest) in LogAll(ms, digest) <==> m in ms
  {
    NodesAreLogged(ms, digest);
    var key := IndexKey(m, digest);
    if key in LogAll(ms, digest) {
      assert NodeOk(ms, digest, key, LogAll(ms, digest)[key]);
      IndexKeyInjective(Restore(key, LogAll(ms, digest)[key]), m, digest);
    }
  }

  lemma {:induction false} IndexSize(ms: seq<Modification>, digest: Bytes -> Bytes)
    requires AllWellFormed(ms, digest) && NoCollisions(ms, digest)
    ensures |LogAll(ms, digest).Keys| == |Distinct(ms)|
  {
    if ms != [] {
      var last, front := ms[|ms| - 1], ms[..|ms| - 1];
      assert ms == front + [last];
      IndexSize(front, digest);
      KeyIsLogged(front, last, digest);
      Grow(LogAll(front, digest).Keys, IndexKey(last, digest), LogAll(ms, digest).Keys);
      Grow(Distinct(front), last, Distinct(ms));
    }
  }

  ghost predicate RestoresTo(index: Index, key: Bytes, m: Modification) {
    key in index && |key| >= ADDRKEY_LENGTH + HASH_LENGTH && Restore(key, index[key]) == m
  }

  /** `out` lists what each node of the index restores to, once per node. */
  ghost predicate Saves(index: Index, out: seq<Modification>) {
    |out| == |index.Keys| && forall m :: m in out <==> exists key :: RestoresTo(index, key, m)
  }

  lemma SavedWasLogged(ms: seq<Modification>, digest: Bytes -> Bytes, m: Modification, key: Bytes)
    requires AllWellFormed(ms, digest) && RestoresTo(LogAll(ms, digest), key, m)
    ensures m in ms && key == IndexKey(m, digest)
  {
    NodesAreLogged(ms, digest);
    assert NodeOk(ms, digest, key, LogAll(ms, digest)[key]);
  }

  /** Of two colliding modifications at most one is saved. */
  lemma CollisionLoses(ms: seq<Modification>, digest: Bytes -> Bytes, out: seq<Modification>, m: Modification, n: Modification)
    requires AllWellFormed(ms, digest) && Saves(LogAll(ms, digest), out) && m in ms && n in ms
    requires Collide(m, n, digest)
    ensures m !in out || n !in out
  {
    if m in out && n in out {
      var key :| RestoresTo(LogAll(ms, digest), key, m);
      var other :| RestoresTo(LogAll(ms, digest), other, n);
      SavedWasLogged(ms, digest, m, key);
      SavedWasLogged(ms, digest, n, other);
      IndexKeyInjective(m, n, digest);
    }
  }

  /** Saving after any sequence of loggings returns nothing that was not logged,
      and returns every logged modification, exactly once whatever was logged
      twice, if and only if no raw memory among them collides. */
  lemma SavedExactlyOnce(ms: seq<Modification>, digest: Bytes -> Bytes, out: seq<Modification>)
    requires AllWellFormed(ms, digest) && Saves(LogAll(ms, digest), out)
    ensures forall m :: m in out ==> m in ms
    ensures (forall m :: m in ms ==> m in out) <==> NoCollisions(ms, digest)
    ensures NoCollisions(ms, digest) ==> |out| == |Distinct(ms)|
  {
    forall m | m in out
      ensures m in ms
    {
      var key :| RestoresTo(LogAll(ms, digest), key, m);
      SavedWasLogged(ms, digest, m, key);
    }
    if NoCollisions(ms, digest) {
      IndexSize(ms, digest);
      forall m | m in ms
        ensures m in out
      {
        NodeHolds(ms, digest, m);
        assert RestoresTo(LogAll(ms, digest), IndexKey(m, digest), m);
      }
    } else {
      var m, n :| m in ms && n in ms && Collide(m, n, digest);
      CollisionLoses(ms, digest, out, m, n);
    }
  }

  // ---- the key buffer ----

  function Overwrite(s: Bytes, at: nat, b: Bytes): Bytes
    requires at + |b| <= |s|
  {
    s[..at] + b + s[at + |b|..]
  }

  method CopyAt(out: array<byte>, at: nat, b: Bytes)
    requires at + |b| <= out.Length
    modifies out
    ensures out[..] == Overwrite(old(out[..]), at, b)
  {
    for i := 0 to |b|
      invariant forall j :: 0 <= j < i ==> out[at + j] == b[j]
      invariant forall j :: 0 <= j < out.Length && !(at <= j < at + i) ==> out[j] == old(out[j])
    {
      out[at + i] := b[i];
    }
    assert |Overwrite(old(out[..]), at, b)| == out.Length;
    forall j | 0 <= j < out.Length
      ensures out[..][j] == Overwrite(old(out[..]), at, b)[j]
    {
      if at <= j < at + |b| {
        assert out[at + (j - at)] == b[j - at];
      }
    }
  }

  lemma {:induction false} ZerosAre(n: nat)
    ensures forall i :: 0 <= i < n ==> Zeros(n)[i] == 0
  {
    if n > 0 {
      ZerosAre(n - 1);
    }
  }

  const KEY_LENGTH := ADDRKEY_LENGTH + 1 + FIELD_LENGTH + HASH_LENGTH

  /** A prefix is written and everything behind it is still zero. */
  predicate Written(s: Bytes, prefix: Bytes) {
    && |s| == KEY_LENGTH && prefix <= s
    && forall i :: |prefix| <= i < KEY_LENGTH ==> s[i] == 0
  }

  lemma WriteMore(s: Bytes, prefix: Bytes, b: Bytes)
    requires Written(s, prefix) && |prefix| + |b| <= KEY_LENGTH
    ensures Written(Overwrite(s, |prefix|, b), prefix + b)
  {
    assert s[..|prefix|] == prefix;
  }

  /** Zeros that are already there count as written. */
  lemma SkipZeros(s: Bytes, prefix: Bytes, n: nat)
    requires Written(s, prefix) && |prefix| + n <= KEY_LENGTH
    ensures Written(s, prefix + Zeros(n))
  {
    ZerosAre(n);
    assert s[..|prefix|] == prefix;
    assert s[..|prefix| + n] == prefix + Zeros(n);
  }

  lemma AllWritten(s: Bytes, prefix: Bytes)
    requires Written(s, prefix) && |prefix| == KEY_LENGTH
    ensures s == prefix
  {
  }

  /** Copies the next part into the buffer and moves the position on. */
  method WritePart(out: array<byte>, data: nat, b: Bytes, ghost prefix: Bytes) returns (next: nat)
    requires out.Length == KEY_LENGTH && data == |prefix| && data + |b| <= KEY_LENGTH && Written(out[..], prefix)
    modifies out
    ensures Written(out[..], prefix + b) && next == data + |b|
  {
    WriteMore(out[..], prefix, b);
    CopyAt(out, data, b);
    next := data + |b|;
  }

  method MakeIndexKey(m: Modification, digest: Bytes -> Bytes) returns (out: array<byte>)
    requires WellFormed(m, digest)
    ensures fresh(out) && out[..] == IndexKey(m, digest)
  {
    out := new byte[KEY_LENGTH](_ => 0);
    var content := Content(m.delta, digest);
    ghost var rest := Zeros(FIELD_LENGTH - ContentLength(m.delta));
    var data := WritePart(out, 0, m.addrkey, []);
    data := WritePart(out, data, [Tag(m.delta)], [] + m.addrkey);
    data := WritePart(out, data, content, [] + m.addrkey + [Tag(m.delta)]);
    SkipZeros(out[..], [] + m.addrkey + [Tag(m.delta)] + content, |rest|);
    data := ADDRKEY_LENGTH + 1 + FIELD_LENGTH;
    data := WritePart(out, data, m.txHash, [] + m.addrkey + [Tag(m.delta)] + content + rest);
    KeyIsWritten(out[..], m, digest);
  }

  lemma Reassociate(a: Bytes, t: Bytes, c: Bytes, z: Bytes, h: Bytes)
    ensures [] + a + t + c + z + h == a + t + (c + z) + h
  {
  }

  lemma ContentHasLength(d: Delta, digest: Bytes -> Bytes)
    requires d.RawMemoryWrite? ==> |digest(d.data)| == HASH_LENGTH
    ensures |Content(d, digest)| == ContentLength(d)
  {
  }

  lemma KeyIsWritten(s: Bytes, m: Modification, digest: Bytes -> Bytes)
    requires WellFormed(m, digest)
    requires Written(s, [] + m.addrkey + [Tag(m.delta)] + Content(m.delta, digest)
                        + Zeros(FIELD_LENGTH - ContentLength(m.delta)) + m.txHash)
    ensures s == IndexKey(m, digest)
  {
    Reassociate(m.addrkey, [Tag(m.delta)], Content(m.delta, digest),
                Zeros(FIELD_LENGTH - ContentLength(m.delta)), m.txHash);
    ContentHasLength(m.delta, digest);
    AllWritten(s, IndexKey(m, digest));
  }

  /** Reads the whole index back; the trie may be traversed in any order. */
  method SaveModifications(index: Index) returns (out: seq<Modification>)
    requires forall key :: key in index ==> |key| >= ADDRKEY_LENGTH + HASH_LENGTH
    ensures Saves(index, out)
  {
    out := [];
    var rest := index.Keys;
    while rest != {}
      invariant rest <= index.Keys && |out| + |rest| == |index.Keys|
      invariant forall m :: m in out <==> exists key :: key !in rest && RestoresTo(index, key, m)
    {
      var key :| key in rest;
      out := out + [Restore(key, index[key])];
      rest := rest - {key};
    }
  }
}
