/** The transaction-local view of one key: what a transaction sees after its
    own writes, and the compressed deltas it will push. */
module Proxies {
  import opened StorageTypes
  import opened HashSets

  datatype SetAdd = SetAdd(setValue: int64, amount: int64)

  datatype Proxy = Proxy(
    current: Option<StorageObject>,
    memoryWrite: Option<seq<byte>>,
    intDelta: Option<SetAdd>,
    raisesLimit: bool,
    limitIncrease: uint64,
    newHashes: seq<Entry>,
    clearThreshold: Option<uint64>,
    assetDelta: Option<int64>,
    deleted: bool)

  function Open(base: Option<StorageObject>): Proxy {
    Proxy(base, None, None, false, 0, [], None, None, false)
  }

  /** `Thrown` stands for the source's runtime errors. */
  datatype Combined = Accepted(amount: int64) | Rejected | Thrown

  /** Adds a delta to the one already recorded for the same set value. */
  function CombineInt(base: int64, recorded: int64, amount: int64): Combined {
    if amount < 0 then
      if !InInt64(amount + recorded) then Rejected
      else
        var total: int64 := amount + recorded;
        if !InInt64(base + total) then
          if total < 0 then Rejected
          else if base < 0 then (if recorded < 0 then Thrown else Rejected)
          else Accepted(total)
        else if base + total < 0 then Rejected
        else Accepted(total)
    else if !InInt64(recorded + amount) then Accepted(INT64_MAX)
    else Accepted(recorded + amount)
  }

  /** The value shown for a recorded delta. */
  function ShownInt(d: SetAdd): Combined {
    if !InInt64(d.setValue + d.amount) then
      if d.amount > 0 then Accepted(INT64_MAX) else Thrown
    else Accepted(d.setValue + d.amount)
  }

  predicate TypeGuard(p: Proxy, d: Delta) {
    p.current.None? || d.DeleteLast? || p.current.value.Type() == d.Class().Type()
  }

  function AsHashSet(o: Option<StorageObject>): StorageObject { HashSet(HashesOf(o), MaxSizeOf(o)) }

  function ApplyInt(p: Proxy, v: int64, amount: int64): Option<Proxy> {
    if p.intDelta.Some? && p.intDelta.value.setValue != v then None
    else
      var r := CombineInt(v, if p.intDelta.Some? then p.intDelta.value.amount else 0, amount);
      if !r.Accepted? then None
      else
        var shown := ShownInt(SetAdd(v, r.amount));
        if !shown.Accepted? then None
        else Some(p.(intDelta := Some(SetAdd(v, r.amount)), current := Some(Int64(shown.amount))))
  }

  function ApplyInsert(p: Proxy, e: Entry): Option<Proxy> {
    var hs := AsHashSet(p.current);
    if e in hs.hashes || |hs.hashes| >= hs.maxSize then None
    else if p.clearThreshold.Some? && p.clearThreshold.value >= e.index then None
    else
      Some(p.(current := Some(hs.(hashes := SortDescending(hs.hashes + [e]))), newHashes := p.newHashes + [e]))
  }

  function ApplyClear(p: Proxy, t: uint64): Proxy {
    var hs := AsHashSet(p.current);
    var threshold: uint64 := if p.clearThreshold.None? then t else Max(t, p.clearThreshold.value);
    p.(clearThreshold := Some(threshold), current := Some(hs.(hashes := KeepAbove(hs.hashes, threshold))))
  }

  function ApplyAsset(p: Proxy, amount: int64): Option<Proxy> {
    var held := AmountOf(p.current);
    if p.assetDelta.Some? && !InInt64(p.assetDelta.value + amount) then None
    else if !InUint64(held + amount) then None
    else
      var total: int64 := if p.assetDelta.None? then amount else p.assetDelta.value + amount;
      Some(p.(assetDelta := Some(total), current := Some(Asset(held + amount))))
  }

  /** One accepted write; `None` is a write the transaction fails on. */
  function TryApply(p: Proxy, d: Delta): Option<Proxy> {
    if d.DeleteLast? then Some(p.(deleted := true, current := None))
    else if p.deleted || !TypeGuard(p, d) then None
    else
      match d
      case RawMemoryWrite(data) => Some(p.(memoryWrite := Some(data), current := Some(RawMemory(data))))
      case Int64SetAdd(v, amount) => ApplyInt(p, v, amount)
      case HashSetInsert(e) => ApplyInsert(p, e)
      case HashSetIncreaseLimit(n) =>
        Some(p.(current := Some(AsHashSet(p.current)),
                limitIncrease := (p.limitIncrease + n) % TWO_64, raisesLimit := true))
      case HashSetClear(t) => Some(ApplyClear(p, t))
      case AssetAdd(amount) => ApplyAsset(p, amount)
  }

  function ApplyAll(p: Proxy, ds: seq<Delta>): Option<Proxy>
    decreases |ds|
  {
    if ds == [] then Some(p)
    else
      var q := TryApply(p, ds[0]);
      if q.None? then None else ApplyAll(q.value, ds[1..])
  }

  function Get(p: Proxy): Option<StorageObject> { if p.deleted then None else p.current }

  function InsertsOf(es: seq<Entry>): seq<Delta> {
    if es == [] then [] else [HashSetInsert(es[0])] + InsertsOf(es[1..])
  }

  /** The deltas a transaction pushes for the key. */
  function GetDeltas(p: Proxy): seq<Delta> {
    if !p.deleted && p.current.None? then []
    else
      (if p.memoryWrite.Some? then [RawMemoryWrite(p.memoryWrite.value)] else [])
      + (if p.intDelta.Some? then [Int64SetAdd(p.intDelta.value.setValue, p.intDelta.value.amount)] else [])
      + (if p.raisesLimit then [HashSetIncreaseLimit(Min(p.limitIncrease, MAX_HASH_SET_SIZE))] else [])
      + InsertsOf(p.newHashes)
      + (if p.clearThreshold.Some? then [HashSetClear(p.clearThreshold.value)] else [])
      + (if p.assetDelta.Some? then [AssetAdd(p.assetDelta.value)] else [])
      + (if p.deleted then [DeleteLast] else [])
  }

  /** The set value that an addition to the key has to name. */
  function BaseInt(p: Proxy): Option<int64> {
    if p.intDelta.Some? then Some(p.intDelta.value.setValue)
    else if p.current.None? then Some(0)
    else if p.current.value.Int64? then Some(p.current.value.value)
    else None
  }

  /** The storage call that adds to an integer key. */
  function AddInt(p: Proxy, amount: int64): Option<Proxy> {
    var base := BaseInt(p);
    if base.None? then None else TryApply(p, Int64SetAdd(base.value, amount))
  }

  /** No input reaches the source's `throw` on a malformed base. */
  lemma CombineNeverThrows(base: int64, recorded: int64, amount: int64)
    ensures !CombineInt(base, recorded, amount).Thrown?
  {
  }

  /** A recorded negative delta never exceeds its set value. */
  lemma CombineKeepsNonnegative(base: int64, recorded: int64, amount: int64)
    requires recorded < 0 ==> base + recorded >= 0
    ensures var r := CombineInt(base, recorded, amount);
      && (r.Accepted? && r.amount < 0 ==> base + r.amount >= 0)
      && (r.Accepted? ==> ShownInt(SetAdd(base, r.amount)) == Accepted(Min(INT64_MAX, base + r.amount)))
  {
  }
}
