/** The applicator as the program updates it, write by write, proved against
    the local view it stands for. */
module ProxyApplicators {
  import opened StorageTypes
  import opened HashSets
  import opened Proxies

  class ProxyApplicator {
    var current: Option<StorageObject>
    var memoryWrite: Option<seq<byte>>
    var intDelta: Option<SetAdd>
    var raisesLimit: bool
    var limitIncrease: uint64
    var newHashes: seq<Entry>
    var clearThreshold: Option<uint64>
    var assetDelta: Option<int64>
    var deleted: bool

    /** The proxy value that the fields make up. */
    function View(): Proxy
      reads this
    {
      Proxy(current, memoryWrite, intDelta, raisesLimit, limitIncrease, newHashes, clearThreshold, assetDelta, deleted)
    }

    /** The list shown for a hash set is in order, which its truncation by
        binary search relies on, and a recorded debit does not exceed its set
        value. */
    predicate Valid()
      reads this
    {
      && (current.Some? && current.value.HashSet? ==> Descending(current.value.hashes))
      && (intDelta.Some? && intDelta.value.amount < 0 ==> intDelta.value.setValue + intDelta.value.amount >= 0)
    }

    constructor (base: Option<StorageObject>)
      requires base.Some? && base.value.HashSet? ==> Descending(base.value.hashes)
      ensures Valid() && View() == Open(base)
    {
      current, memoryWrite, intDelta := base, None, None;
      raisesLimit, limitIncrease, newHashes := false, 0, [];
      clearThreshold, assetDelta, deleted := None, None, false;
    }

    /** Creates the default object of a type under an empty view. */
    method MakeCurrent(fallback: StorageObject)
      modifies `current
      ensures current == if old(current).None? then Some(fallback) else old(current)
    {
      if current.None? {
        current := Some(fallback);
      }
    }

    method MakeCurrentInt(d: SetAdd) returns (ok: bool)
      modifies `current
      ensures ok == ShownInt(d).Accepted?
      ensures ok ==> current == Some(Int64(ShownInt(d).amount))
      ensures !ok ==> current == if old(current).None? then Some(Int64(0)) else old(current)
    {
      MakeCurrent(Int64(0));
      if !InInt64(d.setValue + d.amount) {
        ok := d.amount > 0;
        if ok {
          current := Some(Int64(INT64_MAX));
        }
      } else {
        ok := true;
        current := Some(Int64(d.setValue + d.amount));
      }
    }

    method TryApplyInt(v: int64, amount: int64) returns (ok: bool)
      requires Valid()
      modifies `current, `intDelta
      ensures Valid()
      ensures ok == ApplyInt(old(View()), v, amount).Some?
      ensures View() == if ok then ApplyInt(old(View()), v, amount).value else old(View())
    {
      var recorded := 0;
      if intDelta.Some? {
        if intDelta.value.setValue != v {
          return false;
        }
        recorded := intDelta.value.amount;
      }
      var res := CombineInt(v, recorded, amount);
      CombineKeepsNonnegative(v, recorded, amount);
      if !res.Accepted? {
        return false;
      }
      intDelta := Some(SetAdd(v, res.amount));
      ok := MakeCurrentInt(SetAdd(v, res.amount));
    }

    /** A refused insert still leaves an empty set in an empty view. */
    method TryInsert(e: Entry) returns (ok: bool)
      requires Valid() && (current.Some? ==> current.value.HashSet?)
      modifies `current, `newHashes
      ensures Valid() && ok == ApplyInsert(old(View()), e).Some?
      ensures View() == if ok then ApplyInsert(old(View()), e).value
                        else old(View()).(current := Some(AsHashSet(old(current))))
    {
      MakeCurrent(HashSet([], START_HASH_SET_SIZE));
      var hs := current.value;
      var i := 0;
      while i < |hs.hashes|
        invariant 0 <= i <= |hs.hashes|
        invariant e !in hs.hashes[..i]
      {
        if hs.hashes[i] == e {
          return false;
        }
        i := i + 1;
      }
      if |hs.hashes| >= hs.maxSize {
        return false;
      }
      if clearThreshold.Some? && clearThreshold.value >= e.index {
        return false;
      }
      SortDistinct(hs.hashes + [e]);
      current := Some(hs.(hashes := SortDescending(hs.hashes + [e])));
      newHashes := newHashes + [e];
      return true;
    }

    method Clear(t: uint64)
      requires Valid() && (current.Some? ==> current.value.HashSet?)
      modifies `current, `clearThreshold
      ensures Valid() && View() == ApplyClear(old(View()), t)
    {
      MakeCurrent(HashSet([], START_HASH_SET_SIZE));
      if clearThreshold.None? {
        clearThreshold := Some(t);
      } else {
        clearThreshold := Some(Max(t, clearThreshold.value));
      }
      var kept := ClearHashes(current.value.hashes, clearThreshold.value);
      KeepAboveDescending(current.value.hashes, clearThreshold.value);
      current := Some(current.value.(hashes := kept));
    }

    /** A refused addition still leaves a zero amount in an empty view. */
    method TryAddAsset(amount: int64) returns (ok: bool)
      requires current.Some? ==> current.value.Asset?
      modifies `current, `assetDelta
      ensures ok == ApplyAsset(old(View()), amount).Some?
      ensures View() == if ok then ApplyAsset(old(View()), amount).value
                        else old(View()).(current := Some(Asset(AmountOf(old(current)))))
    {
      MakeCurrent(Asset(0));
      if assetDelta.Some? && !InInt64(assetDelta.value + amount) {
        return false;
      }
      if !InUint64(current.value.amount + amount) {
        return false;
      }
      assetDelta := Some(if assetDelta.None? then amount else assetDelta.value + amount);
      current := Some(Asset(current.value.amount + amount));
      return true;
    }

    /** One write. An accepted write is exactly the specified one; a refused one
        records no delta. */
    method TryApply(d: Delta) returns (ok: bool)
      requires Valid()
      modifies this
      ensures Valid()
      ensures ok == Proxies.TryApply(old(View()), d).Some?
      ensures ok ==> View() == Proxies.TryApply(old(View()), d).value
      ensures !ok ==> View() == old(View()).(current := current)
      ensures !ok && old(current).Some? ==> current == old(current)
    {
      if d.DeleteLast? {
        deleted, current := true, None;
        return true;
      }
      if deleted || !TypeGuard(View(), d) {
        return false;
      }
      match d
      case RawMemoryWrite(data) =>
        memoryWrite := Some(data);
        MakeCurrent(RawMemory([]));
        current := Some(RawMemory(data));
        ok := true;
      case Int64SetAdd(v, amount) =>
        ok := TryApplyInt(v, amount);
      case HashSetInsert(e) => ok := TryInsert(e);
      case HashSetIncreaseLimit(n) =>
        MakeCurrent(HashSet([], START_HASH_SET_SIZE));
        limitIncrease := (limitIncrease + n) % TWO_64;
        raisesLimit := true;
        ok := true;
      case HashSetClear(t) =>
        Clear(t);
        ok := true;
      case AssetAdd(amount) => ok := TryAddAsset(amount);
    }
  }

  method AppendInserts(before: seq<Delta>, es: seq<Entry>) returns (out: seq<Delta>)
    ensures out == before + InsertsOf(es)
  {
    out := before;
    var i := 0;
    while i < |es|
      invariant 0 <= i <= |es|
      invariant out + InsertsOf(es[i..]) == before + InsertsOf(es)
    {
      assert es[i..] == [es[i]] + es[i + 1..];
      out := out + [HashSetInsert(es[i])];
      i := i + 1;
    }
  }

  /** The compressed deltas, appended one by one. */
  method CollectDeltas(p: Proxy) returns (out: seq<Delta>)
    ensures out == GetDeltas(p)
  {
    if !p.deleted && p.current.None? {
      return [];
    }
    out := [];
    if p.memoryWrite.Some? {
      out := out + [RawMemoryWrite(p.memoryWrite.value)];
    }
    ghost var memory := if p.memoryWrite.Some? then [RawMemoryWrite(p.memoryWrite.value)] else [];
    assert out == memory;
    if p.intDelta.Some? {
      out := out + [Int64SetAdd(p.intDelta.value.setValue, p.intDelta.value.amount)];
    }
    ghost var ints := memory + (if p.intDelta.Some? then
      [Int64SetAdd(p.intDelta.value.setValue, p.intDelta.value.amount)] else []);
    assert out == ints;
    if p.raisesLimit {
      out := out + [HashSetIncreaseLimit(Min(p.limitIncrease, MAX_HASH_SET_SIZE))];
    }
    ghost var limits := ints + (if p.raisesLimit then
      [HashSetIncreaseLimit(Min(p.limitIncrease, MAX_HASH_SET_SIZE))] else []);
    assert out == limits;
    out := AppendInserts(out, p.newHashes);
    out := AppendEnd(p, out);
  }

  method AppendEnd(p: Proxy, before: seq<Delta>) returns (out: seq<Delta>)
    ensures out == before
      + (if p.clearThreshold.Some? then [HashSetClear(p.clearThreshold.value)] else [])
      + (if p.assetDelta.Some? then [AssetAdd(p.assetDelta.value)] else [])
      + (if p.deleted then [DeleteLast] else [])
  {
    out := before;
    if p.clearThreshold.Some? {
      out := out + [HashSetClear(p.clearThreshold.value)];
    }
    if p.assetDelta.Some? {
      out := out + [AssetAdd(p.assetDelta.value)];
    }
    if p.deleted {
      out := out + [DeleteLast];
    }
  }
}
