/** The local view agrees with the commit: what a transaction sees after its own
    writes to a key is what committing its compressed deltas makes of the key. */
module LocalViews {
  import opened StorageTypes
  import opened HashSets
  import opened Objects
  import opened ObjectInvariant
  import opened Folds
  import opened ObjectRounds
  import opened Schedules
  import opened Exactness
  import opened Proxies

  /** An entry that the local clear leaves in place. */
  predicate Kept(p: Proxy, e: Entry) { p.clearThreshold.Some? ==> e.index > p.clearThreshold.value }

  ghost predicate HashView(base: Option<StorageObject>, p: Proxy, hashes: seq<Entry>) {
    && Descending(hashes)
    && (forall e :: e in hashes <==> (e in HashesOf(base) || e in p.newHashes) && Kept(p, e))
    && NoDuplicates(p.newHashes) && (forall e :: e in p.newHashes ==> e !in HashesOf(base))
    && (p.clearThreshold.None? ==> |hashes| == |HashesOf(base)| + |p.newHashes|)
    && (p.clearThreshold.None? && p.newHashes != [] ==> |hashes| <= MaxSizeOf(base))
    && (p.clearThreshold.None? && p.newHashes == [] && !p.raisesLimit ==> p == Open(base))
    && (!p.raisesLimit ==> p.limitIncrease == 0)
  }

  /** How a proxy that has not deleted its key relates to the value it opened. */
  ghost predicate View(base: Option<StorageObject>, p: Proxy) {
    && (base.Some? ==> p.current.Some? && p.current.value.Type() == base.value.Type())
    && match p.current
       case None => p == Open(base)
       case Some(RawMemory(data)) =>
         && p == Open(base).(current := p.current, memoryWrite := p.memoryWrite)
         && (if p.memoryWrite.None? then p.current == base else data == p.memoryWrite.value)
       case Some(Int64(x)) =>
         && p == Open(base).(current := p.current, intDelta := p.intDelta)
         && (if p.intDelta.None? then p.current == base
             else var d := p.intDelta.value;
                  x == Min(INT64_MAX, d.setValue + d.amount) && (d.amount < 0 ==> d.setValue + d.amount >= 0))
       case Some(HashSet(hashes, size)) =>
         && p == Open(base).(current := p.current, raisesLimit := p.raisesLimit, limitIncrease := p.limitIncrease,
                             newHashes := p.newHashes, clearThreshold := p.clearThreshold)
         && size == MaxSizeOf(base) && HashView(base, p, hashes)
       case Some(Asset(x)) =>
         && p == Open(base).(current := p.current, assetDelta := p.assetDelta)
         && (if p.assetDelta.None? then p.current == base else x == AmountOf(base) + p.assetDelta.value)
  }

  lemma InsertedView(base: Option<StorageObject>, p: Proxy, q: Proxy, hashes: seq<Entry>, e: Entry)
    requires HashView(base, p, hashes) && e !in hashes && |hashes| < MaxSizeOf(base) && Kept(p, e)
    requires q.newHashes == p.newHashes + [e] && q.clearThreshold == p.clearThreshold
    requires q.raisesLimit == p.raisesLimit && q.limitIncrease == p.limitIncrease
    ensures HashView(base, q, SortDescending(hashes + [e]))
  {
    SortDistinct(hashes + [e]);
  }

  lemma InsertKeepsView(base: Option<StorageObject>, p: Proxy, e: Entry)
    requires View(base, p) && TypeGuard(p, HashSetInsert(e)) && ApplyInsert(p, e).Some?
    ensures View(base, ApplyInsert(p, e).value)
  {
    assert HashView(base, p, HashesOf(p.current));
    InsertedView(base, p, ApplyInsert(p, e).value, HashesOf(p.current), e);
  }

  lemma ClearKeepsView(base: Option<StorageObject>, p: Proxy, t: uint64)
    requires View(base, p) && TypeGuard(p, HashSetClear(t))
    ensures View(base, ApplyClear(p, t))
  {
    var hashes := HashesOf(p.current);
    var q := ApplyClear(p, t);
    assert HashView(base, p, hashes);
    KeepAboveMembers(hashes, q.clearThreshold.value);
    KeepAboveDescending(hashes, q.clearThreshold.value);
    assert HashView(base, q, q.current.value.hashes);
  }

  lemma IntKeepsView(base: Option<StorageObject>, p: Proxy, v: int64, amount: int64)
    requires View(base, p) && TypeGuard(p, Int64SetAdd(v, amount)) && ApplyInt(p, v, amount).Some?
    ensures View(base, ApplyInt(p, v, amount).value)
  {
    CombineKeepsNonnegative(v, if p.intDelta.Some? then p.intDelta.value.amount else 0, amount);
  }

  lemma AssetKeepsView(base: Option<StorageObject>, p: Proxy, amount: int64)
    requires View(base, p) && TypeGuard(p, AssetAdd(amount)) && ApplyAsset(p, amount).Some?
    ensures View(base, ApplyAsset(p, amount).value)
  {
  }

  lemma LimitKeepsView(base: Option<StorageObject>, p: Proxy, n: uint32)
    requires ValidBase(base) && View(base, p) && TryApply(p, HashSetIncreaseLimit(n)).Some?
    ensures View(base, TryApply(p, HashSetIncreaseLimit(n)).value)
  {
    assert HashView(base, p, HashesOf(p.current));
  }

  lemma MemoryKeepsView(base: Option<StorageObject>, p: Proxy, data: seq<byte>)
    requires View(base, p) && TryApply(p, RawMemoryWrite(data)).Some?
    ensures View(base, TryApply(p, RawMemoryWrite(data)).value)
  {
  }

  lemma ApplyKeepsView(base: Option<StorageObject>, p: Proxy, d: Delta)
    requires ValidBase(base) && View(base, p) && !d.DeleteLast? && TryApply(p, d).Some?
    ensures View(base, TryApply(p, d).value)
  {
    match d
    case RawMemoryWrite(data) => MemoryKeepsView(base, p, data);
    case Int64SetAdd(v, amount) => IntKeepsView(base, p, v, amount);
    case HashSetInsert(e) => InsertKeepsView(base, p, e);
    case HashSetIncreaseLimit(n) => LimitKeepsView(base, p, n);
    case HashSetClear(t) => ClearKeepsView(base, p, t);
    case AssetAdd(amount) => AssetKeepsView(base, p, amount);
  }

  /** `p` is a proxy in view, or the deletion of one. */
  ghost predicate From(base: Option<StorageObject>, q: Proxy, p: Proxy) {
    View(base, q) && (p == q || p == q.(deleted := true, current := None))
  }

  /** Every proxy reached by accepted writes is in view or deleted from there. */
  lemma {:induction false} WritesReach(base: Option<StorageObject>, q: Proxy, p: Proxy, ds: seq<Delta>) returns (r: Proxy)
    requires ValidBase(base) && From(base, q, p) && ApplyAll(p, ds).Some?
    ensures From(base, r, ApplyAll(p, ds).value)
    decreases |ds|
  {
    if ds == [] {
      r := q;
    } else {
      var p2 := TryApply(p, ds[0]).value;
      if ds[0].DeleteLast? {
        r := WritesReach(base, q, p2, ds[1..]);
      } else {
        ApplyKeepsView(base, p, ds[0]);
        r := WritesReach(base, p2, p2, ds[1..]);
      }
    }
  }

  // ---- the deltas pushed for the key ----

  lemma {:induction false} InsertsFacts(es: seq<Entry>, p: Part)
    ensures |InsertsOf(es)| == |es| && (forall i :: 0 <= i < |es| ==> InsertsOf(es)[i] == HashSetInsert(es[i]))
    ensures Sum(p, InsertsOf(es)) == if p.Inserts? || p.Slots? then |es| else 0
  {
    if es != [] {
      InsertsFacts(es[1..], p);
      assert InsertsOf(es)[1..] == InsertsOf(es[1..]);
    }
  }

  function LimitPart(p: Proxy): seq<Delta> {
    if p.raisesLimit then [HashSetIncreaseLimit(Min(p.limitIncrease, MAX_HASH_SET_SIZE))] else []
  }

  function ClearPart(p: Proxy): seq<Delta> {
    if p.clearThreshold.Some? then [HashSetClear(p.clearThreshold.value)] else []
  }

  function DeletePart(p: Proxy): seq<Delta> { if p.deleted then [DeleteLast] else [] }

  lemma SumThree(m: Part, a: seq<Delta>, b: seq<Delta>, c: seq<Delta>)
    ensures Sum(m, a + b + c) == Sum(m, a) + Sum(m, b) + Sum(m, c)
  {
    SumAppend(m, a + b, c);
    SumAppend(m, a, b);
  }

  lemma SumOfOne(m: Part, d: Delta)
    ensures Sum(m, [d]) == PartOf(m, d)
  {
    assert [d][1..] == [];
  }

  lemma SumOfParts(m: Part, p: Proxy)
    ensures Sum(m, HashParts(p)) ==
      if m.Inserts? then |p.newHashes|
      else if m.Slots? then |p.newHashes| + |LimitPart(p)| + |ClearPart(p)|
      else if m.Limit? && p.raisesLimit then Min(p.limitIncrease, MAX_HASH_SET_SIZE) else 0
  {
    SumThree(m, LimitPart(p), InsertsOf(p.newHashes), ClearPart(p) + DeletePart(p));
    SumAppend(m, ClearPart(p), DeletePart(p));
    InsertsFacts(p.newHashes, m);
    SumOfOne(m, HashSetIncreaseLimit(Min(p.limitIncrease, MAX_HASH_SET_SIZE)));
    SumOfOne(m, DeleteLast);
    if p.clearThreshold.Some? {
      SumOfOne(m, HashSetClear(p.clearThreshold.value));
    }
  }

  /** What a hash-set proxy pushes. */
  ghost predicate HashMembers(p: Proxy, ds: seq<Delta>) {
    && (forall d :: d in ds ==> d.DeleteLast? || d.Class() == HashSetClass)
    && (forall e :: HashSetInsert(e) in ds <==> e in p.newHashes)
    && (forall t: uint64 :: HashSetClear(t) in ds <==> p.clearThreshold == Some(t))
    && (DeleteLast in ds <==> p.deleted)
    && (ds == [] <==> !p.raisesLimit && p.newHashes == [] && p.clearThreshold.None? && !p.deleted)
  }

  function HashParts(p: Proxy): seq<Delta> {
    LimitPart(p) + InsertsOf(p.newHashes) + (ClearPart(p) + DeletePart(p))
  }

  lemma HashPartsAt(p: Proxy)
    ensures |HashParts(p)| == |LimitPart(p)| + |p.newHashes| + |ClearPart(p)| + |DeletePart(p)|
    ensures forall i :: 0 <= i < |p.newHashes| ==> HashParts(p)[|LimitPart(p)| + i] == HashSetInsert(p.newHashes[i])
    ensures forall i :: 0 <= i < |LimitPart(p)| || |LimitPart(p)| + |p.newHashes| <= i < |HashParts(p)| ==>
      !HashParts(p)[i].HashSetInsert?
  {
    InsertsFacts(p.newHashes, Inserts);
  }

  lemma HashPartsDistinct(p: Proxy)
    requires NoDuplicates(p.newHashes)
    ensures DistinctInserts(HashParts(p))
  {
    HashPartsAt(p);
    var ds, m := HashParts(p), |LimitPart(p)|;
    forall i, j | 0 <= i < j < |ds| && ds[i].HashSetInsert?
      ensures ds[i] != ds[j]
    {
      assert ds[m + (i - m)] == HashSetInsert(p.newHashes[i - m]);
      if j < m + |p.newHashes| {
        assert ds[m + (j - m)] == HashSetInsert(p.newHashes[j - m]);
      }
    }
  }

  lemma {:induction false} InsertsMembers(es: seq<Entry>)
    ensures forall d :: d in InsertsOf(es) <==> d.HashSetInsert? && d.entry in es
    ensures InsertsOf(es) == [] <==> es == []
  {
    if es != [] {
      InsertsMembers(es[1..]);
    }
  }

  lemma HashPartsMembers(p: Proxy)
    ensures HashMembers(p, HashParts(p))
  {
    InsertsMembers(p.newHashes);
    assert forall d :: d in HashParts(p) <==>
      d in LimitPart(p) || d in InsertsOf(p.newHashes) || d in ClearPart(p) || d in DeletePart(p);
  }

  /** The table has room for the new entries next to everything stored. */
  predicate RoomFor(base: Option<StorageObject>, p: Proxy) {
    p.newHashes == [] || |HashesOf(base)| + |p.newHashes| <= MaxSizeOf(base)
  }

  /** What the transaction sees, with the raised limit that takes effect later. */
  function CommittedView(p: Proxy): Option<StorageObject> {
    if !p.deleted && p.current.Some? && p.current.value.HashSet? && p.raisesLimit then
      Some(HashSet(p.current.value.hashes,
                   Min(MAX_HASH_SET_SIZE, p.current.value.maxSize + Min(p.limitIncrease, MAX_HASH_SET_SIZE))))
    else Get(p)
  }

  /** The deltas fit exactly when there is room, and fold to the local view. */
  ghost predicate Agrees(base: Option<StorageObject>, p: Proxy, ds: seq<Delta>) {
    && (Feasible(base, ds) <==> RoomFor(base, p))
    && (forall r :: FoldsTo(base, ds, r) ==> r == CommittedView(p))
  }

  /** A proxy that recorded only hash-set writes. */
  predicate OnlyHashWrites(p: Proxy) {
    p.memoryWrite.None? && p.intDelta.None? && p.assetDelta.None? && (p.deleted || p.current.Some?)
  }

  lemma HashRecorded(base: Option<StorageObject>, q: Proxy, p: Proxy)
    requires From(base, q, p) && ((q.current.Some? && q.current.value.HashSet?) || p.newHashes != [])
    ensures OnlyHashWrites(p) && (base.Some? ==> base.value.HashSet?)
    ensures NoDuplicates(p.newHashes) && forall e :: e in p.newHashes ==> e !in HashesOf(base)
  {
    assert q.current.Some? && q.current.value.HashSet?;
    assert HashView(base, q, q.current.value.hashes);
  }

  lemma HashPartsAreDeltas(p: Proxy)
    requires OnlyHashWrites(p)
    ensures GetDeltas(p) == HashParts(p)
  {
  }

  lemma HashFits(base: Option<StorageObject>, p: Proxy, ds: seq<Delta>)
    requires HashMembers(p, ds) && DistinctInserts(ds) && (base.Some? ==> base.value.HashSet?)
    requires forall e :: e in p.newHashes ==> e !in HashesOf(base)
    requires Sum(Inserts, ds) == |p.newHashes|
    requires Sum(Subtracted, ds) == 0 && Sum(AssetDown, ds) == 0 && Sum(AssetUp, ds) == 0
    ensures Feasible(base, ds) <==> RoomFor(base, p)
  {
  }

  lemma HashesFold(base: Option<StorageObject>, p: Proxy, hashes: seq<Entry>, r: StorageObject)
    requires HashView(base, p, hashes) && HashMembers(p, HashParts(p)) && FoldsToHashSet(base, HashParts(p), r)
    ensures r.hashes == hashes
  {
    forall e
      ensures e in r.hashes <==> e in hashes
    {
    }
    DescendingIsUnique(r.hashes, hashes);
  }

  lemma HashFoldIs(base: Option<StorageObject>, ds: seq<Delta>, r: Option<StorageObject>)
    requires ds != [] && DeleteLast !in ds && ds[0].Class() == HashSetClass && FoldsTo(base, ds, r)
    ensures r.Some? && FoldsToHashSet(base, ds, r.value)
  {
  }

  lemma HashFolds(base: Option<StorageObject>, p: Proxy, hashes: seq<Entry>, size: uint32, r: Option<StorageObject>)
    requires ValidBase(base) && HashView(base, p, hashes) && !p.deleted && size == MaxSizeOf(base)
    requires p.current == Some(HashSet(hashes, size)) && FoldsTo(base, HashParts(p), r)
    ensures r == CommittedView(p)
  {
    var ds := HashParts(p);
    HashPartsMembers(p);
    SumOfParts(Limit, p);
    if ds != [] {
      assert ds[0] in ds;
      HashFoldIs(base, ds, r);
      HashesFold(base, p, hashes, r.value);
    }
  }

  lemma HashAgrees(base: Option<StorageObject>, q: Proxy, p: Proxy)
    requires ValidBase(base) && From(base, q, p) && q.current.Some? && q.current.value.HashSet?
    ensures Agrees(base, p, GetDeltas(p))
  {
    HashRecorded(base, q, p);
    HashPartsAreDeltas(p);
    HashPartsMembers(p);
    HashPartsDistinct(p);
    SumOfParts(Inserts, p);
    SumOfParts(Subtracted, p);
    SumOfParts(AssetDown, p);
    SumOfParts(AssetUp, p);
    HashFits(base, p, HashParts(p));
    forall r | FoldsTo(base, HashParts(p), r)
      ensures r == CommittedView(p)
    {
      if !p.deleted {
        HashFolds(base, p, p.current.value.hashes, p.current.value.maxSize, r);
      }
    }
  }

  /** The one delta that a proxy of another type may have recorded. */
  function OnePart(p: Proxy): seq<Delta> {
    if p.memoryWrite.Some? then [RawMemoryWrite(p.memoryWrite.value)]
    else if p.intDelta.Some? then [Int64SetAdd(p.intDelta.value.setValue, p.intDelta.value.amount)]
    else if p.assetDelta.Some? then [AssetAdd(p.assetDelta.value)]
    else []
  }

  lemma OneSums(m: Part, one: seq<Delta>, end: seq<Delta>)
    requires |one| <= 1 && (end == [] || end == [DeleteLast])
    ensures Sum(m, one + end) == if one == [] then 0 else PartOf(m, one[0])
  {
    SumAppend(m, one, end);
    SumOfOne(m, DeleteLast);
    if one != [] {
      SumOfOne(m, one[0]);
    }
  }

  /** When a single delta fits a value. */
  ghost predicate OneOk(base: Option<StorageObject>, d: Delta) {
    && !d.DeleteLast? && d.Class() != HashSetClass
    && (base.Some? ==> base.value.Type() == d.Class().Type())
    && (d.Int64SetAdd? ==> d.amount >= 0 || d.setValue + d.amount >= 0)
    && (d.AssetAdd? ==> InUint64(AmountOf(base) + d.assetAmount))
  }

  lemma OneFits(base: Option<StorageObject>, one: seq<Delta>, end: seq<Delta>)
    requires |one| <= 1 && (end == [] || end == [DeleteLast])
    requires one != [] ==> OneOk(base, one[0])
    ensures Feasible(base, one + end)
  {
    forall m { OneSums(m, one, end); }
    assert forall d :: d in one + end <==> d in one || d in end;
  }

  /** At most one kind of write was recorded, and no hash. */
  predicate OneKind(p: Proxy) {
    && p.newHashes == [] && !p.raisesLimit && p.clearThreshold.None?
    && (p.memoryWrite.Some? ==> p.intDelta.None? && p.assetDelta.None?)
    && (p.intDelta.Some? ==> p.assetDelta.None?)
    && (!p.deleted && p.current.None? ==> p.memoryWrite.None? && p.intDelta.None? && p.assetDelta.None?)
  }

  lemma OneKindDeltas(p: Proxy)
    requires OneKind(p)
    ensures GetDeltas(p) == OnePart(p) + DeletePart(p)
  {
  }

  lemma ViewHasOneKind(base: Option<StorageObject>, q: Proxy, p: Proxy)
    requires From(base, q, p) && (q.current.Some? ==> !q.current.value.HashSet?)
    ensures OneKind(p)
  {
  }

  lemma ViewIsOk(base: Option<StorageObject>, q: Proxy)
    requires View(base, q) && (q.current.Some? ==> !q.current.value.HashSet?)
    ensures OnePart(q) != [] ==> OneOk(base, OnePart(q)[0])
  {
  }

  lemma OneRecorded(base: Option<StorageObject>, q: Proxy, p: Proxy)
    requires From(base, q, p) && (q.current.Some? ==> !q.current.value.HashSet?)
    ensures GetDeltas(p) == OnePart(p) + DeletePart(p) && p.newHashes == []
    ensures OnePart(p) != [] ==> OneOk(base, OnePart(p)[0])
  {
    ViewHasOneKind(base, q, p);
    OneKindDeltas(p);
    ViewIsOk(base, q);
  }

  lemma OneFolds(base: Option<StorageObject>, p: Proxy, r: Option<StorageObject>)
    requires View(base, p) && !p.deleted && (p.current.Some? ==> !p.current.value.HashSet?)
    requires FoldsTo(base, OnePart(p), r)
    ensures r == CommittedView(p)
  {
    forall m { OneSums(m, OnePart(p), []); }
    assert OnePart(p) + [] == OnePart(p);
  }

  lemma OneAgrees(base: Option<StorageObject>, q: Proxy, p: Proxy)
    requires From(base, q, p) && (q.current.Some? ==> !q.current.value.HashSet?)
    ensures Agrees(base, p, GetDeltas(p))
  {
    OneRecorded(base, q, p);
    OneFits(base, OnePart(p), DeletePart(p));
    forall r | FoldsTo(base, OnePart(p) + DeletePart(p), r)
      ensures r == CommittedView(p)
    {
      if p.deleted {
        assert DeleteLast in DeletePart(p);
      } else {
        assert OnePart(p) + DeletePart(p) == OnePart(p);
        OneFolds(base, p, r);
      }
    }
  }

  /** For every accepted sequence of writes: the compressed deltas fit the
      value they were made against exactly when there is room for the new
      entries, and then fold to what the transaction saw. */
  lemma LocalViewAgrees(base: Option<StorageObject>, ds: seq<Delta>, p: Proxy)
    requires ValidBase(base) && ApplyAll(Open(base), ds) == Some(p)
    ensures Agrees(base, p, GetDeltas(p))
  {
    assert View(base, Open(base));
    var q := WritesReach(base, Open(base), Open(base), ds);
    if q.current.Some? && q.current.value.HashSet? {
      HashAgrees(base, q, p);
    } else {
      OneAgrees(base, q, p);
    }
  }

  // ---- when there is room ----

  lemma {:induction false} NoInsertKeepsNew(p: Proxy, ds: seq<Delta>)
    requires ApplyAll(p, ds).Some? && forall d :: d in ds ==> !d.HashSetInsert?
    ensures ApplyAll(p, ds).value.newHashes == p.newHashes
    decreases |ds|
  {
    if ds != [] {
      assert ds[0] in ds;
      NoInsertKeepsNew(TryApply(p, ds[0]).value, ds[1..]);
    }
  }

  /** No insert follows a clear. */
  ghost predicate ClearsLast(ds: seq<Delta>) {
    forall i, j :: 0 <= i < j < |ds| && ds[i].HashSetClear? ==> !ds[j].HashSetInsert?
  }

  lemma {:induction false} RoomUnlessCleared(base: Option<StorageObject>, q: Proxy, p: Proxy, ds: seq<Delta>)
    requires ValidBase(base) && From(base, q, p) && q.clearThreshold.None? && ApplyAll(p, ds).Some? && ClearsLast(ds)
    ensures RoomFor(base, ApplyAll(p, ds).value)
    decreases |ds|
  {
    if ds != [] {
      var p2 := TryApply(p, ds[0]).value;
      if ds[0].DeleteLast? {
        RoomUnlessCleared(base, q, p2, ds[1..]);
      } else if ds[0].HashSetClear? {
        forall d | d in ds[1..]
          ensures !d.HashSetInsert?
        {
          var j :| 1 <= j < |ds| && ds[j] == d;
        }
        NoInsertKeepsNew(p2, ds[1..]);
      } else {
        ApplyKeepsView(base, p, ds[0]);
        RoomUnlessCleared(base, p2, p2, ds[1..]);
      }
    }
  }

  /** The deltas of one transaction, pushed to the object they were made
      against under any schedule, are accepted unless an insert followed a
      clear, and commit the value the transaction saw. */
  lemma PushedAloneCommits(k: Key, base: Option<StorageObject>, ds: seq<Delta>, p: Proxy,
                           o: Obj, cs: seq<Client>, schedule: seq<nat>, listing: seq<Entry>)
    requires ValidBase(base) && ApplyAll(Open(base), ds) == Some(p)
    requires ClearsLast(ds) || RoomFor(base, p)
    requires Starting(k, o, cs) && o.base == base && AllDeltas(k, cs) == GetDeltas(p) && |cs| <= MAX_DELTAS
    requires CellsFor(o.table, GetDeltas(p))
    ensures forall c :: c in Run(o, cs, schedule).1 ==> !IsRefusing(c)
    ensures (&& (forall c :: c in Run(o, cs, schedule).1 ==> Finished(c))
             && Lists(listing, Run(o, cs, schedule).0.table.contents)) ==>
      CommitRound(Run(o, cs, schedule).0, listing).base == CommittedView(p)
  {
    if ClearsLast(ds) {
      assert View(base, Open(base));
      RoomUnlessCleared(base, Open(base), Open(base), ds);
    }
    LocalViewAgrees(base, ds, p);
    StartingInv(k, o, cs);
    EveryScheduleAccepts(k, o, cs, schedule);
    if (forall c :: c in Run(o, cs, schedule).1 ==> Finished(c))
       && Lists(listing, Run(o, cs, schedule).0.table.contents) {
      ScheduleFolds(k, o, cs, schedule, listing);
    }
  }

  /** Few enough new entries, with the limit and the clear, for the slot's count. */
  predicate FitsCount(p: Proxy) { |p.newHashes| + |LimitPart(p)| + |ClearPart(p)| <= MAX_INFLIGHT }

  lemma OneSlot(base: Option<StorageObject>, q: Proxy, p: Proxy)
    requires From(base, q, p) && (q.current.Some? ==> !q.current.value.HashSet?)
    ensures Sum(Slots, GetDeltas(p)) <= 1 && FitsCount(p)
  {
    ViewHasOneKind(base, q, p);
    OneKindDeltas(p);
    OneSums(Slots, OnePart(p), DeletePart(p));
  }

  lemma PushedSlots(base: Option<StorageObject>, ds: seq<Delta>, p: Proxy)
    requires ValidBase(base) && ApplyAll(Open(base), ds) == Some(p)
    ensures Sum(Slots, GetDeltas(p)) <= MAX_INFLIGHT <==> FitsCount(p)
  {
    assert View(base, Open(base));
    var q := WritesReach(base, Open(base), Open(base), ds);
    if q.current.Some? && q.current.value.HashSet? {
      HashRecorded(base, q, p);
      HashPartsAreDeltas(p);
      SumOfParts(Slots, p);
    } else {
      OneSlot(base, q, p);
    }
  }

  /** Pushed to an untouched object, the deltas of one transaction are accepted
      under every schedule, nobody refused and nobody kept waiting, if and only
      if there is room for the new entries, a cell for each, and a place for
      each delta in the slot's count. */
  lemma PushedAloneServed(k: Key, base: Option<StorageObject>, ds: seq<Delta>, p: Proxy, o: Obj, cs: seq<Client>)
    requires ValidBase(base) && ApplyAll(Open(base), ds) == Some(p)
    requires Starting(k, o, cs) && o.base == base && AllDeltas(k, cs) == GetDeltas(p)
    ensures AcceptsAll(o, cs) <==> RoomFor(base, p) && CellsFor(o.table, GetDeltas(p)) && FitsCount(p)
  {
    LocalViewAgrees(base, ds, p);
    PushedSlots(base, ds, p);
    AcceptsAllExactly(k, o, cs);
  }

  lemma NewHashesNoAssets(base: Option<StorageObject>, q: Proxy, p: Proxy)
    requires From(base, q, p) && p.newHashes != []
    ensures forall d :: d in GetDeltas(p) ==> !d.AssetAdd?
  {
    HashRecorded(base, q, p);
    HashPartsAreDeltas(p);
    HashPartsMembers(p);
  }

  /** Conversely, no round in which these deltas were all committed, beside any
      other traffic, can have lacked the room. */
  lemma CommittedHadRoom(k: Key, base: Option<StorageObject>, ds: seq<Delta>, p: Proxy, o: Obj, cs: seq<Client>)
    requires ValidBase(base) && ApplyAll(Open(base), ds) == Some(p)
    requires Inv(k, o, cs) && Quiescent(k, cs) && o.base == base
    requires multiset(CommittedDeltas(k, cs)) == multiset(GetDeltas(p))
    ensures RoomFor(base, p)
  {
    if p.newHashes != [] {
      assert View(base, Open(base));
      var q := WritesReach(base, Open(base), Open(base), ds);
      NewHashesNoAssets(base, q, p);
      PermutedMembers(CommittedDeltas(k, cs), GetDeltas(p));
      NoAssetsFit(base, CommittedDeltas(k, cs));
      CommittedFit(k, o, cs);
      FeasiblePermutes(base, CommittedDeltas(k, cs), GetDeltas(p));
      LocalViewAgrees(base, ds, p);
    }
  }

  /** A local clear frees room that the shared object does not credit. */
  lemma ClearedRoomIsNotCredited()
    ensures var base := Some(HashSet([Entry(0, 1)], 1));
      var ds := [HashSetClear(5), HashSetInsert(Entry(0, 6))];
      && ValidBase(base) && ApplyAll(Open(base), ds).Some?
      && !Feasible(base, GetDeltas(ApplyAll(Open(base), ds).value))
  {
    var base := Some(HashSet([Entry(0, 1)], 1));
    var ds := [HashSetClear(5), HashSetInsert(Entry(0, 6))];
    var p := TryApply(Open(base), ds[0]).value;
    assert KeepAbove([Entry(0, 1)], 5) == [];
    var q := TryApply(p, ds[1]).value;
    assert ds[1..] == [ds[1]] && ds[1..][1..] == [];
    assert ApplyAll(q, []) == Some(q);
    assert ApplyAll(p, ds[1..]) == Some(q);
    LocalViewAgrees(base, ds, q);
  }
}
