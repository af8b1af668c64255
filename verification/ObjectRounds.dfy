/** Whole rounds of an object: how they begin, how they end, and what value
    the committed deltas fold to. */
module ObjectRounds {
  import opened StorageTypes
  import opened HashSets
  import opened Objects
  import opened ObjectInvariant
  import opened Folds

  /** No reservation of any kind is outstanding; dead cells may be left over. */
  predicate Clean(o: Obj) {
    && o.slot == EMPTY_SLOT && o.requiredType == TypeOf(o.base)
    && o.subtracted == 0 && o.added == 0
    && o.sizeIncrease == 0 && o.newElements == 0
    && o.table.contents == {} && o.table.tombstones <= o.table.capacity
    && !o.clearCommitted && o.maxClear == 0 && !o.deleteCommitted
    && o.available == o.upperBound == AmountOf(o.base)
  }

  predicate Finished(c: Client) { c.phase.Committed? || c.phase.Reverted? || c.phase.Refused? }

  ghost predicate Quiescent(k: Key, cs: seq<Client>) {
    forall i :: Mine(k, cs, i) ==> Finished(cs[i])
  }

  ghost predicate NoneCommitted(k: Key, cs: seq<Client>) {
    forall i :: Mine(k, cs, i) ==> !cs[i].phase.Committed?
  }

  lemma FreshIsClean(base: Option<StorageObject>)
    ensures Clean(Fresh(base))
  {
  }

  lemma CleanStarts(k: Key, o: Obj, cs: seq<Client>)
    requires Clean(o) && forall i :: !Mine(k, cs, i)
    ensures Inv(k, o, cs)
  {
    forall m
      ensures Total(m, k, cs) == 0
    {
      assert forall i :: 0 <= i < |cs| ==> Mine(k, cs, i) || cs[i].key != k;
      TotalZero(m, k, cs);
    }
  }

  /** The client plays the same part in the accounting. */
  predicate SameRole(c: Client, d: Client) {
    && d.key == c.key && d.delta == c.delta && ValidPhase(d)
    && HoldsSlot(d) == HoldsSlot(c) && InTable(d) == InTable(c) && PublishedClear(d) == PublishedClear(c)
    && d.phase.Counted? == c.phase.Counted?
    && (HoldsSlot(c) ==> d.live == c.live && d.phase.Committed? == c.phase.Committed?)
  }

  predicate Untouched(c: Client) { c.phase.Trying? && !c.live }

  /** Two client lists that an object cannot tell apart. */
  ghost predicate Alike(k: Key, cs: seq<Client>, ds: seq<Client>) {
    && (forall m :: Total(m, k, ds) == Total(m, k, cs))
    && (forall i :: Mine(k, cs, i) ==> Mine(k, ds, i) && SameRole(cs[i], ds[i]))
    && (forall i :: Mine(k, ds, i) ==> Mine(k, cs, i) || Untouched(ds[i]))
  }

  lemma AlikeTable(k: Key, o: Obj, cs: seq<Client>, ds: seq<Client>)
    requires Alike(k, cs, ds) && InvTable(k, o, cs) && InvNovel(k, o, cs)
    ensures InvTable(k, o, ds) && InvNovel(k, o, ds)
  {
    assert forall i, e :: HolderAt(k, ds, i, e) <==> HolderAt(k, cs, i, e);
  }

  lemma AlikeFlags(k: Key, o: Obj, cs: seq<Client>, ds: seq<Client>)
    requires Alike(k, cs, ds) && InvFlags(k, o, cs)
    ensures InvFlags(k, o, ds)
  {
    if o.maxClear != 0 {
      var i :| Mine(k, cs, i) && PublishedClear(cs[i]) && cs[i].delta.threshold == o.maxClear;
      assert Mine(k, ds, i) && PublishedClear(ds[i]) && ds[i].delta.threshold == o.maxClear;
    }
  }

  lemma AlikeSums(k: Key, o: Obj, cs: seq<Client>, ds: seq<Client>)
    requires Alike(k, cs, ds) && InvSlot(k, o, cs) && InvInt(k, o, cs) && InvCount(k, o, cs) && InvAsset(k, o, cs)
    ensures InvSlot(k, o, ds) && InvInt(k, o, ds) && InvCount(k, o, ds) && InvAsset(k, o, ds)
  {
  }

  lemma AlikeInv(k: Key, o: Obj, cs: seq<Client>, ds: seq<Client>)
    requires Alike(k, cs, ds) && Inv(k, o, cs)
    ensures Inv(k, o, ds)
  {
    AlikeTable(k, o, cs, ds);
    AlikeFlags(k, o, cs, ds);
    AlikeSums(k, o, cs, ds);
  }

  lemma SpawnAlike(k: Key, cs: seq<Client>, c: Client)
    requires forall i :: Mine(k, cs, i) ==> ValidPhase(cs[i])
    requires c.key != k || Untouched(c)
    ensures Alike(k, cs, cs + [c])
  {
    forall m
      ensures Total(m, k, cs + [c]) == Total(m, k, cs)
    {
      TotalAppend(m, k, cs, c);
    }
  }

  /** A delta that has not touched anything yet, or that is another object's. */
  lemma SpawnKeepsInv(k: Key, o: Obj, cs: seq<Client>, c: Client)
    requires Inv(k, o, cs) && (c.key != k || Untouched(c))
    ensures Inv(k, o, cs + [c])
  {
    SpawnAlike(k, cs, c);
    AlikeInv(k, o, cs, cs + [c]);
  }

  /** A step of another object's client. */
  lemma ForeignKeepsInv(k: Key, o: Obj, cs: seq<Client>, i: nat, c: Client)
    requires Inv(k, o, cs) && i < |cs| && cs[i].key != k && c.key != k
    ensures Inv(k, o, cs[i := c])
  {
    forall m
      ensures Total(m, k, cs[i := c]) == Total(m, k, cs)
    {
      TotalUpdate(m, k, cs, i, c);
    }
    AlikeInv(k, o, cs, cs[i := c]);
  }

  /** Where nothing was committed and nothing is in flight, nothing is left. */
  lemma QuiescentIdleIsClean(k: Key, o: Obj, cs: seq<Client>)
    requires Inv(k, o, cs) && Quiescent(k, cs) && NoneCommitted(k, cs)
    ensures Clean(o)
  {
    forall m
      ensures Total(m, k, cs) == 0
    {
      forall i | 0 <= i < |cs|
        ensures Val(m, k, cs[i]) == 0
      {
        assert Mine(k, cs, i) || cs[i].key != k;
      }
      TotalZero(m, k, cs);
    }
    assert forall i, e :: HolderAt(k, cs, i, e) ==> Mine(k, cs, i);
  }

  // ---- the end of an accepted round ----

  /** Deltas of one block that the 32-bit counters of an object can count. */
  const MAX_DELTAS: int := 0xFFFF_FFFF

  function CommittedDeltas(k: Key, cs: seq<Client>): seq<Delta> {
    if cs == [] then []
    else (if cs[0].key == k && cs[0].phase.Committed? then [cs[0].delta] else []) + CommittedDeltas(k, cs[1..])
  }

  predicate CommittedAt(k: Key, cs: seq<Client>, i: int, d: Delta) {
    Mine(k, cs, i) && cs[i].phase.Committed? && cs[i].delta == d
  }

  lemma {:induction false} CommittedMembers(k: Key, cs: seq<Client>)
    ensures forall d :: d in CommittedDeltas(k, cs) <==> exists i :: CommittedAt(k, cs, i, d)
  {
    if cs != [] {
      CommittedMembers(k, cs[1..]);
      forall d
        ensures d in CommittedDeltas(k, cs) <==> exists i :: CommittedAt(k, cs, i, d)
      {
        if i :| CommittedAt(k, cs[1..], i, d) {
          assert CommittedAt(k, cs, i + 1, d);
        }
        if CommittedAt(k, cs, 0, d) {
        } else if i :| CommittedAt(k, cs, i, d) {
          assert CommittedAt(k, cs[1..], i - 1, d);
        }
      }
    } else {
      assert forall i, d :: !CommittedAt(k, cs, i, d);
    }
  }

  /** What a committed delta contributes to a sum over clients. */
  function PartFor(m: Measure): Option<Part> {
    match m
    case Subtractions => Some(Subtracted)
    case Additions => Some(Added)
    case WithinLimit => Some(Inserts)
    case LimitIncrease => Some(Limit)
    case AssetCommitted => Some(AssetNet)
    case _ => None
  }

  /** A finished client counts with its delta if committed, and not at all if not. */
  lemma FinishedCounts(m: Measure, k: Key, c: Client)
    requires PartFor(m).Some? && c.key == k && Finished(c)
    ensures Val(m, k, c) == if c.phase.Committed? then PartOf(PartFor(m).value, c.delta) else 0
  {
  }

  /** At the end of a round the sums over clients are sums over committed deltas. */
  lemma {:induction false} TotalIsSum(m: Measure, k: Key, cs: seq<Client>)
    requires Quiescent(k, cs) && PartFor(m).Some?
    ensures Total(m, k, cs) == Sum(PartFor(m).value, CommittedDeltas(k, cs))
  {
    if cs != [] {
      forall i | Mine(k, cs[1..], i)
        ensures Finished(cs[1..][i])
      {
        assert Mine(k, cs, i + 1);
      }
      TotalIsSum(m, k, cs[1..]);
      if cs[0].key == k {
        assert Mine(k, cs, 0);
        FinishedCounts(m, k, cs[0]);
      }
      if cs[0].key == k && cs[0].phase.Committed? {
        assert CommittedDeltas(k, cs)[1..] == CommittedDeltas(k, cs[1..]);
      } else {
        assert CommittedDeltas(k, cs) == CommittedDeltas(k, cs[1..]);
      }
    }
  }

  lemma QuiescentTotals(k: Key, cs: seq<Client>)
    requires Quiescent(k, cs)
    ensures Total(AssetLiveDown, k, cs) == 0 && Total(AssetLiveUp, k, cs) == 0
  {
    forall i | 0 <= i < |cs|
      ensures Val(AssetLiveDown, k, cs[i]) == 0 && Val(AssetLiveUp, k, cs[i]) == 0
    {
      assert Mine(k, cs, i) || cs[i].key != k;
    }
    TotalZero(AssetLiveDown, k, cs);
    TotalZero(AssetLiveUp, k, cs);
  }

  /** The deltas a round committed all agree with the slot. */
  lemma CommittedAgree(k: Key, o: Obj, cs: seq<Client>)
    requires Inv(k, o, cs)
    ensures forall d :: d in CommittedDeltas(k, cs) && !d.DeleteLast? ==> o.slot.value == Some(d.Class())
    ensures OneClass(CommittedDeltas(k, cs))
    ensures forall d :: d in CommittedDeltas(k, cs) && !d.DeleteLast? && o.base.Some? ==>
      d.Class().Type() == o.base.value.Type()
    ensures forall e :: HashSetInsert(e) in CommittedDeltas(k, cs) ==>
      e in o.table.contents && e !in HashesOf(o.base)
  {
    CommittedMembers(k, cs);
    forall d | d in CommittedDeltas(k, cs)
      ensures !d.DeleteLast? ==> o.slot.value == Some(d.Class())
      ensures d.HashSetInsert? ==> d.entry in o.table.contents && d.entry !in HashesOf(o.base)
    {
      var i :| CommittedAt(k, cs, i, d);
      if d.HashSetInsert? {
        assert HolderAt(k, cs, i, d.entry);
      }
    }
  }

  /** The slot is taken exactly when a round committed something to it. */
  lemma CommittedFillSlot(k: Key, o: Obj, cs: seq<Client>)
    requires Inv(k, o, cs) && Quiescent(k, cs)
    ensures o.slot.value.Some? <==> exists d :: d in CommittedDeltas(k, cs) && !d.DeleteLast?
    ensures o.deleteCommitted <==> DeleteLast in CommittedDeltas(k, cs)
  {
    CommittedMembers(k, cs);
    CommittedAgree(k, o, cs);
    var ds := CommittedDeltas(k, cs);
    if o.slot.value.Some? {
      if forall i :: Mine(k, cs, i) ==> Val(Holders, k, cs[i]) == 0 {
        assert forall i :: 0 <= i < |cs| && !Mine(k, cs, i) ==> Val(Holders, k, cs[i]) == 0;
        assert forall i :: 0 <= i < |cs| ==> Val(Finalizers, k, cs[i]) <= Val(Holders, k, cs[i]);
        TotalZero(Holders, k, cs);
        TotalZero(Finalizers, k, cs);
      } else {
        var i :| Mine(k, cs, i) && Val(Holders, k, cs[i]) != 0;
        assert CommittedAt(k, cs, i, cs[i].delta);
        assert cs[i].delta in ds;
      }
    }
    DeleteCommitted(k, cs);
  }

  lemma DeleteCommitted(k: Key, cs: seq<Client>)
    requires Quiescent(k, cs)
    ensures Total(Deletes, k, cs) > 0 <==> DeleteLast in CommittedDeltas(k, cs)
  {
    CommittedMembers(k, cs);
    TotalAtLeast(Deletes, k, cs);
    if i :| CommittedAt(k, cs, i, DeleteLast) {
      assert Val(Deletes, k, cs[i]) == 1;
    } else {
      forall i | 0 <= i < |cs|
        ensures Val(Deletes, k, cs[i]) == 0
      {
        assert Mine(k, cs, i) || cs[i].key != k;
        assert !CommittedAt(k, cs, i, DeleteLast);
      }
      TotalZero(Deletes, k, cs);
    }
  }

  /** The largest committed threshold decides which entries survive. */
  lemma ClearsDecideSurvival(k: Key, o: Obj, cs: seq<Client>)
    requires Inv(k, o, cs) && Quiescent(k, cs)
    ensures forall e: Entry :: Survives(e, CommittedDeltas(k, cs)) <==> (o.clearCommitted ==> e.index > o.maxClear)
  {
    CommittedMembers(k, cs);
    TotalAtLeast(Clears, k, cs);
    var ds := CommittedDeltas(k, cs);
    forall e: Entry
      ensures Survives(e, ds) <==> (o.clearCommitted ==> e.index > o.maxClear)
    {
      if o.clearCommitted {
        var t := WitnessClear(k, o, cs);
        assert HashSetClear(t) in ds;
        forall u: uint64 | HashSetClear(u) in ds
          ensures u <= o.maxClear
        {
          var i :| CommittedAt(k, cs, i, HashSetClear(u));
        }
      } else {
        forall i | Mine(k, cs, i)
          ensures !ClearDone(cs[i])
        {
          assert Val(Clears, k, cs[i]) <= 0;
        }
        assert forall i, u: uint64 :: !CommittedAt(k, cs, i, HashSetClear(u));
      }
    }
  }

  lemma WitnessClear(k: Key, o: Obj, cs: seq<Client>) returns (t: uint64)
    requires Inv(k, o, cs) && Quiescent(k, cs) && o.clearCommitted
    ensures t == o.maxClear && exists i :: CommittedAt(k, cs, i, HashSetClear(t))
  {
    t := o.maxClear;
    if o.maxClear != 0 {
      var i :| Mine(k, cs, i) && PublishedClear(cs[i]) && cs[i].delta.threshold == o.maxClear;
      assert CommittedAt(k, cs, i, HashSetClear(t));
    } else {
      if forall i :: Mine(k, cs, i) ==> Val(Clears, k, cs[i]) == 0 {
        assert forall i :: 0 <= i < |cs| && !Mine(k, cs, i) ==> Val(Clears, k, cs[i]) == 0;
        TotalZero(Clears, k, cs);
      } else {
        var i :| Mine(k, cs, i) && Val(Clears, k, cs[i]) != 0;
        assert PublishedClear(cs[i]);
        assert CommittedAt(k, cs, i, HashSetClear(t));
      }
    }
  }

  /** A listing of the table joins the stored entries without duplicates. */
  lemma JoinedDistinct(hashes: seq<Entry>, listing: seq<Entry>)
    requires Descending(hashes) && NoDuplicates(listing)
    requires forall e :: e in listing ==> e !in hashes
    ensures NoDuplicates(hashes + listing)
  {
    var all := hashes + listing;
    forall i, j | 0 <= i < j < |all|
      ensures all[i] != all[j]
    {
      if j < |hashes| {
        assert Above(hashes[i], hashes[j]);
      } else {
        assert listing[j - |hashes|] in listing;
      }
    }
  }

  lemma FoldHashesResult(hashes: seq<Entry>, listing: seq<Entry>, cleared: bool, threshold: uint64)
    requires Descending(hashes) && NoDuplicates(listing)
    requires forall e :: e in listing ==> e !in hashes
    ensures var r := FoldHashes(hashes, listing, cleared, threshold);
      && Descending(r) && |r| <= |hashes| + |listing|
      && forall e :: e in r <==> (e in hashes || e in listing) && (cleared ==> e.index > threshold)
  {
    var all := hashes + listing;
    JoinedDistinct(hashes, listing);
    SortDistinct(all);
    var sorted := SortDescending(all);
    KeepAboveMembers(sorted, threshold);
    KeepAboveDescending(sorted, threshold);
    assert forall e :: e in all <==> e in hashes || e in listing;
  }

  /** The table holds exactly the committed inserts when a round ends. */
  lemma ListingIsCommitted(k: Key, o: Obj, cs: seq<Client>, listing: seq<Entry>)
    requires Inv(k, o, cs) && Quiescent(k, cs) && Lists(listing, o.table.contents)
    ensures forall e :: e in listing <==> HashSetInsert(e) in CommittedDeltas(k, cs)
    ensures forall e :: e in listing ==> e !in HashesOf(o.base)
    ensures |listing| <= Sum(Inserts, CommittedDeltas(k, cs)) == Total(WithinLimit, k, cs)
  {
    CommittedMembers(k, cs);
    CommittedAgree(k, o, cs);
    forall e | e in listing
      ensures HashSetInsert(e) in CommittedDeltas(k, cs)
    {
      var i :| HolderAt(k, cs, i, e);
      assert CommittedAt(k, cs, i, HashSetInsert(e));
    }
    ListedInserts(listing, CommittedDeltas(k, cs));
    TotalIsSum(WithinLimit, k, cs);
  }

  lemma DeletedRoundResult(o: Obj, listing: seq<Entry>)
    requires o.deleteCommitted
    ensures CommitRound(o, listing).base.None?
  {
  }

  lemma RawRoundResult(o: Obj, listing: seq<Entry>, data: seq<byte>)
    requires o.slot.value == Some(RawMemoryClass(data)) && !o.deleteCommitted
    ensures CommitRound(o, listing).base == Some(RawMemory(data))
  {
  }

  /** The deltas of a round that deleted nothing, all of class `c`. */
  predicate RoundOf(o: Obj, ds: seq<Delta>, c: DeltaClass) {
    && o.slot.value == Some(c) && !o.deleteCommitted
    && ds != [] && DeleteLast !in ds && ds[0].Class() == c
  }

  lemma ClassRoundFolds(k: Key, o: Obj, cs: seq<Client>, listing: seq<Entry>, c: DeltaClass)
    requires Inv(k, o, cs) && Quiescent(k, cs) && ValidBase(o.base) && |cs| <= MAX_DELTAS
    requires Lists(listing, o.table.contents) && RoundOf(o, CommittedDeltas(k, cs), c)
    ensures FoldsTo(o.base, CommittedDeltas(k, cs), CommitRound(o, listing).base)
    ensures ValidBase(CommitRound(o, listing).base)
  {
    match c
    case RawMemoryClass(data) => RawRoundResult(o, listing, data);
    case Int64Class(v) =>
      IntRoundResult(o, listing, v);
      IntRoundFolds(k, o, cs, v);
    case HashSetClass =>
      LimitIncreaseBounded(k, cs);
      TotalAtLeast(LimitIncrease, k, cs);
      HashRoundResult(o, listing);
      HashRoundFolds(k, o, cs, listing);
    case AssetClass =>
      AssetRoundResult(o, listing);
      AssetRoundFolds(k, o, cs);
  }

  /** The value left by an accepted round is the fold of its committed deltas. */
  lemma CommitRoundFolds(k: Key, o: Obj, cs: seq<Client>, listing: seq<Entry>)
    requires Inv(k, o, cs) && Quiescent(k, cs) && ValidBase(o.base) && |cs| <= MAX_DELTAS
    requires Lists(listing, o.table.contents)
    ensures FoldsTo(o.base, CommittedDeltas(k, cs), CommitRound(o, listing).base)
    ensures ValidBase(CommitRound(o, listing).base)
  {
    var ds := CommittedDeltas(k, cs);
    CommittedFillSlot(k, o, cs);
    if DeleteLast in ds {
      DeletedRoundResult(o, listing);
    } else if ds == [] {
      IdleRoundFolds(k, o, cs, listing);
    } else {
      CommittedAgree(k, o, cs);
      assert ds[0] in ds;
      ClassRoundFolds(k, o, cs, listing, ds[0].Class());
    }
  }

  lemma {:induction false} NothingCommitted(k: Key, cs: seq<Client>)
    requires CommittedDeltas(k, cs) == []
    ensures NoneCommitted(k, cs)
  {
    if cs != [] {
      NothingCommitted(k, cs[1..]);
      forall i | Mine(k, cs, i)
        ensures !cs[i].phase.Committed?
      {
        if i > 0 {
          assert Mine(k, cs[1..], i - 1);
        }
      }
    }
  }

  lemma IdleRoundFolds(k: Key, o: Obj, cs: seq<Client>, listing: seq<Entry>)
    requires Inv(k, o, cs) && Quiescent(k, cs) && ValidBase(o.base)
    requires CommittedDeltas(k, cs) == [] && Lists(listing, o.table.contents)
    ensures CommitRound(o, listing).base == o.base
  {
    NothingCommitted(k, cs);
    QuiescentIdleIsClean(k, o, cs);
    HeadIsMember(listing);
    CleanRoundKeeps(o);
  }

  lemma CleanRoundKeeps(o: Obj)
    requires Clean(o) && ValidBase(o.base)
    ensures CommitRound(o, []).base == o.base
  {
    if o.base.Some? && o.base.value.HashSet? {
      var hashes := o.base.value.hashes;
      FoldHashesResult(hashes, [], false, 0);
      DescendingIsUnique(FoldHashes(hashes, [], false, 0), hashes);
    } else if o.base.Some? && o.base.value.Int64? {
      FoldIntExact(o.base.value.value, 0, 0);
    }
  }

  /** Exact, although the 128-bit sum is read through a 64-bit cap. */
  lemma FoldIntExact(v: int64, subtracted: int, added: int)
    requires subtracted <= 0 <= added && (subtracted < 0 ==> v + subtracted >= 0)
    ensures FoldInt(v, subtracted, added) == Min(INT64_MAX, v + subtracted + added)
    ensures ToInt64(FoldInt(v, subtracted, added)) == FoldInt(v, subtracted, added)
  {
  }

  lemma IntRoundResult(o: Obj, listing: seq<Entry>, v: int64)
    requires o.slot.value == Some(Int64Class(v)) && !o.deleteCommitted
    ensures CommitRound(o, listing).base == Some(Int64(ToInt64(FoldInt(v, o.subtracted, o.added))))
  {
  }

  lemma IntRoundFolds(k: Key, o: Obj, cs: seq<Client>, v: int64)
    requires InvInt(k, o, cs) && Quiescent(k, cs) && o.slot.value == Some(Int64Class(v))
    ensures var ds := CommittedDeltas(k, cs);
      ToInt64(FoldInt(v, o.subtracted, o.added)) == Min(INT64_MAX, v + Sum(Subtracted, ds) + Sum(Added, ds))
  {
    TotalIsSum(Subtractions, k, cs);
    TotalIsSum(Additions, k, cs);
    TotalAtLeast(Additions, k, cs);
    FoldIntExact(v, o.subtracted, o.added);
  }

  lemma {:induction false} LimitIncreaseBounded(k: Key, cs: seq<Client>)
    ensures Total(LimitIncrease, k, cs) <= |cs| * 0xFFFF_FFFF
  {
    if cs != [] {
      LimitIncreaseBounded(k, cs[1..]);
    }
  }

  lemma HashRoundResult(o: Obj, listing: seq<Entry>)
    requires o.slot.value == Some(HashSetClass) && !o.deleteCommitted
    requires 0 <= o.sizeIncrease <= MAX_DELTAS * 0xFFFF_FFFF
    ensures CommitRound(o, listing).base ==
      Some(HashSet(FoldHashes(HashesOf(o.base), listing, o.clearCommitted, o.maxClear),
                   Min(MAX_HASH_SET_SIZE, o.sizeIncrease + MaxSizeOf(o.base))))
  {
    assert ToUint64(o.sizeIncrease + MaxSizeOf(o.base)) == o.sizeIncrease + MaxSizeOf(o.base);
  }

  /** The committed list, from what is known of its parts. */
  lemma FoldedSet(base: Option<StorageObject>, ds: seq<Delta>, listing: seq<Entry>, cleared: bool, threshold: uint64, size: uint32)
    requires ValidBase(base) && NoDuplicates(listing) && size == Min(MAX_HASH_SET_SIZE, MaxSizeOf(base) + Sum(Limit, ds))
    requires forall e :: e in listing <==> HashSetInsert(e) in ds
    requires forall e :: e in listing ==> e !in HashesOf(base)
    requires forall e: Entry :: Survives(e, ds) <==> (cleared ==> e.index > threshold)
    requires |HashesOf(base)| + |listing| <= size
    ensures var r := HashSet(FoldHashes(HashesOf(base), listing, cleared, threshold), size);
      FoldsToHashSet(base, ds, r) && ValidBase(Some(r))
  {
    FoldHashesResult(HashesOf(base), listing, cleared, threshold);
  }

  lemma HashRoundFolds(k: Key, o: Obj, cs: seq<Client>, listing: seq<Entry>)
    requires Inv(k, o, cs) && Quiescent(k, cs) && ValidBase(o.base)
    requires Lists(listing, o.table.contents) && o.sizeIncrease >= 0
    ensures var r := HashSet(FoldHashes(HashesOf(o.base), listing, o.clearCommitted, o.maxClear),
                             Min(MAX_HASH_SET_SIZE, o.sizeIncrease + MaxSizeOf(o.base)));
      FoldsToHashSet(o.base, CommittedDeltas(k, cs), r) && ValidBase(Some(r))
  {
    TotalIsSum(LimitIncrease, k, cs);
    ListingIsCommitted(k, o, cs, listing);
    ListingFits(k, o, cs, listing);
    ClearsDecideSurvival(k, o, cs);
    FoldedSet(o.base, CommittedDeltas(k, cs), listing, o.clearCommitted, o.maxClear,
              Min(MAX_HASH_SET_SIZE, o.sizeIncrease + MaxSizeOf(o.base)));
  }

  lemma ListingFits(k: Key, o: Obj, cs: seq<Client>, listing: seq<Entry>)
    requires InvCount(k, o, cs) && ValidBase(o.base) && o.sizeIncrease >= 0 && |listing| <= Total(WithinLimit, k, cs)
    ensures |HashesOf(o.base)| + |listing| <= Min(MAX_HASH_SET_SIZE, o.sizeIncrease + MaxSizeOf(o.base))
  {
  }

  lemma AssetRoundResult(o: Obj, listing: seq<Entry>)
    requires o.slot.value == Some(AssetClass) && !o.deleteCommitted
    ensures CommitRound(o, listing).base == Some(Asset(ToUint64(o.available)))
  {
  }

  /** Both bounds meet in the net amount when a round ends. */
  lemma AssetRoundFolds(k: Key, o: Obj, cs: seq<Client>)
    requires InvAsset(k, o, cs) && Quiescent(k, cs)
    ensures o.available == o.upperBound == AmountOf(o.base) + Sum(AssetNet, CommittedDeltas(k, cs))
    ensures ToUint64(o.available) == o.available
  {
    TotalIsSum(AssetCommitted, k, cs);
    QuiescentTotals(k, cs);
  }

  // ---- what a round leaves behind ----

  /** A rejected round leaves the stored value and no accounting. */
  lemma RewindRoundIsClean(o: Obj)
    requires o.requiredType == TypeOf(o.base)
    ensures Clean(RewindRound(o)) && RewindRound(o).base == o.base
    ensures RewindRound(o).table.tombstones == 0
  {
  }

  /** The bounds of an asset are reset while its old amount is still stored, so
      deleting a nonzero asset is the one way to leave an object that is not
      equivalent to a new one. The database drops such an object. */
  lemma CommitRoundIsClean(o: Obj, listing: seq<Entry>)
    requires o.requiredType == TypeOf(o.base)
    ensures var prev := if o.slot.value.Some? then Some(ObjectFromClass(o.slot.value.value, o.base)) else o.base;
      Clean(CommitRound(o, listing)) <==> !(o.deleteCommitted && AmountOf(prev) != 0)
    ensures CommitRound(o, listing).table.tombstones == 0
    ensures !o.deleteCommitted ==> (CommitRound(o, listing).base.None? <==> o.slot.value.None? && o.base.None?)
  {
  }

  /** The table has a cell for every element the limit lets in. */
  predicate CapacityOk(o: Obj) {
    o.base.None? || o.base.value.HashSet? ==> MaxSizeOf(o.base) <= o.table.capacity
  }

  lemma FreshCapacity(base: Option<StorageObject>)
    ensures CapacityOk(Fresh(base))
  {
  }

  /** The limit and the raises of the round together fit 32 bits. */
  predicate ModestRaise(o: Obj) { o.sizeIncrease + MaxSizeOf(o.base) < TWO_32 }

  /** An accepted round keeps it so, raised limits included, if and only if the
      request for cells fits 32 bits or what is left of it is large enough. */
  lemma RoundCapacity(o: Obj, listing: seq<Entry>)
    requires CapacityOk(o) && 0 <= o.sizeIncrease <= MAX_DELTAS * 0xFFFF_FFFF
    requires o.slot.value.Some? && o.base.Some? ==> o.slot.value.value.Type() == o.base.value.Type()
    ensures var r := CommitRound(o, listing);
      r.base.Some? ==>
        (CapacityOk(r) <==>
         r.base.value.HashSet? ==> ModestRaise(o) || MAX_HASH_SET_SIZE <= Resize(o.table.capacity, o.sizeIncrease + MaxSizeOf(o.base)))
  {
    var r := CommitRound(o, listing);
    if r.base.Some? && r.base.value.HashSet? {
      RaisedCapacity(o, listing);
      ResizeReaches(o.table.capacity, o.sizeIncrease + MaxSizeOf(o.base));
    }
  }

  lemma ResizeReaches(capacity: nat, size: nat)
    ensures size < TWO_32 ==> Resize(capacity, size) >= size && Resize(capacity, size) >= capacity
  {
  }

  /** The limit and the table that an accepted round leaves a set. */
  lemma RaisedCapacity(o: Obj, listing: seq<Entry>)
    requires 0 <= o.sizeIncrease <= MAX_DELTAS * 0xFFFF_FFFF
    requires o.slot.value.Some? && o.base.Some? ==> o.slot.value.value.Type() == o.base.value.Type()
    requires CommitRound(o, listing).base.Some? && CommitRound(o, listing).base.value.HashSet?
    ensures var r, size := CommitRound(o, listing), o.sizeIncrease + MaxSizeOf(o.base);
      && r.base.value.maxSize == Min(MAX_HASH_SET_SIZE, size)
      && r.table.capacity == (if o.sizeIncrease > 0 then Resize(o.table.capacity, size) else o.table.capacity)
      && (o.base.None? || o.base.value.HashSet?)
  {
    assert ToUint64(o.sizeIncrease + MaxSizeOf(o.base)) == o.sizeIncrease + MaxSizeOf(o.base);
  }

  /** Enough raises in one round and the request wraps to less than the table
      has: the limit goes to its maximum and the table stays as it was. */
  lemma LargeRaiseIsLost()
    ensures var o := Fresh(None).(slot := Slot(Some(HashSetClass), 1, true), sizeIncrease := 65537 * 65535);
      var r := CommitRound(o, []);
      r.base == Some(HashSet([], MAX_HASH_SET_SIZE)) && r.table.capacity == Alloc(START_HASH_SET_SIZE) < MAX_HASH_SET_SIZE
  {
    var none: seq<Entry> := [];
    assert none + none == none && SortDescending(none) == none;
  }
}
