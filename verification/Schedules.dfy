/** Schedule independence: deltas that fit an object are reserved and committed
    under every interleaving, and always fold to the same value. */
module Schedules {
  import opened StorageTypes
  import opened HashSets
  import opened Objects
  import opened ObjectInvariant
  import opened Folds
  import opened ObjectRounds

  function AllDeltas(k: Key, cs: seq<Client>): seq<Delta> {
    if cs == [] then []
    else (if cs[0].key == k then [cs[0].delta] else []) + AllDeltas(k, cs[1..])
  }

  predicate IsRefusing(c: Client) { c.phase.Refused? || c.phase.Releasing? || c.phase.Overflowed? }

  lemma {:induction false} AllMember(k: Key, cs: seq<Client>, i: nat)
    requires Mine(k, cs, i)
    ensures cs[i].delta in AllDeltas(k, cs)
  {
    if i > 0 {
      AllMember(k, cs[1..], i - 1);
    }
  }

  lemma {:induction false} AllUpdate(k: Key, cs: seq<Client>, i: nat, c: Client)
    requires i < |cs| && c.key == cs[i].key && c.delta == cs[i].delta
    ensures AllDeltas(k, cs[i := c]) == AllDeltas(k, cs)
  {
    if i == 0 {
      assert cs[0 := c] == [c] + cs[1..];
    } else {
      AllUpdate(k, cs[1..], i - 1, c);
      assert cs[i := c] == [cs[0]] + cs[1..][i - 1 := c];
    }
  }

  /** Two clients that insert the same entry are two occurrences of one delta. */
  lemma {:induction false} AllDistinct(k: Key, cs: seq<Client>, i: nat, j: nat)
    requires Mine(k, cs, i) && Mine(k, cs, j) && i < j
    requires cs[i].delta.HashSetInsert? && DistinctInserts(AllDeltas(k, cs))
    ensures cs[i].delta != cs[j].delta
  {
    var all := AllDeltas(k, cs);
    var rest := AllDeltas(k, cs[1..]);
    if i == 0 {
      AllMember(k, cs[1..], j - 1);
      assert all == [cs[0].delta] + rest;
      var n :| 0 <= n < |rest| && rest[n] == cs[j].delta;
      assert all[0] != all[n + 1];
    } else {
      assert all == (if cs[0].key == k then [cs[0].delta] else []) + rest;
      assert DistinctInserts(rest) by {
        var off := |all| - |rest|;
        assert forall n :: 0 <= n < |rest| ==> rest[n] == all[n + off];
      }
      AllDistinct(k, cs[1..], i - 1, j - 1);
    }
  }

  predicate Dominates(m: Measure, p: Part) {
    || (m.Subtractions? && p.Subtracted?)
    || (m.NewElements? && p.Inserts?)
  }

  /** What is counted so far is at most what all deltas together would count. */
  lemma {:induction false} TotalWithinAll(m: Measure, p: Part, k: Key, cs: seq<Client>)
    requires Dominates(m, p)
    ensures m.Subtractions? ==> Total(m, k, cs) >= Sum(p, AllDeltas(k, cs))
    ensures m.NewElements? ==> Total(m, k, cs) <= Sum(p, AllDeltas(k, cs))
  {
    if cs != [] {
      TotalWithinAll(m, p, k, cs[1..]);
      var rest := AllDeltas(k, cs[1..]);
      if cs[0].key == k {
        assert AllDeltas(k, cs)[1..] == rest;
      } else {
        assert AllDeltas(k, cs) == rest;
      }
    }
  }

  lemma {:induction false} AssetsWithinAll(k: Key, cs: seq<Client>)
    ensures Total(AssetCommitted, k, cs) + Total(AssetLiveDown, k, cs) >= Sum(AssetDown, AllDeltas(k, cs))
    ensures Total(AssetCommitted, k, cs) + Total(AssetLiveUp, k, cs) <= Sum(AssetUp, AllDeltas(k, cs))
  {
    if cs != [] {
      AssetsWithinAll(k, cs[1..]);
      var rest := AllDeltas(k, cs[1..]);
      if cs[0].key == k {
        assert AllDeltas(k, cs)[1..] == rest;
      } else {
        assert AllDeltas(k, cs) == rest;
      }
    }
  }

  /** A taken slot is held by somebody. */
  lemma SlotHasHolder(k: Key, o: Obj, cs: seq<Client>)
    requires InvSlot(k, o, cs) && o.slot.value.Some?
    ensures exists j :: Mine(k, cs, j) && HoldsSlot(cs[j])
  {
    if forall i :: Mine(k, cs, i) ==> !HoldsSlot(cs[i]) {
      forall i | 0 <= i < |cs|
        ensures Val(Holders, k, cs[i]) == 0 && Val(Finalizers, k, cs[i]) == 0
      {
        assert Mine(k, cs, i) || cs[i].key != k;
      }
      TotalZero(Holders, k, cs);
      TotalZero(Finalizers, k, cs);
    }
  }

  lemma {:induction false} ListSet(s: set<Entry>) returns (l: seq<Entry>)
    ensures Lists(l, s) && |l| == |s|
  {
    if s == {} {
      l := [];
    } else {
      var e :| e in s;
      var rest := ListSet(s - {e});
      l := [e] + rest;
    }
  }

  /** The table has a cell that is not dead for every insert. */
  predicate CellsFor(t: Table, ds: seq<Delta>) {
    Sum(Inserts, ds) == 0 || t.tombstones + Sum(Inserts, ds) <= t.capacity
  }

  /** The setting of a block that is being replayed: everything it holds fits. */
  ghost predicate Fits(k: Key, o: Obj, cs: seq<Client>) {
    Inv(k, o, cs) && Feasible(o.base, AllDeltas(k, cs)) && CellsFor(o.table, AllDeltas(k, cs))
  }

  /** Without dead cells, what fits an object finds its cells. */
  lemma NoTombstonesMeansRoom(o: Obj, ds: seq<Delta>)
    requires CapacityOk(o) && o.table.tombstones == 0 && Feasible(o.base, ds)
    ensures CellsFor(o.table, ds)
  {
    SomeInsert(ds);
    SumSign(Inserts, ds);
    if Sum(Inserts, ds) > 0 {
      var e :| HashSetInsert(e) in ds;
      assert HashSetInsert(e).Class().Type() == HashSetType;
    }
  }

  lemma SlotNeverRefused(k: Key, o: Obj, cs: seq<Client>, i: nat)
    requires Fits(k, o, cs) && Mine(k, cs, i) && cs[i].phase.Trying?
    ensures !IsRefusing(TryStep(o, cs[i]).1)
  {
    AllMember(k, cs, i);
    if o.slot.value.Some? {
      SlotHasHolder(k, o, cs);
      var j :| Mine(k, cs, j) && HoldsSlot(cs[j]);
      AllMember(k, cs, j);
    }
  }

  lemma IntNeverRefused(k: Key, o: Obj, cs: seq<Client>, i: nat)
    requires Fits(k, o, cs) && Mine(k, cs, i) && cs[i].phase.SlotHeld? && cs[i].delta.Int64SetAdd?
    ensures !IsRefusing(CountStep(o, cs[i]).1)
  {
    var c := cs[i].(phase := Reserved);
    AllMember(k, cs, i);
    AllUpdate(k, cs, i, c);
    TotalUpdate(Subtractions, k, cs, i, c);
    TotalWithinAll(Subtractions, Subtracted, k, cs[i := c]);
  }

  lemma InsertNeverRefused(k: Key, o: Obj, cs: seq<Client>, i: nat)
    requires Fits(k, o, cs) && Mine(k, cs, i) && cs[i].phase.SlotHeld? && cs[i].delta.HashSetInsert?
    ensures !IsRefusing(CountStep(o, cs[i]).1)
  {
    var c := cs[i].(phase := Counted);
    AllMember(k, cs, i);
    AllUpdate(k, cs, i, c);
    TotalUpdate(NewElements, k, cs, i, c);
    TotalWithinAll(NewElements, Inserts, k, cs[i := c]);
    TotalAtLeast(NewElements, k, cs);
  }

  /** The bounds have room for one more delta of those that fit. */
  lemma AssetRoom(k: Key, o: Obj, cs: seq<Client>, i: nat)
    requires InvAsset(k, o, cs) && AssetsFit(o.base, AllDeltas(k, cs))
    requires Mine(k, cs, i) && cs[i].phase.SlotHeld? && cs[i].delta.AssetAdd?
    ensures o.available + Min(cs[i].delta.assetAmount, 0) >= 0
    ensures o.upperBound + Max(cs[i].delta.assetAmount, 0) <= UINT64_MAX
  {
    var c := cs[i].(phase := Reserved);
    AllUpdate(k, cs, i, c);
    TotalUpdate(AssetCommitted, k, cs, i, c);
    TotalUpdate(AssetLiveDown, k, cs, i, c);
    TotalUpdate(AssetLiveUp, k, cs, i, c);
    AssetsWithinAll(k, cs[i := c]);
  }

  lemma AssetCounts(o: Obj, c: Client)
    requires c.phase.SlotHeld? && c.delta.AssetAdd? && 0 <= o.available <= o.upperBound <= UINT64_MAX
    requires o.available + Min(c.delta.assetAmount, 0) >= 0 && o.upperBound + Max(c.delta.assetAmount, 0) <= UINT64_MAX
    ensures !IsRefusing(CountStep(o, c).1)
  {
  }

  lemma AssetNeverRefused(k: Key, o: Obj, cs: seq<Client>, i: nat)
    requires InvAsset(k, o, cs) && AssetsFit(o.base, AllDeltas(k, cs))
    requires Mine(k, cs, i) && cs[i].phase.SlotHeld? && cs[i].delta.AssetAdd?
    ensures !IsRefusing(CountStep(o, cs[i]).1)
  {
    AssetRoom(k, o, cs, i);
    AssetCounts(o, cs[i]);
  }

  lemma TableNeverRefuses(k: Key, o: Obj, cs: seq<Client>, i: nat)
    requires Fits(k, o, cs) && Mine(k, cs, i) && cs[i].phase.Counted? && cs[i].delta.HashSetInsert?
    ensures !TableRefuses(o.table, cs[i].delta.entry)
  {
    var e := cs[i].delta.entry;
    var all := AllDeltas(k, cs);
    AllMember(k, cs, i);
    forall j, x | HolderAt(k, cs, j, x)
      ensures x != e && HashSetInsert(x) in all
    {
      AllMember(k, cs, j);
      if i < j {
        AllDistinct(k, cs, i, j);
      } else {
        AllDistinct(k, cs, j, i);
      }
    }
    assert e !in o.table.contents;
    var l := ListSet(o.table.contents);
    forall x | x in l + [e]
      ensures HashSetInsert(x) in all
    {
    }
    ListedInserts(l + [e], all);
  }

  /** A delta that fits is never refused, whatever ran before it. */
  lemma NeverRefused(k: Key, o: Obj, cs: seq<Client>, i: nat, choice: Choice)
    requires Fits(k, o, cs) && Mine(k, cs, i) && !IsRefusing(cs[i])
    ensures !IsRefusing(Next(o, cs[i], choice).1)
  {
    match cs[i].phase
    case Trying => SlotNeverRefused(k, o, cs, i);
    case SlotHeld =>
      match cs[i].delta {
        case Int64SetAdd(_, _) => IntNeverRefused(k, o, cs, i);
        case HashSetInsert(_) => InsertNeverRefused(k, o, cs, i);
        case AssetAdd(_) => AssetNeverRefused(k, o, cs, i);
        case _ =>
      }
    case Counted => TableNeverRefuses(k, o, cs, i);
    case _ =>
  }

  // ---- every schedule ----

  /** Lets clients step in the given order, each going on to commit. */
  function Run(o: Obj, cs: seq<Client>, schedule: seq<nat>): (Obj, seq<Client>)
    decreases |schedule|
  {
    if schedule == [] then (o, cs)
    else if schedule[0] >= |cs| then Run(o, cs, schedule[1..])
    else
      var r := Next(o, cs[schedule[0]], Commit);
      Run(r.0, cs[schedule[0] := r.1], schedule[1..])
  }

  ghost predicate Willing(k: Key, cs: seq<Client>) {
    forall i :: 0 <= i < |cs| ==>
      cs[i].key == k && !IsRefusing(cs[i])
      && !cs[i].phase.RevertMid? && !cs[i].phase.RevertSlot? && !cs[i].phase.Reverted?
  }

  lemma CommitKeepsTombstones(o: Obj, c: Client)
    requires !c.phase.RevertMid?
    ensures Next(o, c, Commit).0.table.tombstones == o.table.tombstones
    ensures Next(o, c, Commit).0.table.capacity == o.table.capacity
  {
    match c.phase
    case SlotHeld => assert CountStep(o, c).0.table == o.table;
    case Reserved => assert CommitStep(o, c).0.table == o.table;
    case _ =>
  }

  lemma CommitNeverReverts(o: Obj, c: Client)
    requires !c.phase.RevertMid? && !c.phase.RevertSlot? && !c.phase.Reverted?
    ensures var p := Next(o, c, Commit).1.phase; !p.RevertMid? && !p.RevertSlot? && !p.Reverted?
  {
    match c.phase
    case SlotHeld => assert !CountStep(o, c).1.phase.RevertMid?;
    case Reserved => assert !CommitStep(o, c).1.phase.RevertMid?;
    case _ =>
  }

  /** Whatever the order of steps, nothing that fits is refused. */
  lemma {:induction false} EveryScheduleAccepts(k: Key, o: Obj, cs: seq<Client>, schedule: seq<nat>)
    requires Fits(k, o, cs) && Willing(k, cs)
    ensures var (o2, cs2) := Run(o, cs, schedule);
      && Fits(k, o2, cs2) && Willing(k, cs2) && o2.base == o.base && |cs2| == |cs|
      && AllDeltas(k, cs2) == AllDeltas(k, cs)
    decreases |schedule|
  {
    if schedule != [] {
      var i := schedule[0];
      if i >= |cs| {
        EveryScheduleAccepts(k, o, cs, schedule[1..]);
      } else {
        var r := Next(o, cs[i], Commit);
        assert Mine(k, cs, i);
        NeverRefused(k, o, cs, i, Commit);
        StepKeepsInv(k, o, cs, i, Commit);
        CommitKeepsTombstones(o, cs[i]);
        CommitNeverReverts(o, cs[i]);
        AllUpdate(k, cs, i, r.1);
        EveryScheduleAccepts(k, r.0, cs[i := r.1], schedule[1..]);
      }
    }
  }

  lemma {:induction false} AllCommitted(k: Key, cs: seq<Client>)
    requires Willing(k, cs) && forall i :: 0 <= i < |cs| ==> Finished(cs[i])
    ensures CommittedDeltas(k, cs) == AllDeltas(k, cs)
  {
    if cs != [] {
      AllCommitted(k, cs[1..]);
      assert cs[0].phase.Committed?;
    }
  }

  /** Two blocks that hold the same deltas for an object, scheduled in any two
      ways, end with the same value. */
  lemma SchedulesAgree(k: Key, o: Obj, cs: seq<Client>, schedule: seq<nat>, listing: seq<Entry>,
                       p: Obj, ds: seq<Client>, other: seq<nat>, otherListing: seq<Entry>)
    requires Fits(k, o, cs) && Willing(k, cs) && |cs| <= MAX_DELTAS
    requires Fits(k, p, ds) && Willing(k, ds) && |ds| <= MAX_DELTAS
    requires o.base == p.base && ValidBase(o.base)
    requires multiset(AllDeltas(k, cs)) == multiset(AllDeltas(k, ds))
    requires forall c :: c in Run(o, cs, schedule).1 ==> Finished(c)
    requires forall c :: c in Run(p, ds, other).1 ==> Finished(c)
    requires Lists(listing, Run(o, cs, schedule).0.table.contents)
    requires Lists(otherListing, Run(p, ds, other).0.table.contents)
    ensures CommitRound(Run(o, cs, schedule).0, listing).base == CommitRound(Run(p, ds, other).0, otherListing).base
  {
    ScheduleFolds(k, o, cs, schedule, listing);
    ScheduleFolds(k, p, ds, other, otherListing);
    FoldIsUnique(o.base, AllDeltas(k, cs), AllDeltas(k, ds),
                 CommitRound(Run(o, cs, schedule).0, listing).base,
                 CommitRound(Run(p, ds, other).0, otherListing).base);
  }

  lemma ScheduleFolds(k: Key, o: Obj, cs: seq<Client>, schedule: seq<nat>, listing: seq<Entry>)
    requires Fits(k, o, cs) && Willing(k, cs) && ValidBase(o.base) && |cs| <= MAX_DELTAS
    requires forall c :: c in Run(o, cs, schedule).1 ==> Finished(c)
    requires Lists(listing, Run(o, cs, schedule).0.table.contents)
    ensures FoldsTo(o.base, AllDeltas(k, cs), CommitRound(Run(o, cs, schedule).0, listing).base)
  {
    EveryScheduleAccepts(k, o, cs, schedule);
    var (o2, cs2) := Run(o, cs, schedule);
    forall i | Mine(k, cs2, i)
      ensures Finished(cs2[i])
    {
      assert cs2[i] in cs2;
    }
    AllCommitted(k, cs2);
    CommitRoundFolds(k, o2, cs2, listing);
  }

  // ---- what a block committed fits ----

  lemma {:induction false} CommittedDistinct(k: Key, cs: seq<Client>)
    requires forall i, j, e :: HolderAt(k, cs, i, e) && HolderAt(k, cs, j, e) ==> i == j
    ensures DistinctInserts(CommittedDeltas(k, cs))
  {
    if cs != [] {
      var tail := cs[1..];
      forall i, j, e | HolderAt(k, tail, i, e) && HolderAt(k, tail, j, e)
        ensures i == j
      {
        assert HolderAt(k, cs, i + 1, e) && HolderAt(k, cs, j + 1, e);
      }
      CommittedDistinct(k, tail);
      CommittedMembers(k, tail);
      if cs[0].key == k && cs[0].phase.Committed? && cs[0].delta.HashSetInsert? {
        assert HolderAt(k, cs, 0, cs[0].delta.entry);
        forall i | CommittedAt(k, tail, i, cs[0].delta)
          ensures HolderAt(k, cs, i + 1, cs[0].delta.entry)
        {
        }
        assert cs[0].delta !in CommittedDeltas(k, tail);
      }
    }
  }

  /** The committed deltas of any finished round fit the object they were
      committed to, so the round can be replayed under any schedule. Only assets
      may have depended on the order: see `AssetOrderMatters`. */
  lemma CommittedFit(k: Key, o: Obj, cs: seq<Client>)
    requires Inv(k, o, cs) && Quiescent(k, cs)
    ensures Feasible(o.base, CommittedDeltas(k, cs)) <==> AssetsFit(o.base, CommittedDeltas(k, cs))
  {
    CommittedAgree(k, o, cs);
    CommittedDistinct(k, cs);
    TotalIsSum(Subtractions, k, cs);
    TotalIsSum(WithinLimit, k, cs);
  }

  /** And they found their cells, dead ones or not. */
  lemma CommittedHadCells(k: Key, o: Obj, cs: seq<Client>)
    requires Inv(k, o, cs)
    ensures o.table.tombstones + Sum(Inserts, CommittedDeltas(k, cs)) <= o.table.capacity
  {
    CommittedAgree(k, o, cs);
    CommittedDistinct(k, cs);
    InsertsWithin(CommittedDeltas(k, cs), o.table.contents);
  }

  lemma NoAssetsFit(base: Option<StorageObject>, ds: seq<Delta>)
    requires forall d :: d in ds ==> !d.AssetAdd?
    ensures AssetsFit(base, ds)
  {
    NoAssetsNoSum(ds);
  }

  /** A round about to begin: nobody has touched the object yet. */
  ghost predicate Starting(k: Key, p: Obj, ds: seq<Client>) {
    && Clean(p)
    && forall i :: 0 <= i < |ds| ==> ds[i].key == k && ds[i].phase.Trying? && !ds[i].live
  }

  lemma {:induction false} StartingInv(k: Key, p: Obj, ds: seq<Client>)
    requires Starting(k, p, ds)
    ensures Inv(k, p, ds) && Willing(k, ds)
  {
    if ds == [] {
      CleanStarts(k, p, ds);
    } else {
      var front := ds[..|ds| - 1];
      StartingInv(k, p, front);
      SpawnKeepsInv(k, p, front, ds[|ds| - 1]);
      assert ds == front + [ds[|ds| - 1]];
    }
  }

  /** A proposer finished a round with clients `cs`, whatever it refused or
      reverted on the way. A validator that starts from the same stored value
      with exactly the committed deltas, and a cell for each insert, in any order
      and under any schedule, refuses none of them; when all are done it stores
      the same value. */
  lemma ValidatorAgrees(k: Key, o: Obj, cs: seq<Client>, listing: seq<Entry>,
                        p: Obj, ds: seq<Client>, schedule: seq<nat>, otherListing: seq<Entry>)
    requires Inv(k, o, cs) && Quiescent(k, cs) && ValidBase(o.base) && |cs| <= MAX_DELTAS
    requires AssetsFit(o.base, CommittedDeltas(k, cs)) && CellsFor(p.table, CommittedDeltas(k, cs))
    requires Starting(k, p, ds) && p.base == o.base && |ds| <= MAX_DELTAS
    requires multiset(AllDeltas(k, ds)) == multiset(CommittedDeltas(k, cs))
    ensures forall c :: c in Run(p, ds, schedule).1 ==> !IsRefusing(c)
    ensures (&& Lists(listing, o.table.contents) && Lists(otherListing, Run(p, ds, schedule).0.table.contents)
             && (forall c :: c in Run(p, ds, schedule).1 ==> Finished(c))) ==>
      CommitRound(Run(p, ds, schedule).0, otherListing).base == CommitRound(o, listing).base
  {
    CommittedFit(k, o, cs);
    FeasiblePermutes(o.base, CommittedDeltas(k, cs), AllDeltas(k, ds));
    SumPermutes(Inserts, CommittedDeltas(k, cs), AllDeltas(k, ds));
    StartingInv(k, p, ds);
    EveryScheduleAccepts(k, p, ds, schedule);
    if Lists(listing, o.table.contents) && Lists(otherListing, Run(p, ds, schedule).0.table.contents)
       && (forall c :: c in Run(p, ds, schedule).1 ==> Finished(c)) {
      ScheduleFolds(k, p, ds, schedule, otherListing);
      CommitRoundFolds(k, o, cs, listing);
      FoldIsUnique(o.base, CommittedDeltas(k, cs), AllDeltas(k, ds),
                   CommitRound(o, listing).base, CommitRound(Run(p, ds, schedule).0, otherListing).base);
    }
  }

  lemma {:induction false} NoAssetsNoSum(ds: seq<Delta>)
    requires forall d :: d in ds ==> !d.AssetAdd?
    ensures Sum(AssetDown, ds) == 0 && Sum(AssetUp, ds) == 0
  {
    if ds != [] {
      assert ds[0] in ds;
      NoAssetsNoSum(ds[1..]);
    }
  }

  /** The state in which a client stands after so many steps of its own. */
  function Steps(o: Obj, c: Client, n: nat): (Obj, Client) {
    if n == 0 then (o, c)
    else
      var r := Steps(o, c, n - 1);
      Next(r.0, r.1, Commit)
  }

  const CREDIT := Client(0, 0, AssetAdd(10), false, Trying)
  const DEBIT := Client(0, 0, AssetAdd(-1), false, Trying)

  lemma DebitFirst()
    ensures Steps(Fresh(None), DEBIT, 3).1.phase.Refused?
  {
    assert Steps(Fresh(None), DEBIT, 1).1.phase.SlotHeld?;
    assert Steps(Fresh(None), DEBIT, 2).1.phase.Releasing?;
  }

  lemma CreditCommits()
    ensures var r := Steps(Fresh(None), CREDIT, 4);
      r.1.phase.Committed? && r.0 == Fresh(None).(slot := Slot(Some(AssetClass), 1, true), available := 10, upperBound := 10)
  {
    assert Steps(Fresh(None), CREDIT, 1).1.phase.SlotHeld?;
    assert Steps(Fresh(None), CREDIT, 2).1.phase.Reserved?;
    assert Steps(Fresh(None), CREDIT, 3).0.available == 10;
  }

  lemma DebitAfterwards(p: Obj)
    requires p == Fresh(None).(slot := Slot(Some(AssetClass), 1, true), available := 10, upperBound := 10)
    ensures Steps(p, DEBIT, 4).1.phase.Committed?
  {
    assert Steps(p, DEBIT, 1).1.phase.SlotHeld?;
    assert Steps(p, DEBIT, 2).1.phase.Reserved?;
    assert Steps(p, DEBIT, 3).1.phase.CommitSlot?;
  }

  lemma SumOfTwo(p: Part, d: Delta, e: Delta)
    ensures Sum(p, [d, e]) == PartOf(p, d) + PartOf(p, e)
  {
    assert [d, e][1..] == [e] && [e][1..] == [];
    assert Sum(p, [e]) == PartOf(p, e) + Sum(p, [e][1..]);
  }

  /** An asset can be credited ten and then debited one, but not debited first:
      the debit is refused until the credit is committed. */
  lemma AssetOrderMatters()
    ensures !AssetsFit(None, [CREDIT.delta, DEBIT.delta])
    ensures Steps(Fresh(None), DEBIT, 3).1.phase.Refused?
    ensures Steps(Fresh(None), CREDIT, 4).1.phase.Committed?
    ensures Steps(Steps(Fresh(None), CREDIT, 4).0, DEBIT, 4).1.phase.Committed?
  {
    SumOfTwo(AssetDown, CREDIT.delta, DEBIT.delta);
    DebitFirst();
    CreditCommits();
    DebitAfterwards(Steps(Fresh(None), CREDIT, 4).0);
  }
}
