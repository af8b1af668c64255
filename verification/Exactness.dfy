/** Exactly when an object accepts a set of deltas under every schedule. */
module Exactness {
  import opened StorageTypes
  import opened Objects
  import opened ObjectInvariant
  import opened Folds
  import opened Schedules

  /** Nobody is refused and nobody has to wait for a wrapped slot. */
  predicate AllServed(o: Obj, cs: seq<Client>) {
    forall i :: 0 <= i < |cs| ==> !IsRefusing(cs[i]) && !Waits(o, cs[i])
  }

  predicate Serves(o: Obj, cs: seq<Client>, schedule: seq<nat>) {
    AllServed(Run(o, cs, schedule).0, Run(o, cs, schedule).1)
  }

  /** No schedule refuses anybody or makes anybody wait. */
  ghost predicate AcceptsAll(o: Obj, cs: seq<Client>) {
    forall schedule :: Serves(o, cs, schedule)
  }

  // ---- a schedule that reserves everything and commits nothing ----

  /** The steps that take client `i` from its call to its handle. */
  function Calls(c: Client, i: nat): seq<nat> {
    if c.delta.DeleteLast? then [i] else if c.delta.HashSetInsert? then [i, i, i] else [i, i]
  }

  function ReserveFirst(cs: seq<Client>, n: nat): seq<nat>
    requires n <= |cs|
  {
    if n == 0 then [] else ReserveFirst(cs, n - 1) + Calls(cs[n - 1], n - 1)
  }

  lemma {:induction false} RunSplits(o: Obj, cs: seq<Client>, a: seq<nat>, b: seq<nat>)
    ensures var (o2, cs2) := Run(o, cs, a); Run(o, cs, a + b) == Run(o2, cs2, b)
    decreases |a|
  {
    if a == [] {
      assert a + b == b;
    } else {
      assert (a + b)[1..] == a[1..] + b;
      if a[0] >= |cs| {
        RunSplits(o, cs, a[1..], b);
      } else {
        var r := Next(o, cs[a[0]], Commit);
        RunSplits(r.0, cs[a[0] := r.1], a[1..], b);
      }
    }
  }

  lemma RunOne(o: Obj, cs: seq<Client>, i: nat)
    requires i < |cs|
    ensures Run(o, cs, [i]) == (Next(o, cs[i], Commit).0, cs[i := Next(o, cs[i], Commit).1])
  {
    var r := Next(o, cs[i], Commit);
    assert Run(r.0, cs[i := r.1], []) == (r.0, cs[i := r.1]);
  }

  /** `i` has its handle; the others stand where they stood. */
  predicate OnlyReserved(cs: seq<Client>, i: nat, cs2: seq<Client>) {
    && |cs2| == |cs| && i < |cs|
    && cs2[i].phase.Reserved? && cs2[i].key == cs[i].key && cs2[i].delta == cs[i].delta
    && forall j :: 0 <= j < |cs| && j != i ==> cs2[j] == cs[j]
  }

  /** What one more step of a client that is not refused leads to. */
  lemma UnrefusedStep(o: Obj, c: Client)
    requires !IsRefusing(Next(o, c, Commit).1) && !Waits(o, c)
    ensures var c2 := Next(o, c, Commit).1;
      && c2.key == c.key && c2.delta == c.delta
      && (c.phase.Trying? ==> if c.delta.DeleteLast? then c2.phase.Reserved? else c2.phase.SlotHeld?)
      && (c.phase.SlotHeld? ==> if c.delta.HashSetInsert? then c2.phase.Counted? else c2.phase.Reserved?)
      && (c.phase.Counted? && c.delta.HashSetInsert? ==> c2.phase.Reserved?)
  {
    match c.phase
    case SlotHeld =>
      var r := CountStep(o, c).1;
      assert r.key == c.key && r.delta == c.delta && (r.phase.Reserved? || r.phase.Counted? || IsRefusing(r));
    case Reserved => assert CommitStep(o, c).1.key == c.key && CommitStep(o, c).1.delta == c.delta;
    case _ =>
  }

  lemma TwoMore(o: Obj, cs: seq<Client>, i: nat)
    requires i < |cs|
    ensures var (o1, cs1) := Run(o, cs, [i]); |cs1| == |cs| && Run(o, cs, [i, i]) == Run(o1, cs1, [i])
    ensures var (o2, cs2) := Run(o, cs, [i, i]); |cs2| == |cs| && Run(o, cs, [i, i, i]) == Run(o2, cs2, [i])
  {
    RunOne(o, cs, i);
    RunSplits(o, cs, [i], [i]);
    RunSplits(o, cs, [i, i], [i]);
    assert [i] + [i] == [i, i] && [i, i] + [i] == [i, i, i];
    var (o1, cs1) := Run(o, cs, [i]);
    RunOne(o1, cs1, i);
  }

  lemma CallsReserve(o: Obj, cs: seq<Client>, i: nat)
    requires i < |cs| && cs[i].phase.Trying? && AcceptsAll(o, cs)
    ensures OnlyReserved(cs, i, Run(o, cs, Calls(cs[i], i)).1)
  {
    TwoMore(o, cs, i);
    RunOne(o, cs, i);
    assert Serves(o, cs, []) && Serves(o, cs, [i]);
    UnrefusedStep(o, cs[i]);
    if !cs[i].delta.DeleteLast? {
      var (o1, cs1) := Run(o, cs, [i]);
      RunOne(o1, cs1, i);
      assert Serves(o, cs, [i, i]);
      UnrefusedStep(o1, cs1[i]);
      if cs[i].delta.HashSetInsert? {
        var (o2, cs2) := Run(o, cs, [i, i]);
        RunOne(o2, cs2, i);
        assert Serves(o, cs, [i, i, i]);
        assert Run(o, cs, [i, i, i]).1[i] == Next(o2, cs2[i], Commit).1;
        UnrefusedStep(o2, cs2[i]);
      }
    }
  }

  lemma AcceptsAfter(o: Obj, cs: seq<Client>, a: seq<nat>)
    requires AcceptsAll(o, cs)
    ensures var (o2, cs2) := Run(o, cs, a); AcceptsAll(o2, cs2)
  {
    var (o2, cs2) := Run(o, cs, a);
    forall b
      ensures Serves(o2, cs2, b)
    {
      RunSplits(o, cs, a, b);
      assert Serves(o, cs, a + b);
    }
  }

  /** The first `n` clients have their handles and the others have not begun. */
  predicate ReservedUpTo(cs: seq<Client>, n: nat, cs2: seq<Client>) {
    && |cs2| == |cs| && n <= |cs|
    && (forall i :: 0 <= i < n ==> cs2[i].phase.Reserved? && cs2[i].key == cs[i].key && cs2[i].delta == cs[i].delta)
    && (forall i :: n <= i < |cs| ==> cs2[i] == cs[i])
  }

  lemma {:induction false} ReserveFirstReserves(o: Obj, cs: seq<Client>, n: nat)
    requires n <= |cs| && AcceptsAll(o, cs) && forall i :: 0 <= i < |cs| ==> cs[i].phase.Trying?
    ensures ReservedUpTo(cs, n, Run(o, cs, ReserveFirst(cs, n)).1)
  {
    if n > 0 {
      ReserveFirstReserves(o, cs, n - 1);
      var (o2, cs2) := Run(o, cs, ReserveFirst(cs, n - 1));
      AcceptsAfter(o, cs, ReserveFirst(cs, n - 1));
      assert cs2[n - 1] == cs[n - 1];
      CallsReserve(o2, cs2, n - 1);
      RunSplits(o, cs, ReserveFirst(cs, n - 1), Calls(cs[n - 1], n - 1));
    }
  }

  // ---- what everybody holding a handle implies ----

  /** Every client of the list belongs to the key. */
  predicate AllOf(k: Key, cs: seq<Client>) { forall i :: 0 <= i < |cs| ==> cs[i].key == k }

  lemma {:induction false} AllAt(k: Key, cs: seq<Client>)
    requires AllOf(k, cs)
    ensures |AllDeltas(k, cs)| == |cs| && forall i :: 0 <= i < |cs| ==> AllDeltas(k, cs)[i] == cs[i].delta
  {
    if cs != [] {
      AllAt(k, cs[1..]);
    }
  }

  predicate AllReserved(k: Key, cs: seq<Client>) {
    forall i :: 0 <= i < |cs| ==> cs[i].key == k && cs[i].phase.Reserved?
  }

  lemma {:induction false} ReservedTotals(k: Key, cs: seq<Client>)
    requires AllReserved(k, cs)
    ensures var ds := AllDeltas(k, cs);
      && Total(Subtractions, k, cs) == Sum(Subtracted, ds) && Total(WithinLimit, k, cs) == Sum(Inserts, ds)
      && Total(AssetCommitted, k, cs) == 0
      && Total(AssetLiveDown, k, cs) == Sum(AssetDown, ds) && Total(AssetLiveUp, k, cs) == Sum(AssetUp, ds)
  {
    if cs != [] {
      ReservedTotals(k, cs[1..]);
      assert AllDeltas(k, cs)[1..] == AllDeltas(k, cs[1..]);
    }
  }

  lemma ReservedInserts(k: Key, o: Obj, cs: seq<Client>)
    requires InvTable(k, o, cs) && AllReserved(k, cs)
    ensures DistinctInserts(AllDeltas(k, cs))
    ensures forall e :: HashSetInsert(e) in AllDeltas(k, cs) ==> e in o.table.contents && e !in HashesOf(o.base)
  {
    AllAt(k, cs);
    var ds := AllDeltas(k, cs);
    forall i, j | 0 <= i < j < |ds| && ds[i].HashSetInsert?
      ensures ds[i] != ds[j]
    {
      assert HolderAt(k, cs, i, ds[i].entry);
      assert ds[j] == ds[i] ==> HolderAt(k, cs, j, ds[i].entry);
    }
    forall e | HashSetInsert(e) in ds
      ensures e in o.table.contents && e !in HashesOf(o.base)
    {
      var i :| 0 <= i < |ds| && ds[i] == HashSetInsert(e);
      assert HolderAt(k, cs, i, e);
    }
  }

  lemma ReservedAgree(k: Key, o: Obj, cs: seq<Client>)
    requires InvSlot(k, o, cs) && AllReserved(k, cs)
    ensures forall d :: d in AllDeltas(k, cs) && !d.DeleteLast? ==> o.slot.value == Some(d.Class())
  {
    AllAt(k, cs);
    forall d | d in AllDeltas(k, cs) && !d.DeleteLast?
      ensures o.slot.value == Some(d.Class())
    {
      var i :| 0 <= i < |cs| && AllDeltas(k, cs)[i] == d;
      assert Mine(k, cs, i) && HoldsSlot(cs[i]);
    }
  }

  /** Deltas that are all reserved at once fit, and have their cells. */
  lemma ReservedFit(k: Key, o: Obj, cs: seq<Client>)
    requires Inv(k, o, cs) && AllReserved(k, cs)
    ensures Feasible(o.base, AllDeltas(k, cs)) && CellsFor(o.table, AllDeltas(k, cs))
  {
    ReservedTotals(k, cs);
    ReservedInserts(k, o, cs);
    ReservedAgree(k, o, cs);
    InsertsWithin(AllDeltas(k, cs), o.table.contents);
  }

  /** What is reserved and not committed counts towards the slot. */
  lemma {:induction false} ReservedHold(k: Key, cs: seq<Client>)
    requires AllReserved(k, cs) && forall i :: 0 <= i < |cs| && !cs[i].delta.DeleteLast? ==> cs[i].live
    ensures Total(Holders, k, cs) == Sum(Slots, AllDeltas(k, cs)) && Total(Finalizers, k, cs) == 0
  {
    if cs != [] {
      ReservedHold(k, cs[1..]);
      assert AllDeltas(k, cs)[1..] == AllDeltas(k, cs[1..]);
    }
  }

  lemma ReservedWithinCount(k: Key, o: Obj, cs: seq<Client>)
    requires Inv(k, o, cs) && AllReserved(k, cs)
    ensures Sum(Slots, AllDeltas(k, cs)) <= MAX_INFLIGHT
  {
    assert !o.slot.finalized by {
      TotalZero(Finalizers, k, cs);
    }
    forall i | 0 <= i < |cs| && !cs[i].delta.DeleteLast?
      ensures cs[i].live
    {
      assert Mine(k, cs, i) && HoldsSlot(cs[i]);
    }
    ReservedHold(k, cs);
  }

  // ---- who waits ----

  lemma {:induction false} HoldersWithinSlots(k: Key, cs: seq<Client>)
    ensures Total(Holders, k, cs) <= Sum(Slots, AllDeltas(k, cs))
  {
    if cs != [] {
      HoldersWithinSlots(k, cs[1..]);
      if cs[0].key == k {
        assert AllDeltas(k, cs)[1..] == AllDeltas(k, cs[1..]);
      } else {
        assert AllDeltas(k, cs) == AllDeltas(k, cs[1..]);
      }
    }
  }

  /** With room for everybody in the count, nobody who is on its way waits. */
  lemma NobodyWaits(k: Key, o: Obj, cs: seq<Client>, i: nat)
    requires Inv(k, o, cs) && Mine(k, cs, i) && cs[i].phase.Trying? && Sum(Slots, AllDeltas(k, cs)) <= MAX_INFLIGHT
    ensures !Waits(o, cs[i])
  {
    var c := cs[i].(phase := SlotHeld, live := true);
    TotalUpdate(Holders, k, cs, i, c);
    AllUpdate(k, cs, i, c);
    HoldersWithinSlots(k, cs[i := c]);
  }

  // ---- the theorem ----

  lemma {:induction false} RunKeeps(k: Key, o: Obj, cs: seq<Client>, schedule: seq<nat>)
    requires Inv(k, o, cs) && AllOf(k, cs)
    requires forall i :: 0 <= i < |cs| ==> !cs[i].phase.RevertMid? && !cs[i].phase.RevertSlot? && !cs[i].phase.Reverted?
    ensures var (o2, cs2) := Run(o, cs, schedule);
      && Inv(k, o2, cs2) && o2.base == o.base && AllDeltas(k, cs2) == AllDeltas(k, cs)
      && o2.table.tombstones == o.table.tombstones && o2.table.capacity == o.table.capacity
    decreases |schedule|
  {
    if schedule != [] {
      var i := schedule[0];
      if i >= |cs| {
        RunKeeps(k, o, cs, schedule[1..]);
      } else {
        var r := Next(o, cs[i], Commit);
        assert Mine(k, cs, i);
        StepKeepsInv(k, o, cs, i, Commit);
        CommitKeepsTombstones(o, cs[i]);
        CommitNeverReverts(o, cs[i]);
        StepKeepsClient(o, cs[i]);
        AllUpdate(k, cs, i, r.1);
        RunKeeps(k, r.0, cs[i := r.1], schedule[1..]);
      }
    }
  }

  lemma StepKeepsClient(o: Obj, c: Client)
    ensures var r := Next(o, c, Commit); r.1.key == c.key && r.1.delta == c.delta && r.0.base == o.base
  {
    match c.phase
    case SlotHeld => assert CountStep(o, c).1.key == c.key && CountStep(o, c).0.base == o.base;
    case Reserved => assert CommitStep(o, c).1.key == c.key && CommitStep(o, c).0.base == o.base;
    case _ =>
  }

  /** The deltas fit together, have their cells, and fit the slot's count. */
  ghost predicate Acceptable(o: Obj, ds: seq<Delta>) {
    Feasible(o.base, ds) && CellsFor(o.table, ds) && Sum(Slots, ds) <= MAX_INFLIGHT
  }

  lemma AcceptableServes(k: Key, o: Obj, cs: seq<Client>, schedule: seq<nat>)
    requires Inv(k, o, cs) && Willing(k, cs) && Acceptable(o, AllDeltas(k, cs))
    ensures Serves(o, cs, schedule)
  {
    EveryScheduleAccepts(k, o, cs, schedule);
    var (o2, cs2) := Run(o, cs, schedule);
    forall i | 0 <= i < |cs2|
      ensures !IsRefusing(cs2[i]) && !Waits(o2, cs2[i])
    {
      assert Mine(k, cs2, i);
      if cs2[i].phase.Trying? {
        NobodyWaits(k, o2, cs2, i);
      }
    }
  }

  /** An untouched object accepts a set of deltas under every schedule, nobody
      refused and nobody kept waiting, if and only if they fit it together,
      debits and credits of assets each taken alone, its table has a cell for
      every insert, and at most 256 of them reserve the slot. */
  lemma AcceptsAllExactly(k: Key, o: Obj, cs: seq<Client>)
    requires Starting(k, o, cs)
    ensures AcceptsAll(o, cs) <==> Acceptable(o, AllDeltas(k, cs))
  {
    StartingInv(k, o, cs);
    if AcceptsAll(o, cs) {
      var schedule := ReserveFirst(cs, |cs|);
      ReserveFirstReserves(o, cs, |cs|);
      RunKeeps(k, o, cs, schedule);
      var (o2, cs2) := Run(o, cs, schedule);
      ReservedFit(k, o2, cs2);
      ReservedWithinCount(k, o2, cs2);
    }
    if Acceptable(o, AllDeltas(k, cs)) {
      forall schedule
        ensures Serves(o, cs, schedule)
      {
        AcceptableServes(k, o, cs, schedule);
      }
    }
  }
}
