/** What every interleaving of client steps keeps true of an object. */
module ObjectInvariant {
  import opened StorageTypes
  import opened HashSets
  import opened Objects

  /** The quantities of one key that are sums over the clients. */
  datatype Measure =
    | Holders         // slot reservations that can still be given back or were committed
    | Finalizers      // committed slot reservations
    | Subtractions | Additions
    | NewElements | WithinLimit | LimitIncrease
    | Clears | Deletes
    | AssetCommitted | AssetLiveDown | AssetLiveUp

  /** The delta's effect on the accounting is present. */
  predicate IsCounted(c: Client) {
    c.phase.Reserved? || c.phase.CommitMid? || c.phase.CommitSlot? || c.phase.Committed?
  }

  predicate HoldsSlot(c: Client) {
    !c.delta.DeleteLast? && (!c.phase.Trying? && !c.phase.Refused? && !c.phase.Reverted?)
  }

  /** The client counts towards the slot of the key. */
  predicate HoldsLive(c: Client, k: Key) { c.key == k && HoldsSlot(c) && c.live }

  predicate InTable(c: Client) {
    c.delta.HashSetInsert? && (c.phase.Reserved? || c.phase.CommitMid? || c.phase.CommitSlot? || c.phase.Committed? || c.phase.RevertMid?)
  }

  function One(b: bool): int { if b then 1 else 0 }

  function Val(m: Measure, k: Key, c: Client): int {
    if c.key != k then 0
    else
      match m
      case Holders => One(HoldsSlot(c) && c.live)
      case Finalizers => One(HoldsSlot(c) && c.live && c.phase.Committed?)
      case Subtractions => if c.delta.Int64SetAdd? && IsCounted(c) then Min(c.delta.amount, 0) else 0
      case Additions => if c.delta.Int64SetAdd? && IsCounted(c) then Max(c.delta.amount, 0) else 0
      case NewElements =>
        One(c.delta.HashSetInsert? && (IsCounted(c) || (c.phase.Counted? || c.phase.Overflowed?)))
      case WithinLimit =>
        One(c.delta.HashSetInsert? && (IsCounted(c) || c.phase.Counted?))
      case LimitIncrease => if c.delta.HashSetIncreaseLimit? && IsCounted(c) then c.delta.increase else 0
      case Clears => One(ClearDone(c))
      case Deletes => One(DeleteDone(c))
      case AssetCommitted =>
        if c.delta.AssetAdd? && (c.phase.CommitMid? || c.phase.CommitSlot? || c.phase.Committed?) then c.delta.assetAmount else 0
      case AssetLiveDown =>
        if c.delta.AssetAdd? && c.phase.Reserved? then Min(c.delta.assetAmount, 0) else 0
      case AssetLiveUp =>
        if c.delta.AssetAdd? && c.phase.Reserved? then Max(c.delta.assetAmount, 0) else 0
  }

  function Total(m: Measure, k: Key, cs: seq<Client>): int {
    if cs == [] then 0 else Val(m, k, cs[0]) + Total(m, k, cs[1..])
  }

  lemma {:induction false} TotalUpdate(m: Measure, k: Key, cs: seq<Client>, i: nat, c: Client)
    requires i < |cs|
    ensures Total(m, k, cs[i := c]) == Total(m, k, cs) - Val(m, k, cs[i]) + Val(m, k, c)
  {
    if i == 0 {
      assert cs[0 := c] == [c] + cs[1..];
    } else {
      TotalUpdate(m, k, cs[1..], i - 1, c);
      assert cs[i := c] == [cs[0]] + cs[1..][i - 1 := c];
    }
  }

  lemma {:induction false} TotalAppend(m: Measure, k: Key, cs: seq<Client>, c: Client)
    ensures Total(m, k, cs + [c]) == Total(m, k, cs) + Val(m, k, c)
  {
    if cs == [] {
      assert cs + [c] == [c];
    } else {
      TotalAppend(m, k, cs[1..], c);
      assert cs + [c] == [cs[0]] + (cs[1..] + [c]);
    }
  }

  lemma {:induction false} TotalZero(m: Measure, k: Key, cs: seq<Client>)
    requires forall i :: 0 <= i < |cs| ==> Val(m, k, cs[i]) == 0
    ensures Total(m, k, cs) == 0
  {
    if cs != [] {
      TotalZero(m, k, cs[1..]);
    }
  }

  predicate IsCount(m: Measure) {
    (m.Holders? || m.Finalizers? || m.NewElements? || m.WithinLimit? || m.LimitIncrease? || m.Clears? || m.Deletes? || m.Additions? || m.AssetLiveUp?)
  }

  /** A sum of nonnegative terms is at least each of its terms. */
  lemma {:induction false} TotalAtLeast(m: Measure, k: Key, cs: seq<Client>)
    requires IsCount(m)
    ensures Total(m, k, cs) >= 0
    ensures forall i :: 0 <= i < |cs| ==> Val(m, k, cs[i]) <= Total(m, k, cs)
  {
    if cs != [] {
      TotalAtLeast(m, k, cs[1..]);
      forall i | 0 <= i < |cs|
        ensures Val(m, k, cs[i]) <= Total(m, k, cs)
      {
        if i > 0 {
          assert cs[i] == cs[1..][i - 1];
        }
      }
    }
  }

  predicate Mine(k: Key, cs: seq<Client>, i: int) { 0 <= i < |cs| && cs[i].key == k }

  ghost predicate InvSlot(k: Key, o: Obj, cs: seq<Client>) {
    && (!o.slot.finalized ==> o.slot.inflight == Total(Holders, k, cs) <= MAX_INFLIGHT)
    && (o.slot.finalized <==> Total(Finalizers, k, cs) > 0)
    && (o.slot.value.Some? <==> o.slot.finalized || o.slot.inflight > 0)
    && (forall i :: Mine(k, cs, i) && HoldsSlot(cs[i]) ==>
          && o.slot.value == Some(cs[i].delta.Class())
          && (!cs[i].live || cs[i].phase.Committed? ==> o.slot.finalized))
    && o.requiredType == TypeOf(o.base)
    && (o.slot.value.Some? && o.base.Some? ==> o.slot.value.value.Type() == o.base.value.Type())
  }

  /** No subtraction takes the value below zero, whatever else happens to it. */
  ghost predicate InvInt(k: Key, o: Obj, cs: seq<Client>) {
    && o.subtracted == Total(Subtractions, k, cs) <= 0
    && o.added == Total(Additions, k, cs)
    && (o.subtracted < 0 ==>
          && o.slot.value.Some? && o.slot.value.value.Int64Class?
          && o.slot.value.value.setValue + o.subtracted >= 0)
  }

  ghost predicate InvCount(k: Key, o: Obj, cs: seq<Client>) {
    && o.newElements == Total(NewElements, k, cs)
    && o.sizeIncrease == Total(LimitIncrease, k, cs)
    && (Total(WithinLimit, k, cs) > 0 ==> |HashesOf(o.base)| + Total(WithinLimit, k, cs) <= MaxSizeOf(o.base))
  }

  /** Client `i` of key `k` is the one whose entry `e` sits in the table. */
  predicate HolderAt(k: Key, cs: seq<Client>, i: int, e: Entry) {
    Mine(k, cs, i) && InTable(cs[i]) && cs[i].delta.entry == e
  }

  ghost predicate InvTable(k: Key, o: Obj, cs: seq<Client>) {
    && (forall i, e :: HolderAt(k, cs, i, e) ==> e in o.table.contents && e !in HashesOf(o.base))
    && (forall e :: e in o.table.contents ==> exists i :: HolderAt(k, cs, i, e))
    && (forall i, j, e :: HolderAt(k, cs, i, e) && HolderAt(k, cs, j, e) ==> i == j)
    && |o.table.contents| + o.table.tombstones <= o.table.capacity
  }

  predicate DeleteDone(c: Client) {
    c.delta.DeleteLast? && (c.phase.CommitSlot? || c.phase.Committed?)
  }

  predicate ClearDone(c: Client) {
    c.delta.HashSetClear? && (c.phase.CommitMid? || c.phase.CommitSlot? || c.phase.Committed?)
  }

  predicate PublishedClear(c: Client) {
    c.delta.HashSetClear? && (c.phase.CommitSlot? || c.phase.Committed?)
  }

  ghost predicate InvFlags(k: Key, o: Obj, cs: seq<Client>) {
    && (o.deleteCommitted <==> Total(Deletes, k, cs) > 0)
    && (o.clearCommitted <==> Total(Clears, k, cs) > 0)
    && (forall i :: Mine(k, cs, i) && PublishedClear(cs[i]) ==> cs[i].delta.threshold <= o.maxClear)
    && (o.maxClear == 0 || exists i :: Mine(k, cs, i) && PublishedClear(cs[i]) && cs[i].delta.threshold == o.maxClear)
  }

  /** `available` has all pending subtractions applied and `upperBound` all
      pending additions, so any subset of them can still commit. */
  ghost predicate InvAsset(k: Key, o: Obj, cs: seq<Client>) {
    && o.available == AmountOf(o.base) + Total(AssetCommitted, k, cs) + Total(AssetLiveDown, k, cs)
    && o.upperBound == AmountOf(o.base) + Total(AssetCommitted, k, cs) + Total(AssetLiveUp, k, cs)
    && 0 <= o.available <= o.upperBound <= UINT64_MAX
  }

  /** An insert past the membership check is not in the stored set. */
  ghost predicate InvNovel(k: Key, o: Obj, cs: seq<Client>) {
    forall i :: Mine(k, cs, i) && cs[i].delta.HashSetInsert? && cs[i].phase.Counted? ==>
      cs[i].delta.entry !in HashesOf(o.base)
  }

  predicate ValidPhase(c: Client) {
    && ((c.phase.Counted? || c.phase.Overflowed? || c.phase.RevertMid?) ==> c.delta.HashSetInsert?)
    && (c.phase.CommitMid? ==> c.delta.HashSetClear?)
    && (c.delta.DeleteLast? ==> !c.live && (!c.phase.SlotHeld? && !c.phase.Releasing?))
  }

  ghost predicate Inv(k: Key, o: Obj, cs: seq<Client>) {
    && (forall i :: Mine(k, cs, i) ==> ValidPhase(cs[i]))
    && InvSlot(k, o, cs) && InvInt(k, o, cs) && InvCount(k, o, cs) && InvTable(k, o, cs)
    && InvNovel(k, o, cs) && InvFlags(k, o, cs) && InvAsset(k, o, cs)
  }

  /** Only the one client moved; its key and its delta are what they were. */
  predicate Replaces(k: Key, cs: seq<Client>, i: int, c: Client) {
    Mine(k, cs, i) && c.key == k && c.delta == cs[i].delta
  }

  // ---- the slot ----

  lemma SlotFrame(k: Key, o: Obj, cs: seq<Client>, i: nat, o2: Obj, c: Client)
    requires Replaces(k, cs, i, c) && InvSlot(k, o, cs)
    requires o2.slot == o.slot && o2.requiredType == o.requiredType && o2.base == o.base
    requires c.live == cs[i].live && HoldsSlot(c) == HoldsSlot(cs[i])
    requires c.phase.Committed? <==> cs[i].phase.Committed?
    ensures InvSlot(k, o2, cs[i := c])
  {
    TotalUpdate(Holders, k, cs, i, c);
    TotalUpdate(Finalizers, k, cs, i, c);
  }

  lemma SlotSet(k: Key, o: Obj, cs: seq<Client>, i: nat, o2: Obj, c: Client)
    requires Replaces(k, cs, i, c) && InvSlot(k, o, cs)
    requires cs[i].phase.Trying? && !c.delta.DeleteLast? && c.phase.SlotHeld?
    requires !Wrapped(o.slot) && TrySet(o.slot, o.requiredType, c.delta.Class()) == Some((o2.slot, c.live))
    requires o2.requiredType == o.requiredType && o2.base == o.base
    ensures InvSlot(k, o2, cs[i := c])
  {
    TotalUpdate(Holders, k, cs, i, c);
    TotalUpdate(Finalizers, k, cs, i, c);
    TotalAtLeast(Holders, k, cs);
  }

  lemma SlotCommitted(k: Key, o: Obj, cs: seq<Client>, i: nat, o2: Obj, c: Client)
    requires Replaces(k, cs, i, c) && InvSlot(k, o, cs)
    requires cs[i].phase.CommitSlot? && c == cs[i].(phase := Committed)
    requires !c.delta.DeleteLast? || !c.live
    requires o2.slot == CommitSlotOf(o.slot, c.live)
    requires o2.requiredType == o.requiredType && o2.base == o.base
    ensures InvSlot(k, o2, cs[i := c])
  {
    TotalUpdate(Holders, k, cs, i, c);
    TotalUpdate(Finalizers, k, cs, i, c);
    TotalAtLeast(Finalizers, k, cs);
    TotalAtLeast(Holders, k, cs);
  }

  lemma SlotReverted(k: Key, o: Obj, cs: seq<Client>, i: nat, o2: Obj, c: Client)
    requires Replaces(k, cs, i, c) && InvSlot(k, o, cs)
    requires (cs[i].phase.Releasing? && c == cs[i].(phase := Refused))
          || (cs[i].phase.RevertSlot? && c == cs[i].(phase := Reverted))
    requires !c.delta.DeleteLast? || !c.live
    requires o2.slot == RevertSlotOf(o.slot, c.live)
    requires o2.requiredType == o.requiredType && o2.base == o.base
    ensures InvSlot(k, o2, cs[i := c])
  {
    TotalUpdate(Holders, k, cs, i, c);
    TotalUpdate(Finalizers, k, cs, i, c);
    TotalAtLeast(Holders, k, cs[i := c]);
    var ds := cs[i := c];
    forall j | Mine(k, ds, j)
      ensures Val(Holders, k, ds[j]) <= Total(Holders, k, ds)
    {
    }
  }

  /** The five ways in which a step can touch the slot. */
  predicate SlotShape(o: Obj, c: Client, o2: Obj, c2: Client) {
    && o2.requiredType == o.requiredType && o2.base == o.base
    && c2.key == c.key && c2.delta == c.delta && c2.owner == c.owner
    && (|| (&& c.phase.Trying? && !c.delta.DeleteLast? && c2.phase.SlotHeld?
            && !Wrapped(o.slot) && TrySet(o.slot, o.requiredType, c.delta.Class()) == Some((o2.slot, c2.live)))
        || (&& c.phase.CommitSlot? && c2 == c.(phase := Committed)
            && o2.slot == CommitSlotOf(o.slot, c.live))
        || (&& c.phase.Releasing? && c2 == c.(phase := Refused)
            && o2.slot == RevertSlotOf(o.slot, c.live))
        || (&& c.phase.RevertSlot? && c2 == c.(phase := Reverted)
            && o2.slot == RevertSlotOf(o.slot, c.live))
        || (&& o2.slot == o.slot && c2.live == c.live && HoldsSlot(c2) == HoldsSlot(c)
            && (c2.phase.Committed? <==> c.phase.Committed?)))
  }

  lemma StepKeepsSlot(k: Key, o: Obj, cs: seq<Client>, i: nat, o2: Obj, c2: Client)
    requires Mine(k, cs, i) && ValidPhase(cs[i]) && ValidPhase(c2) && InvSlot(k, o, cs)
    requires SlotShape(o, cs[i], o2, c2)
    ensures InvSlot(k, o2, cs[i := c2])
  {
    if cs[i].phase.Trying? && c2.phase.SlotHeld? {
      SlotSet(k, o, cs, i, o2, c2);
    } else if cs[i].phase.CommitSlot? && c2.phase.Committed? {
      SlotCommitted(k, o, cs, i, o2, c2);
    } else if (cs[i].phase.Releasing? && c2.phase.Refused?) || (cs[i].phase.RevertSlot? && c2.phase.Reverted?) {
      SlotReverted(k, o, cs, i, o2, c2);
    } else {
      SlotFrame(k, o, cs, i, o2, c2);
    }
  }

  // ---- the integer totals ----

  predicate IntShape(o: Obj, c: Client, o2: Obj, c2: Client) {
    || (o2.subtracted == o.subtracted && o2.added == o.added && (c.delta.Int64SetAdd? ==> IsCounted(c2) == IsCounted(c)))
    || (&& c.delta.Int64SetAdd? && c.phase.SlotHeld? && IsCounted(c2) && o2.slot == o.slot
        && o2.subtracted == o.subtracted + Min(c.delta.amount, 0)
        && o2.added == o.added + Max(c.delta.amount, 0)
        && (c.delta.amount < 0 ==> c.delta.setValue + o2.subtracted >= 0))
    || (&& c.delta.Int64SetAdd? && c.phase.Reserved? && !IsCounted(c2) && o2.slot == o.slot
        && o2.subtracted == o.subtracted - Min(c.delta.amount, 0)
        && o2.added == o.added - Max(c.delta.amount, 0))
  }

  /** Without a slot holder there is no integer accounting. */
  lemma EmptySlotNoInts(k: Key, o: Obj, cs: seq<Client>)
    requires InvSlot(k, o, cs) && o.slot.value.None?
    ensures Total(Subtractions, k, cs) == 0 && Total(Additions, k, cs) == 0
  {
    TotalZero(Subtractions, k, cs);
    TotalZero(Additions, k, cs);
  }

  lemma StepKeepsInt(k: Key, o: Obj, cs: seq<Client>, i: nat, o2: Obj, c2: Client)
    requires Mine(k, cs, i) && InvSlot(k, o, cs) && InvInt(k, o, cs)
    requires SlotShape(o, cs[i], o2, c2) && IntShape(o, cs[i], o2, c2)
    requires InvSlot(k, o2, cs[i := c2])
    ensures InvInt(k, o2, cs[i := c2])
  {
    TotalUpdate(Subtractions, k, cs, i, c2);
    TotalUpdate(Additions, k, cs, i, c2);
    if o2.slot.value.None? {
      EmptySlotNoInts(k, o2, cs[i := c2]);
    } else if o.slot.value.None? {
      EmptySlotNoInts(k, o, cs);
    }
    SubtractionsNonPositive(k, cs[i := c2]);
  }

  lemma {:induction false} SubtractionsNonPositive(k: Key, cs: seq<Client>)
    ensures Total(Subtractions, k, cs) <= 0
  {
    if cs != [] {
      SubtractionsNonPositive(k, cs[1..]);
    }
  }

  // ---- the hash-set accounting ----

  predicate HashShape(o: Obj, c: Client, o2: Obj, c2: Client) {
    var same := c.delta.HashSetInsert? ==>
      InTable(c2) == InTable(c) && IsCounted(c2) == IsCounted(c)
      && c2.phase.Counted? == c.phase.Counted? && c2.phase.Overflowed? == c.phase.Overflowed?;
    || (&& o2.table == o.table && o2.newElements == o.newElements && o2.sizeIncrease == o.sizeIncrease && same
        && (c.delta.HashSetIncreaseLimit? ==> IsCounted(c2) == IsCounted(c)))
    || (&& c.delta.HashSetIncreaseLimit? && o2.table == o.table && o2.newElements == o.newElements
        && IsCounted(c2) != IsCounted(c)
        && (IsCounted(c2) ==> o2.sizeIncrease == o.sizeIncrease + c.delta.increase)
        && (IsCounted(c) ==> o2.sizeIncrease == o.sizeIncrease - c.delta.increase))
    || (&& c.delta.HashSetInsert? && c.phase.SlotHeld? && o2.table == o.table && o2.sizeIncrease == o.sizeIncrease
        && c.delta.entry !in HashesOf(o.base) && o2.newElements == o.newElements + 1
        && (c2.phase.Overflowed? ||
            (c2.phase.Counted? && |HashesOf(o.base)| + o2.newElements <= MaxSizeOf(o.base))))
    || (&& c.delta.HashSetInsert? && c.phase.Counted? && o2.sizeIncrease == o.sizeIncrease
        && o2.newElements == o.newElements
        && ((c2.phase.Overflowed? && o2.table == o.table) ||
            (c2.phase.Reserved? && !TableRefuses(o.table, c.delta.entry)
             && o2.table == TableInsert(o.table, c.delta.entry))))
    || (&& c.delta.HashSetInsert? && o2.table == o.table && o2.sizeIncrease == o.sizeIncrease
        && o2.newElements == o.newElements - 1
        && ((c.phase.Overflowed? && c2.phase.Releasing?) || (c.phase.Reserved? && c2.phase.RevertMid?)))
    || (&& c.delta.HashSetInsert? && c.phase.RevertMid? && c2.phase.RevertSlot? && o2.sizeIncrease == o.sizeIncrease
        && o2.newElements == o.newElements && o2.table == TableErase(o.table, c.delta.entry))
  }

  lemma {:induction false} WithinLimitBelow(k: Key, cs: seq<Client>)
    ensures Total(WithinLimit, k, cs) <= Total(NewElements, k, cs)
  {
    if cs != [] {
      WithinLimitBelow(k, cs[1..]);
    }
  }

  lemma StepKeepsCount(k: Key, o: Obj, cs: seq<Client>, i: nat, o2: Obj, c2: Client)
    requires Mine(k, cs, i) && InvCount(k, o, cs) && ValidPhase(cs[i]) && ValidPhase(c2)
    requires SlotShape(o, cs[i], o2, c2) && HashShape(o, cs[i], o2, c2)
    ensures InvCount(k, o2, cs[i := c2])
  {
    TotalUpdate(NewElements, k, cs, i, c2);
    TotalUpdate(WithinLimit, k, cs, i, c2);
    TotalUpdate(LimitIncrease, k, cs, i, c2);
    WithinLimitBelow(k, cs);
  }

  lemma TableFrame(k: Key, o: Obj, cs: seq<Client>, i: nat, o2: Obj, c: Client)
    requires Replaces(k, cs, i, c) && InvTable(k, o, cs)
    requires o2.table == o.table && o2.base == o.base && InTable(c) == InTable(cs[i])
    ensures InvTable(k, o2, cs[i := c])
  {
    var ds := cs[i := c];
    assert forall j, e :: HolderAt(k, ds, j, e) <==> HolderAt(k, cs, j, e);
  }

  lemma TableAdd(k: Key, o: Obj, cs: seq<Client>, i: nat, o2: Obj, c: Client)
    requires Replaces(k, cs, i, c) && InvTable(k, o, cs)
    requires !InTable(cs[i]) && InTable(c)
    requires c.delta.entry !in HashesOf(o.base) && !TableRefuses(o.table, c.delta.entry)
    requires o2.table == TableInsert(o.table, c.delta.entry) && o2.base == o.base
    ensures InvTable(k, o2, cs[i := c])
  {
    var ds := cs[i := c];
    assert forall j, e :: HolderAt(k, ds, j, e) <==>
      HolderAt(k, cs, j, e) || (j == i && e == c.delta.entry);
    assert HolderAt(k, ds, i, c.delta.entry);
  }

  lemma TableRemove(k: Key, o: Obj, cs: seq<Client>, i: nat, o2: Obj, c: Client)
    requires Replaces(k, cs, i, c) && InvTable(k, o, cs)
    requires InTable(cs[i]) && !InTable(c)
    requires o2.table == TableErase(o.table, c.delta.entry) && o2.base == o.base
    ensures InvTable(k, o2, cs[i := c])
  {
    var ds := cs[i := c];
    assert HolderAt(k, cs, i, c.delta.entry);
    assert forall j, e :: HolderAt(k, ds, j, e) <==> HolderAt(k, cs, j, e) && j != i;
    assert o.table.contents == o2.table.contents + {c.delta.entry};
  }

  lemma StepKeepsTable(k: Key, o: Obj, cs: seq<Client>, i: nat, o2: Obj, c2: Client)
    requires Mine(k, cs, i) && InvTable(k, o, cs) && InvNovel(k, o, cs)
    requires ValidPhase(cs[i]) && ValidPhase(c2)
    requires SlotShape(o, cs[i], o2, c2) && HashShape(o, cs[i], o2, c2)
    ensures InvTable(k, o2, cs[i := c2]) && InvNovel(k, o2, cs[i := c2])
  {
    if !cs[i].delta.HashSetInsert? || InTable(cs[i]) == InTable(c2) {
      TableFrame(k, o, cs, i, o2, c2);
    } else if InTable(c2) {
      TableAdd(k, o, cs, i, o2, c2);
    } else {
      TableRemove(k, o, cs, i, o2, c2);
    }
  }

  // ---- the committed flags ----

  predicate FlagShape(o: Obj, c: Client, o2: Obj, c2: Client) {
    && (DeleteDone(c) ==> DeleteDone(c2)) && (ClearDone(c) ==> ClearDone(c2))
    && o2.deleteCommitted == (o.deleteCommitted || (DeleteDone(c2) && !DeleteDone(c)))
    && o2.clearCommitted == (o.clearCommitted || (ClearDone(c2) && !ClearDone(c)))
    && (|| (o2.maxClear == o.maxClear && PublishedClear(c2) == PublishedClear(c))
        || (!PublishedClear(c) && PublishedClear(c2) && o2.maxClear == Max(o.maxClear, c2.delta.threshold)))
  }

  lemma StepKeepsFlags(k: Key, o: Obj, cs: seq<Client>, i: nat, o2: Obj, c2: Client)
    requires Mine(k, cs, i) && InvFlags(k, o, cs)
    requires SlotShape(o, cs[i], o2, c2) && FlagShape(o, cs[i], o2, c2)
    ensures InvFlags(k, o2, cs[i := c2])
  {
    var ds := cs[i := c2];
    TotalUpdate(Deletes, k, cs, i, c2);
    TotalUpdate(Clears, k, cs, i, c2);
    TotalAtLeast(Deletes, k, cs);
    TotalAtLeast(Clears, k, cs);
    if o2.maxClear == o.maxClear {
      if o.maxClear != 0 {
        var j :| Mine(k, cs, j) && PublishedClear(cs[j]) && cs[j].delta.threshold == o.maxClear;
        assert Mine(k, ds, j) && PublishedClear(ds[j]) && ds[j].delta.threshold == o2.maxClear;
      }
    } else {
      assert Mine(k, ds, i) && PublishedClear(ds[i]) && ds[i].delta.threshold == o2.maxClear;
    }
  }

  // ---- the asset bounds ----

  predicate AssetShape(o: Obj, c: Client, o2: Obj, c2: Client) {
    || (&& o2.available == o.available && o2.upperBound == o.upperBound
        && (c.delta.AssetAdd? ==> c2.phase.Reserved? == c.phase.Reserved? && IsCounted(c2) == IsCounted(c)))
    || (&& c.delta.AssetAdd? && c.phase.SlotHeld? && c2.phase.Reserved?
        && o2.available == o.available + Min(c.delta.assetAmount, 0) >= 0
        && o2.upperBound == o.upperBound + Max(c.delta.assetAmount, 0) <= UINT64_MAX)
    || (&& c.delta.AssetAdd? && c.phase.Reserved? && c2.phase.CommitSlot?
        && o2.available == o.available + Max(c.delta.assetAmount, 0)
        && o2.upperBound == o.upperBound + Min(c.delta.assetAmount, 0))
    || (&& c.delta.AssetAdd? && c.phase.Reserved? && c2.phase.RevertSlot?
        && o2.available == o.available - Min(c.delta.assetAmount, 0)
        && o2.upperBound == o.upperBound - Max(c.delta.assetAmount, 0))
  }

  lemma {:induction false} AssetLiveDownNonPositive(k: Key, cs: seq<Client>)
    ensures Total(AssetLiveDown, k, cs) <= 0
  {
    if cs != [] {
      AssetLiveDownNonPositive(k, cs[1..]);
    }
  }

  lemma StepKeepsAsset(k: Key, o: Obj, cs: seq<Client>, i: nat, o2: Obj, c2: Client)
    requires Mine(k, cs, i) && InvAsset(k, o, cs) && ValidPhase(cs[i]) && ValidPhase(c2)
    requires SlotShape(o, cs[i], o2, c2) && AssetShape(o, cs[i], o2, c2)
    ensures InvAsset(k, o2, cs[i := c2])
  {
    TotalUpdate(AssetCommitted, k, cs, i, c2);
    TotalUpdate(AssetLiveDown, k, cs, i, c2);
    TotalUpdate(AssetLiveUp, k, cs, i, c2);
    AssetLiveDownNonPositive(k, cs[i := c2]);
    TotalAtLeast(AssetLiveUp, k, cs[i := c2]);
  }

  // ---- whole steps ----

  /** All that the invariant needs to know about one step. */
  predicate Shapes(o: Obj, c: Client, o2: Obj, c2: Client) {
    && ValidPhase(c2) && SlotShape(o, c, o2, c2) && IntShape(o, c, o2, c2) && HashShape(o, c, o2, c2)
    && FlagShape(o, c, o2, c2) && AssetShape(o, c, o2, c2)
  }

  lemma TryShapes(o: Obj, c: Client)
    requires ValidPhase(c) && c.phase.Trying? && !Waits(o, c)
    ensures Shapes(o, c, TryStep(o, c).0, TryStep(o, c).1)
  {
  }

  lemma CountIntShapes(o: Obj, c: Client)
    requires ValidPhase(c) && c.phase.SlotHeld? && c.delta.Int64SetAdd?
    ensures Shapes(o, c, CountStep(o, c).0, CountStep(o, c).1)
  {
  }

  lemma CountInsertShapes(o: Obj, c: Client)
    requires ValidPhase(c) && c.phase.SlotHeld? && c.delta.HashSetInsert?
    ensures Shapes(o, c, CountStep(o, c).0, CountStep(o, c).1)
  {
  }

  lemma CountAssetShapes(o: Obj, c: Client)
    requires ValidPhase(c) && c.phase.SlotHeld? && c.delta.AssetAdd? && 0 <= o.available && o.upperBound <= UINT64_MAX
    ensures Shapes(o, c, CountStep(o, c).0, CountStep(o, c).1)
  {
  }

  lemma CountOtherShapes(o: Obj, c: Client)
    requires ValidPhase(c) && c.phase.SlotHeld? && !c.delta.Int64SetAdd? && !c.delta.HashSetInsert? && !c.delta.AssetAdd?
    ensures Shapes(o, c, CountStep(o, c).0, CountStep(o, c).1)
  {
  }

  lemma CountShapes(o: Obj, c: Client)
    requires ValidPhase(c) && c.phase.SlotHeld? && 0 <= o.available && o.upperBound <= UINT64_MAX
    ensures Shapes(o, c, CountStep(o, c).0, CountStep(o, c).1)
  {
    match c.delta
    case Int64SetAdd(_, _) => CountIntShapes(o, c);
    case HashSetInsert(_) => CountInsertShapes(o, c);
    case AssetAdd(_) => CountAssetShapes(o, c);
    case _ => CountOtherShapes(o, c);
  }

  lemma CommitAssetShapes(o: Obj, c: Client)
    requires ValidPhase(c) && c.phase.Reserved? && c.delta.AssetAdd?
    ensures Shapes(o, c, CommitStep(o, c).0, CommitStep(o, c).1)
  {
  }

  lemma CommitFlagShapes(o: Obj, c: Client)
    requires ValidPhase(c) && c.phase.Reserved? && (c.delta.DeleteLast? || c.delta.HashSetClear?)
    ensures Shapes(o, c, CommitStep(o, c).0, CommitStep(o, c).1)
  {
  }

  lemma CommitOtherShapes(o: Obj, c: Client)
    requires ValidPhase(c) && c.phase.Reserved?
    requires !c.delta.AssetAdd? && !c.delta.DeleteLast? && !c.delta.HashSetClear?
    ensures Shapes(o, c, CommitStep(o, c).0, CommitStep(o, c).1)
  {
  }

  lemma CommitShapes(o: Obj, c: Client)
    requires ValidPhase(c) && c.phase.Reserved?
    ensures Shapes(o, c, CommitStep(o, c).0, CommitStep(o, c).1)
  {
    if c.delta.AssetAdd? {
      CommitAssetShapes(o, c);
    } else if c.delta.DeleteLast? || c.delta.HashSetClear? {
      CommitFlagShapes(o, c);
    } else {
      CommitOtherShapes(o, c);
    }
  }

  lemma RevertIntShapes(o: Obj, c: Client)
    requires ValidPhase(c) && c.phase.Reserved? && c.delta.Int64SetAdd?
    ensures Shapes(o, c, RevertStep(o, c).0, RevertStep(o, c).1)
  {
  }

  lemma RevertAssetShapes(o: Obj, c: Client)
    requires ValidPhase(c) && c.phase.Reserved? && c.delta.AssetAdd?
    ensures Shapes(o, c, RevertStep(o, c).0, RevertStep(o, c).1)
  {
  }

  lemma RevertHashShapes(o: Obj, c: Client)
    requires ValidPhase(c) && c.phase.Reserved? && (c.delta.HashSetInsert? || c.delta.HashSetIncreaseLimit?)
    ensures Shapes(o, c, RevertStep(o, c).0, RevertStep(o, c).1)
  {
  }

  lemma RevertOtherShapes(o: Obj, c: Client)
    requires ValidPhase(c) && c.phase.Reserved? && !c.delta.Int64SetAdd? && !c.delta.AssetAdd?
    requires !c.delta.HashSetInsert? && !c.delta.HashSetIncreaseLimit?
    ensures Shapes(o, c, RevertStep(o, c).0, RevertStep(o, c).1)
  {
  }

  lemma RevertShapes(o: Obj, c: Client)
    requires ValidPhase(c) && c.phase.Reserved?
    ensures Shapes(o, c, RevertStep(o, c).0, RevertStep(o, c).1)
  {
    if c.delta.Int64SetAdd? {
      RevertIntShapes(o, c);
    } else if c.delta.AssetAdd? {
      RevertAssetShapes(o, c);
    } else if c.delta.HashSetInsert? || c.delta.HashSetIncreaseLimit? {
      RevertHashShapes(o, c);
    } else {
      RevertOtherShapes(o, c);
    }
  }

  lemma UnwindShapes(o: Obj, c: Client, choice: Choice)
    requires ValidPhase(c) && (c.phase.Overflowed? || c.phase.Releasing? || c.phase.RevertMid? || c.phase.RevertSlot?)
    ensures Shapes(o, c, Move(o, c, choice).0, Move(o, c, choice).1)
  {
  }

  lemma FinishShapes(o: Obj, c: Client, choice: Choice)
    requires ValidPhase(c) && !c.phase.Trying? && !c.phase.SlotHeld? && !c.phase.Reserved?
    requires !c.phase.Overflowed? && !c.phase.Releasing? && !c.phase.RevertMid? && !c.phase.RevertSlot?
    ensures Shapes(o, c, Move(o, c, choice).0, Move(o, c, choice).1)
  {
  }

  lemma MoveShapes(o: Obj, c: Client, choice: Choice)
    requires ValidPhase(c) && 0 <= o.available && o.upperBound <= UINT64_MAX && !Waits(o, c)
    ensures Shapes(o, c, Move(o, c, choice).0, Move(o, c, choice).1)
  {
    match c.phase
    case Trying => TryShapes(o, c);
    case SlotHeld => CountShapes(o, c);
    case Reserved =>
      CommitShapes(o, c);
      RevertShapes(o, c);
    case Overflowed => UnwindShapes(o, c, choice);
    case Releasing => UnwindShapes(o, c, choice);
    case RevertMid => UnwindShapes(o, c, choice);
    case RevertSlot => UnwindShapes(o, c, choice);
    case _ => FinishShapes(o, c, choice);
  }

  lemma NextShapes(o: Obj, c: Client, choice: Choice)
    requires ValidPhase(c) && 0 <= o.available && o.upperBound <= UINT64_MAX
    ensures Shapes(o, c, Next(o, c, choice).0, Next(o, c, choice).1)
  {
    if !Waits(o, c) {
      MoveShapes(o, c, choice);
    }
  }

  lemma ShapesKeepInv(k: Key, o: Obj, cs: seq<Client>, i: nat, o2: Obj, c2: Client)
    requires Mine(k, cs, i) && Inv(k, o, cs) && Shapes(o, cs[i], o2, c2)
    ensures Inv(k, o2, cs[i := c2])
  {
    StepKeepsSlot(k, o, cs, i, o2, c2);
    StepKeepsInt(k, o, cs, i, o2, c2);
    StepKeepsCount(k, o, cs, i, o2, c2);
    StepKeepsTable(k, o, cs, i, o2, c2);
    StepKeepsFlags(k, o, cs, i, o2, c2);
    StepKeepsAsset(k, o, cs, i, o2, c2);
  }

  /** Every atomic step of every client keeps the invariant of its object. */
  lemma StepKeepsInv(k: Key, o: Obj, cs: seq<Client>, i: nat, choice: Choice)
    requires Mine(k, cs, i) && Inv(k, o, cs)
    ensures Inv(k, Next(o, cs[i], choice).0, cs[i := Next(o, cs[i], choice).1])
    ensures SlotShape(o, cs[i], Next(o, cs[i], choice).0, Next(o, cs[i], choice).1)
  {
    NextShapes(o, cs[i], choice);
    var r := Next(o, cs[i], choice);
    ShapesKeepInv(k, o, cs, i, r.0, r.1);
  }
}
