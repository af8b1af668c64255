/** What holds of every object in every reachable state, and what a failed
    transaction leaves behind, said in terms of the objects alone. */
module Guarantees {
  import opened StorageTypes
  import opened HashSets
  import opened Objects
  import opened ObjectInvariant
  import opened ObjectRounds
  import opened Folds
  import opened Schedules
  import opened Database
  import opened DatabaseInvariant
  import opened DatabaseRuns
  import opened Ledger

  /** The same reservations, counters, table contents and flags. Dead table
      cells may differ, and so may the count in a slot that is already final. */
  predicate SameAccounting(o: Obj, p: Obj) {
    && o.slot.value == p.slot.value && o.slot.finalized == p.slot.finalized
    && (!o.slot.finalized ==> o.slot.inflight == p.slot.inflight)
    && o.subtracted == p.subtracted && o.added == p.added
    && o.sizeIncrease == p.sizeIncrease && o.newElements == p.newElements
    && o.table.contents == p.table.contents
    && o.clearCommitted == p.clearCommitted && o.maxClear == p.maxClear && o.deleteCommitted == p.deleteCommitted
    && o.available == p.available && o.upperBound == p.upperBound
  }

  lemma SlotDetermined(k: Key, o: Obj, p: Obj, cs: seq<Client>)
    requires InvSlot(k, o, cs) && InvSlot(k, p, cs)
    ensures o.slot.value == p.slot.value && o.slot.finalized == p.slot.finalized
    ensures !o.slot.finalized ==> o.slot.inflight == p.slot.inflight
  {
    if o.slot.value.Some? {
      SlotHasHolder(k, o, cs);
    }
    if p.slot.value.Some? {
      SlotHasHolder(k, p, cs);
    }
  }

  /** The clients and the stored value determine an object's accounting. */
  lemma AccountingIsDetermined(k: Key, o: Obj, p: Obj, cs: seq<Client>)
    requires Inv(k, o, cs) && Inv(k, p, cs) && o.base == p.base
    ensures SameAccounting(o, p)
  {
    SlotDetermined(k, o, p, cs);
  }

  /** Atomicity: after a transaction failed, every object accounts for exactly
      what it would account for had the transaction not touched it. */
  lemma FailedAsIfNeverRun(actions: seq<Action>, j: nat, k: Key, p: Obj)
    requires var db := Execute(GENESIS, actions);
      && j < |db.txs| && db.txs[j].phase.Failed?
      && Inv(k, p, WithoutTx(db.clients, j)) && p.base == ObjectAt(db, k).base
    ensures SameAccounting(ObjectAt(Execute(GENESIS, actions), k), p)
  {
    FailedLeavesNothing(actions, j, k);
    var db := Execute(GENESIS, actions);
    AccountingIsDetermined(k, ObjectAt(db, k), p, WithoutTx(db.clients, j));
  }

  /** In every reachable state: debits never exceed the value they are taken
      from and vanish with the slot; assets keep their two bounds in order and
      in range; and stored sets are strictly descending and within their limit. */
  lemma ReachableBounds(actions: seq<Action>, k: Key)
    ensures var db := Execute(GENESIS, actions);
      var o := ObjectAt(db, k);
      && o.subtracted == Total(Subtractions, k, db.clients) <= 0
      && (o.subtracted < 0 ==> o.slot.value.Some? && o.slot.value.value.Int64Class?
                               && o.slot.value.value.setValue + o.subtracted >= 0)
      && 0 <= o.available <= o.upperBound <= UINT64_MAX
      && o.available == AmountOf(o.base) + Total(AssetCommitted, k, db.clients) + Total(AssetLiveDown, k, db.clients)
      && o.upperBound == AmountOf(o.base) + Total(AssetCommitted, k, db.clients) + Total(AssetLiveUp, k, db.clients)
      && ValidBase(o.base)
  {
    GenesisStarts();
    RunKeepsInv(GENESIS, actions);
    assert KeyOk(Execute(GENESIS, actions), k);
  }

  /** The stored entries and the live and committed inserts fit the limit. */
  lemma ReachableRoom(actions: seq<Action>, k: Key)
    ensures var db := Execute(GENESIS, actions);
      var o := ObjectAt(db, k);
      Total(WithinLimit, k, db.clients) > 0 ==>
        |HashesOf(o.base)| + Total(WithinLimit, k, db.clients) <= MaxSizeOf(o.base)
  {
    GenesisStarts();
    RunKeepsInv(GENESIS, actions);
    assert KeyOk(Execute(GENESIS, actions), k);
  }
}
