/** In every run whose raises of one limit within one block stay below 32 bits,
    every object's table has a cell for each element that its limit lets in, so
    room is only ever short because of dead cells. */
module Capacities {
  import opened StorageTypes
  import opened Objects
  import opened ObjectInvariant
  import opened ObjectRounds
  import opened Database
  import opened DatabaseRuns

  ghost predicate Modest(db: Db) { forall k :: ModestRaise(ObjectAt(db, k)) }

  /** No block of the run that is accepted raises a limit past 32 bits. */
  ghost predicate ModestRun(db: Db, actions: seq<Action>)
    decreases |actions|
  {
    actions == [] || ((actions[0].FinishBlock? ==> Modest(db)) && ModestRun(Apply(db, actions[0]), actions[1..]))
  }

  ghost predicate Capacious(db: Db) { forall k :: CapacityOk(ObjectAt(db, k)) }

  /** No step of a client changes the stored value or the size of the table. */
  lemma StepKeepsShell(o: Obj, c: Client, choice: Choice)
    ensures Next(o, c, choice).0.base == o.base && Next(o, c, choice).0.table.capacity == o.table.capacity
  {
    match c.phase
    case SlotHeld => assert CountStep(o, c).0.base == o.base && CountStep(o, c).0.table == o.table;
    case Reserved =>
      assert CommitStep(o, c).0.base == o.base && CommitStep(o, c).0.table == o.table;
      assert RevertStep(o, c).0.base == o.base && RevertStep(o, c).0.table == o.table;
    case _ =>
  }

  lemma ClientStepCapacity(db: Db, i: nat, choice: Choice)
    requires Capacious(db) && i < |db.clients|
    ensures Capacious(ClientStep(db, i, choice))
  {
    var c := db.clients[i];
    StepKeepsShell(ObjectAt(db, c.key), c, choice);
    forall k
      ensures CapacityOk(ObjectAt(ClientStep(db, i, choice), k))
    {
      assert CapacityOk(ObjectAt(db, k));
      assert ObjectAt(ClientStep(db, i, choice), k) ==
        if k == c.key then Next(ObjectAt(db, k), c, choice).0 else ObjectAt(db, k);
    }
  }

  lemma FinishedCapacity(db: Db, listings: map<Key, seq<Entry>>, k: Key)
    requires DbInv(db) && CapacityOk(ObjectAt(db, k)) && ModestRaise(ObjectAt(db, k))
    ensures CapacityOk(ObjectAt(NextBlock(db, FinishedMain(db, listings)), k))
  {
    var o := ObjectAt(db, k);
    assert KeyOk(db, k);
    LimitIncreaseBounded(k, db.clients);
    TotalAtLeast(LimitIncrease, k, db.clients);
    RoundCapacity(o, Listing(listings, k));
    FreshCapacity(CommitRound(o, Listing(listings, k)).base);
    FreshCapacity(None);
  }

  lemma BlockEndCapacity(db: Db, listings: map<Key, seq<Entry>>)
    requires DbInv(db) && Capacious(db)
    ensures Modest(db) ==> Capacious(NextBlock(db, FinishedMain(db, listings)))
    ensures Capacious(NextBlock(db, RewoundMain(db)))
  {
    forall k
      ensures Modest(db) ==> CapacityOk(ObjectAt(NextBlock(db, FinishedMain(db, listings)), k))
      ensures CapacityOk(ObjectAt(NextBlock(db, RewoundMain(db)), k))
    {
      assert CapacityOk(ObjectAt(db, k));
      if Modest(db) {
        assert ModestRaise(ObjectAt(db, k));
        FinishedCapacity(db, listings, k);
      }
      FreshCapacity(None);
    }
  }

  lemma SameObjectsCapacity(db: Db, db2: Db)
    requires Capacious(db) && forall k :: ObjectAt(db2, k) == ObjectAt(db, k)
    ensures Capacious(db2)
  {
  }

  lemma AdvanceCapacity(db: Db, j: nat)
    requires Capacious(db)
    ensures Capacious(Apply(db, Advance(j)))
  {
    if j < |db.txs| && db.txs[j].at != [] && db.txs[j].at[|db.txs[j].at| - 1] < |db.clients| {
      ClientStepCapacity(db, db.txs[j].at[|db.txs[j].at| - 1], Commit);
    }
  }

  lemma WorkCapacity(db: Db, j: nat, p: nat)
    requires Capacious(db)
    ensures Capacious(Apply(db, Work(j, p)))
  {
    if j < |db.txs| && p < |db.txs[j].at| && db.txs[j].at[p] < |db.clients| {
      ClientStepCapacity(db, db.txs[j].at[p], Commit);
      ClientStepCapacity(db, db.txs[j].at[p], Revert);
    }
  }

  lemma QuietCapacity(db: Db, a: Action)
    requires Capacious(db) && !a.Advance? && !a.Work? && !a.FinishBlock? && !a.UndoBlock?
    ensures Capacious(Apply(db, a))
  {
    SameObjectsCapacity(db, Apply(db, a));
  }

  lemma ApplyKeepsCapacity(db: Db, a: Action)
    requires DbInv(db) && Capacious(db) && (a.FinishBlock? ==> Modest(db))
    ensures Capacious(Apply(db, a))
  {
    match a
    case Advance(j) => AdvanceCapacity(db, j);
    case Work(j, p) => WorkCapacity(db, j, p);
    case FinishBlock(listings) => BlockEndCapacity(db, listings);
    case UndoBlock => BlockEndCapacity(db, map[]);
    case _ => QuietCapacity(db, a);
  }

  lemma {:induction false} RunKeepsCapacity(db: Db, actions: seq<Action>)
    requires RunInv(db) && Capacious(db) && ModestRun(db, actions)
    ensures Capacious(Execute(db, actions))
    decreases |actions|
  {
    if actions != [] {
      ApplyKeepsInv(db, actions[0]);
      ApplyKeepsCapacity(db, actions[0]);
      RunKeepsCapacity(Apply(db, actions[0]), actions[1..]);
    }
  }

  /** In every reachable state the table of a hash set, or of a key without a
      value, is at least as large as the limit, unless a block raised a limit
      past 32 bits. */
  lemma ReachableCapacity(actions: seq<Action>, k: Key)
    requires ModestRun(GENESIS, actions)
    ensures CapacityOk(ObjectAt(Execute(GENESIS, actions), k))
  {
    GenesisStarts();
    FreshCapacity(None);
    RunKeepsCapacity(GENESIS, actions);
  }
}
