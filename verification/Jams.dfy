/** What a wrapped slot does to a block. A transaction reserves all its deltas
    before it commits any, so the holders of a slot may all be waiting for it:
    then none of them ever commits, and the block never ends. */
module Jams {
  import opened StorageTypes
  import opened Objects
  import opened ObjectInvariant
  import opened Database
  import opened DatabaseInvariant
  import opened DatabaseRuns

  /** The delta that the transaction is reserving waits for a slot of `keys`. */
  predicate Spins(db: Db, j: int, keys: set<Key>) {
    && 0 <= j < |db.txs| && db.txs[j].phase.Pushing? && db.txs[j].at != []
    && db.txs[j].at[|db.txs[j].at| - 1] < |db.clients|
    && var c := db.clients[db.txs[j].at[|db.txs[j].at| - 1]];
    c.key in keys && Waits(ObjectAt(db, c.key), c)
  }

  /** The transaction will commit nothing as long as those slots stay wrapped. */
  predicate Caught(db: Db, j: int, keys: set<Key>) {
    Spins(db, j, keys) || (0 <= j < |db.txs| && db.txs[j].phase.Aborting?)
  }

  ghost predicate JammedKey(db: Db, keys: set<Key>, k: Key) {
    && Wrapped(ObjectAt(db, k).slot)
    && forall i :: 0 <= i < |db.clients| && HoldsLive(db.clients[i], k) ==> Caught(db, db.clients[i].owner, keys)
  }

  /** All holders of these wrapped slots wait for them or roll back. */
  ghost predicate Jam(db: Db, keys: set<Key>) {
    keys != {} && forall k :: k in keys ==> JammedKey(db, keys, k)
  }

  /** The slots of `keys` and their holders stand as they did. */
  ghost predicate SameSlot(db: Db, db2: Db, k: Key) {
    && ObjectAt(db2, k).slot == ObjectAt(db, k).slot && ObjectAt(db2, k).requiredType == ObjectAt(db, k).requiredType
    && |db.clients| <= |db2.clients|
    && (forall i :: 0 <= i < |db.clients| ==>
          db2.clients[i].owner == db.clients[i].owner && (HoldsLive(db2.clients[i], k) <==> HoldsLive(db.clients[i], k)))
    && (forall i :: |db.clients| <= i < |db2.clients| ==> !HoldsLive(db2.clients[i], k))
  }

  lemma JamFollows(db: Db, db2: Db, keys: set<Key>)
    requires Jam(db, keys)
    requires forall k :: k in keys ==> SameSlot(db, db2, k)
    requires forall k, i :: k in keys && 0 <= i < |db.clients| && HoldsLive(db.clients[i], k) ==>
      Caught(db2, db.clients[i].owner, keys)
    ensures Jam(db2, keys)
  {
    forall k | k in keys
      ensures JammedKey(db2, keys, k)
    {
      assert JammedKey(db, keys, k) && SameSlot(db, db2, k);
    }
  }

  /** A holder of a jammed slot has not committed and will not. */
  lemma HolderIsCaught(db: Db, keys: set<Key>, k: Key, i: nat)
    requires DbInv(db) && Jam(db, keys) && k in keys && i < |db.clients|
    requires db.clients[i].key == k && HoldsSlot(db.clients[i])
    ensures db.clients[i].live && Caught(db, db.clients[i].owner, keys)
    ensures !db.clients[i].phase.CommitSlot?
  {
    assert KeyOk(db, k) && JammedKey(db, keys, k);
    assert Mine(k, db.clients, i);
    assert PhaseFits(db.txs[db.clients[i].owner].phase, db.clients[i]);
  }

  // ---- one atomic operation ----

  /** A step on a wrapped slot, other than by a holder that commits, changes
      neither the slot nor who holds it. */
  lemma WrappedStep(k: Key, o: Obj, cs: seq<Client>, i: nat, choice: Choice)
    requires Inv(k, o, cs) && Mine(k, cs, i) && Wrapped(o.slot)
    requires HoldsSlot(cs[i]) ==> cs[i].live && !cs[i].phase.CommitSlot?
    ensures var (o2, c2) := Next(o, cs[i], choice);
      && o2.slot == o.slot && o2.requiredType == o.requiredType && (HoldsLive(c2, k) <==> HoldsLive(cs[i], k))
      && (Waits(o, cs[i]) ==> c2 == cs[i])
  {
    StepKeepsInv(k, o, cs, i, choice);
  }

  lemma StepKeepsSlotOf(db: Db, keys: set<Key>, i: nat, choice: Choice, k: Key)
    requires DbInv(db) && Jam(db, keys) && k in keys && i < |db.clients|
    ensures SameSlot(db, ClientStep(db, i, choice), k)
    ensures var c := db.clients[i]; c.key == k && Waits(ObjectAt(db, k), c) ==> ClientStep(db, i, choice).clients[i] == c
  {
    var c := db.clients[i];
    SameClient(ObjectAt(db, c.key), c, choice);
    if c.key == k {
      assert KeyOk(db, k) && JammedKey(db, keys, k) && Mine(k, db.clients, i);
      if HoldsSlot(c) {
        HolderIsCaught(db, keys, k, i);
      }
      WrappedStep(k, ObjectAt(db, k), db.clients, i, choice);
    }
  }

  lemma StillSpins(db: Db, keys: set<Key>, i: nat, choice: Choice, j: int)
    requires DbInv(db) && Jam(db, keys) && i < |db.clients| && Caught(db, j, keys)
    ensures Caught(ClientStep(db, i, choice), j, keys)
  {
    if Spins(db, j, keys) {
      var last := db.txs[j].at[|db.txs[j].at| - 1];
      var k := db.clients[last].key;
      StepKeepsSlotOf(db, keys, i, choice, k);
      assert ClientStep(db, i, choice).clients[last] == db.clients[last];
    }
  }

  lemma StepKeepsJam(db: Db, keys: set<Key>, i: nat, choice: Choice)
    requires DbInv(db) && Jam(db, keys) && i < |db.clients|
    ensures Jam(ClientStep(db, i, choice), keys)
    ensures forall k :: k in keys ==> SameSlot(db, ClientStep(db, i, choice), k)
  {
    var db2 := ClientStep(db, i, choice);
    forall k | k in keys
      ensures SameSlot(db, db2, k)
    {
      StepKeepsSlotOf(db, keys, i, choice, k);
    }
    forall k, h | k in keys && 0 <= h < |db.clients| && HoldsLive(db.clients[h], k)
      ensures Caught(db2, db.clients[h].owner, keys)
    {
      assert JammedKey(db, keys, k);
      StillSpins(db, keys, i, choice, db.clients[h].owner);
    }
    JamFollows(db, db2, keys);
  }

  // ---- one change of a transaction ----

  /** No live holder of a jammed slot belongs to the transaction. */
  ghost predicate Outside(db: Db, keys: set<Key>, j: int) {
    forall k, i :: k in keys && 0 <= i < |db.clients| && HoldsLive(db.clients[i], k) ==> db.clients[i].owner != j
  }

  lemma FreeIsOutside(db: Db, keys: set<Key>, j: nat)
    requires Jam(db, keys) && !Caught(db, j, keys)
    ensures Outside(db, keys, j)
  {
    forall k, i | k in keys && 0 <= i < |db.clients| && HoldsLive(db.clients[i], k)
      ensures db.clients[i].owner != j
    {
      assert JammedKey(db, keys, k);
    }
  }

  /** A change to a transaction outside, or into a rollback, keeps the jam. */
  lemma TxKeepsJam(db: Db, keys: set<Key>, j: nat, db2: Db)
    requires Jam(db, keys) && j < |db.txs| && |db2.txs| >= |db.txs|
    requires forall x :: 0 <= x < |db.txs| && x != j ==> db2.txs[x] == db.txs[x]
    requires Outside(db, keys, j) || db2.txs[j].phase.Aborting?
    requires forall k :: k in keys ==> SameSlot(db, db2, k)
    requires |db.clients| <= |db2.clients| && forall i :: 0 <= i < |db.clients| ==> db2.clients[i] == db.clients[i]
    ensures Jam(db2, keys)
  {
    forall k, i | k in keys && 0 <= i < |db.clients| && HoldsLive(db.clients[i], k)
      ensures Caught(db2, db.clients[i].owner, keys)
    {
      assert JammedKey(db, keys, k);
      var x := db.clients[i].owner;
      if x != j && Spins(db, x, keys) {
        assert SameSlot(db, db2, db.clients[db.txs[x].at[|db.txs[x].at| - 1]].key);
      }
    }
    JamFollows(db, db2, keys);
  }

  lemma SlotHeldBy(db: Db, keys: set<Key>) returns (k: Key, i: nat)
    requires DbInv(db) && Jam(db, keys)
    ensures k in keys && i < |db.clients| && HoldsLive(db.clients[i], k) && Caught(db, db.clients[i].owner, keys)
  {
    k :| k in keys;
    assert JammedKey(db, keys, k) && KeyOk(db, k);
    if forall x :: 0 <= x < |db.clients| ==> !HoldsLive(db.clients[x], k) {
      TotalZero(Holders, k, db.clients);
    }
    i :| 0 <= i < |db.clients| && HoldsLive(db.clients[i], k);
  }

  lemma JammedIsUnconcluded(db: Db, keys: set<Key>)
    requires DbInv(db) && Jam(db, keys)
    ensures !AllConcluded(db)
  {
    var k, i := SlotHeldBy(db, keys);
  }

  /** A transaction all of whose clients are done holds no jammed slot. */
  lemma DoneIsOutside(db: Db, keys: set<Key>, j: nat, committed: bool)
    requires DbInv(db) && Jam(db, keys) && j < |db.txs| && AllAre(db, db.txs[j], committed)
    requires committed ==> db.txs[j].phase.Committing?
    ensures Outside(db, keys, j)
  {
    forall k, i | k in keys && 0 <= i < |db.clients| && HoldsLive(db.clients[i], k)
      ensures db.clients[i].owner != j
    {
      assert JammedKey(db, keys, k) && HasWrite(db, i);
      var p :| Carries(db, db.clients[i].owner, p, i);
      assert db.txs[db.clients[i].owner].at[p] == i;
    }
  }

  lemma ConcludeKeepsJam(db: Db, keys: set<Key>, j: nat)
    requires DbInv(db) && Jam(db, keys) && j < |db.txs|
    ensures Jam(ConcludeTx(db, j), keys)
    ensures forall k :: k in keys ==> SameSlot(db, ConcludeTx(db, j), k)
  {
    if ConcludeTx(db, j) != db {
      DoneIsOutside(db, keys, j, db.txs[j].phase.Committing?);
      TxKeepsJam(db, keys, j, ConcludeTx(db, j));
    }
  }

  lemma PushKeepsJam(db: Db, keys: set<Key>, j: nat)
    requires Jam(db, keys) && j < |db.txs| && |db.txs[j].at| < |db.txs[j].writes| && db.txs[j].phase.Pushing?
    requires db.txs[j].at == [] || LastIs(db, db.txs[j], true)
    ensures Jam(PushWrite(db, j), keys)
    ensures forall k :: k in keys ==> SameSlot(db, PushWrite(db, j), k)
  {
    FreeIsOutside(db, keys, j);
    TxKeepsJam(db, keys, j, PushWrite(db, j));
  }

  // ---- every action, every run ----

  /** The jam is still there, with the same holders. */
  ghost predicate Stays(db: Db, db2: Db, keys: set<Key>) {
    Jam(db2, keys) && db2.block == db.block && forall k :: k in keys ==> SameSlot(db, db2, k)
  }

  lemma SubmitKeepsJam(db: Db, keys: set<Key>, tx: Tx)
    requires Jam(db, keys)
    ensures Stays(db, db.(txs := db.txs + [tx]), keys)
  {
    var db2 := db.(txs := db.txs + [tx]);
    forall k, i | k in keys && 0 <= i < |db.clients| && HoldsLive(db.clients[i], k)
      ensures Caught(db2, db.clients[i].owner, keys)
    {
      assert JammedKey(db, keys, k);
    }
    JamFollows(db, db2, keys);
  }

  lemma PhaseKeepsJam(db: Db, keys: set<Key>, j: nat, phase: TxPhase)
    requires Jam(db, keys) && j < |db.txs| && (Outside(db, keys, j) || phase.Aborting?)
    ensures Stays(db, SetPhase(db, j, phase), keys)
  {
    TxKeepsJam(db, keys, j, SetPhase(db, j, phase));
  }

  lemma AbandonKeepsJam(db: Db, keys: set<Key>, j: nat)
    requires Jam(db, keys)
    ensures Stays(db, Apply(db, Abandon(j)), keys)
  {
    if Apply(db, Abandon(j)) != db {
      PhaseKeepsJam(db, keys, j, Aborting);
    }
  }

  lemma DecideKeepsJam(db: Db, keys: set<Key>, j: nat, accepted: bool)
    requires Jam(db, keys)
    ensures Stays(db, Apply(db, Decide(j, accepted)), keys)
  {
    if Apply(db, Decide(j, accepted)) != db {
      FreeIsOutside(db, keys, j);
      PhaseKeepsJam(db, keys, j, if accepted then Committing else Aborting);
    }
  }

  lemma AdvanceKeepsJam(db: Db, keys: set<Key>, j: nat)
    requires RunInv(db) && Jam(db, keys)
    ensures Stays(db, Apply(db, Advance(j)), keys)
  {
    if j < |db.txs| && db.txs[j].at != [] && db.txs[j].at[|db.txs[j].at| - 1] < |db.clients| {
      StepKeepsJam(db, keys, db.txs[j].at[|db.txs[j].at| - 1], Commit);
    }
  }

  lemma WorkKeepsJam(db: Db, keys: set<Key>, j: nat, p: nat)
    requires RunInv(db) && Jam(db, keys)
    ensures Stays(db, Apply(db, Work(j, p)), keys)
  {
    if j < |db.txs| && p < |db.txs[j].at| && db.txs[j].at[p] < |db.clients| {
      StepKeepsJam(db, keys, db.txs[j].at[p], if db.txs[j].phase.Committing? then Commit else Revert);
    }
  }

  lemma PushActionKeepsJam(db: Db, keys: set<Key>, j: nat)
    requires Jam(db, keys)
    ensures Stays(db, Apply(db, Push(j)), keys)
  {
    if j < |db.txs| && db.txs[j].phase.Pushing? && |db.txs[j].at| < |db.txs[j].writes|
       && (db.txs[j].at == [] || LastIs(db, db.txs[j], true)) {
      PushKeepsJam(db, keys, j);
    }
  }

  lemma ActionKeepsJam(db: Db, keys: set<Key>, a: Action)
    requires RunInv(db) && Jam(db, keys)
    ensures Stays(db, Apply(db, a), keys)
  {
    match a
    case Submit(id, writes, loaded) => SubmitKeepsJam(db, keys, Tx(id, writes, loaded, [], Pushing));
    case Push(j) => PushActionKeepsJam(db, keys, j);
    case Advance(j) => AdvanceKeepsJam(db, keys, j);
    case Abandon(j) => AbandonKeepsJam(db, keys, j);
    case Decide(j, accepted) => DecideKeepsJam(db, keys, j, accepted);
    case Work(j, p) => WorkKeepsJam(db, keys, j, p);
    case Conclude(j) =>
      if j < |db.txs| {
        ConcludeKeepsJam(db, keys, j);
      }
    case FinishBlock(_) => JammedIsUnconcluded(db, keys);
    case UndoBlock => JammedIsUnconcluded(db, keys);
  }

  /** A jam is for ever: whatever anybody does, the slots stay wrapped, the
      transactions that hold them neither commit nor finish rolling back, and
      the block ends neither way. */
  lemma {:induction false} JamIsForever(db: Db, keys: set<Key>, actions: seq<Action>)
    requires RunInv(db) && Jam(db, keys)
    ensures var r := Execute(db, actions);
      && Jam(r, keys) && r.block == db.block && !AllConcluded(r)
      && (forall k :: k in keys ==> SameSlot(db, r, k))
      && (forall k, i :: k in keys && 0 <= i < |db.clients| && HoldsLive(db.clients[i], k) ==>
            Caught(r, db.clients[i].owner, keys))
    decreases |actions|
  {
    if actions == [] {
      JammedIsUnconcluded(db, keys);
      assert forall k, i :: k in keys && 0 <= i < |db.clients| && HoldsLive(db.clients[i], k) ==> JammedKey(db, keys, k);
    } else {
      var db2 := Apply(db, actions[0]);
      ApplyKeepsInv(db, actions[0]);
      ActionKeepsJam(db, keys, actions[0]);
      JamIsForever(db2, keys, actions[1..]);
      var r := Execute(db2, actions[1..]);
      forall k | k in keys
        ensures SameSlot(db, r, k)
      {
        assert SameSlot(db, db2, k) && SameSlot(db2, r, k);
      }
      forall k, i | k in keys && 0 <= i < |db.clients| && HoldsLive(db.clients[i], k)
        ensures Caught(r, db.clients[i].owner, keys)
      {
        assert SameSlot(db, r, k) && JammedKey(r, keys, k);
      }
    }
  }
}
