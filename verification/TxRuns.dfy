/** Transactions that run by themselves: what such a run leaves alone, where it
    can end, and exactly when it succeeds. */
module TxRuns {
  import opened StorageTypes
  import opened Objects
  import opened ObjectInvariant
  import opened Folds
  import opened Database
  import opened DatabaseInvariant
  import opened DatabaseRuns
  import opened Ledger
  import opened BlockValidation
  import opened Jams
  import opened Progress

  // ---- what a run of one transaction leaves alone ----

  predicate AllBy(actions: seq<Action>, j: nat) { forall i :: 0 <= i < |actions| ==> By(actions[i], j) }

  /** The client is still there, and has not moved unless it belongs to `j`. */
  predicate SameBut(c: Client, d: Client, j: nat) {
    d.owner == c.owner && d.key == c.key && d.delta == c.delta && (c.owner != j ==> d == c) && (c.phase.Committed? ==> d == c)
  }

  predicate OnlyBy(db: Db, r: Db, j: nat) {
    && j < |db.txs| == |r.txs| && r.block == db.block
    && (forall x :: 0 <= x < |db.txs| && x != j ==> r.txs[x] == db.txs[x])
    && r.txs[j].writes == db.txs[j].writes && r.txs[j].id == db.txs[j].id && r.txs[j].loaded == db.txs[j].loaded
    && |db.txs[j].at| <= |r.txs[j].at| && |r.clients| - |db.clients| == |r.txs[j].at| - |db.txs[j].at|
    && (forall i :: 0 <= i < |db.clients| ==> SameBut(db.clients[i], r.clients[i], j))
    && (forall i :: |db.clients| <= i < |r.clients| ==> r.clients[i].owner == j)
  }

  lemma StepOnlyBy(db: Db, i: nat, choice: Choice, j: nat)
    requires i < |db.clients| && db.clients[i].owner == j && j < |db.txs|
    ensures OnlyBy(db, ClientStep(db, i, choice), j)
  {
    SameClient(ObjectAt(db, db.clients[i].key), db.clients[i], choice);
  }

  lemma PhaseOnlyBy(db: Db, j: nat, phase: TxPhase, modified: set<Key>)
    requires j < |db.txs|
    ensures OnlyBy(db, SetPhase(db, j, phase).(modified := modified), j)
  {
  }

  lemma PushOnlyBy(db: Db, j: nat)
    requires j < |db.txs| && |db.txs[j].at| < |db.txs[j].writes|
    ensures OnlyBy(db, PushWrite(db, j), j)
  {
  }

  lemma SameOnlyBy(db: Db, j: nat)
    requires j < |db.txs|
    ensures OnlyBy(db, db, j)
  {
  }

  lemma AdvanceOnlyBy(db: Db, j: nat)
    requires LinksOk(db) && j < |db.txs|
    ensures OnlyBy(db, Apply(db, Advance(j)), j)
  {
    if Apply(db, Advance(j)) == db {
      SameOnlyBy(db, j);
    } else {
      var i := db.txs[j].at[|db.txs[j].at| - 1];
      assert Carries(db, j, |db.txs[j].at| - 1, i);
      StepOnlyBy(db, i, Commit, j);
    }
  }

  lemma WorkOnlyBy(db: Db, j: nat, p: nat)
    requires LinksOk(db) && j < |db.txs|
    ensures OnlyBy(db, Apply(db, Work(j, p)), j)
  {
    if Apply(db, Work(j, p)) == db {
      SameOnlyBy(db, j);
    } else {
      assert Carries(db, j, p, db.txs[j].at[p]);
      StepOnlyBy(db, db.txs[j].at[p], if db.txs[j].phase.Committing? then Commit else Revert, j);
    }
  }

  lemma ActionOnlyBy(db: Db, a: Action, j: nat)
    requires RunInv(db) && By(a, j) && j < |db.txs|
    ensures OnlyBy(db, Apply(db, a), j)
  {
    SameOnlyBy(db, j);
    match a
    case Push(_) =>
      if |db.txs[j].at| < |db.txs[j].writes| {
        PushOnlyBy(db, j);
      }
    case Advance(_) => AdvanceOnlyBy(db, j);
    case Abandon(_) => PhaseOnlyBy(db, j, Aborting, db.modified);
    case Decide(_, _) => PhaseOnlyBy(db, j, Committing, db.modified);
    case Work(_, p) => WorkOnlyBy(db, j, p);
    case Conclude(_) =>
      PhaseOnlyBy(db, j, Succeeded, db.modified + WrittenKeys(db.txs[j]) + db.txs[j].loaded);
      PhaseOnlyBy(db, j, Failed, db.modified);
  }

  lemma OnlyByThen(db: Db, m: Db, r: Db, j: nat)
    requires OnlyBy(db, m, j) && OnlyBy(m, r, j)
    ensures OnlyBy(db, r, j)
  {
    forall i | 0 <= i < |db.clients|
      ensures SameBut(db.clients[i], r.clients[i], j)
    {
      assert SameBut(db.clients[i], m.clients[i], j) && SameBut(m.clients[i], r.clients[i], j);
    }
    forall i | |db.clients| <= i < |r.clients|
      ensures r.clients[i].owner == j
    {
      if i < |m.clients| {
        assert SameBut(m.clients[i], r.clients[i], j);
      }
    }
  }

  lemma {:induction false} RunOnlyBy(db: Db, actions: seq<Action>, j: nat)
    requires RunInv(db) && AllBy(actions, j) && j < |db.txs|
    ensures RunInv(Execute(db, actions)) && OnlyBy(db, Execute(db, actions), j)
    decreases |actions|
  {
    if actions != [] {
      var m := Apply(db, actions[0]);
      ApplyKeepsInv(db, actions[0]);
      ActionOnlyBy(db, actions[0], j);
      RunOnlyBy(m, actions[1..], j);
      OnlyByThen(db, m, Execute(m, actions[1..]), j);
    }
  }

  // ---- final slots ----

  predicate Opened(db: Db, k: Key) { ObjectAt(db, k).slot.finalized }

  predicate Finalizes(c: Client, k: Key) { c.key == k && c.phase.Committed? && !c.delta.DeleteLast? }

  /** A slot is final exactly when somebody has committed to it. */
  lemma OpenedByCommit(db: Db, k: Key)
    requires KeyOk(db, k)
    ensures Opened(db, k) <==> exists i :: 0 <= i < |db.clients| && Finalizes(db.clients[i], k)
  {
    if Opened(db, k) && forall i :: 0 <= i < |db.clients| ==> !Finalizes(db.clients[i], k) {
      TotalZero(Finalizers, k, db.clients);
    }
    if i :| 0 <= i < |db.clients| && Finalizes(db.clients[i], k) {
      assert Mine(k, db.clients, i) && HoldsSlot(db.clients[i]);
    }
  }

  lemma StaysOpened(db: Db, r: Db, j: nat, k: Key)
    requires KeyOk(db, k) && KeyOk(r, k) && OnlyBy(db, r, j) && Opened(db, k)
    ensures Opened(r, k)
  {
    OpenedByCommit(db, k);
    OpenedByCommit(r, k);
    var i :| 0 <= i < |db.clients| && Finalizes(db.clients[i], k);
    assert SameBut(db.clients[i], r.clients[i], j);
  }

  // ---- running a transaction as far as it gets ----

  lemma ByServes(db: Db, block: seq<Tx>, a: Action, j: nat)
    requires RunInv(db) && Serving(db, block) && By(a, j)
    ensures Serving(Apply(db, a), block)
  {
    ActionServes(db, block, a);
  }

  /** One action of the transaction, and what it leaves. */
  lemma MoveTx(db: Db, block: seq<Tx>, j: nat) returns (a: Action)
    requires RunInv(db) && Serving(db, block) && j < |db.txs| && HasRoom(db, j) && NoneWaits(db, j) && InProgress(db.txs[j])
    ensures By(a, j)
    ensures var m := Apply(db, a);
      RunInv(m) && Serving(m, block) && OnlyBy(db, m, j) && HasRoom(m, j) && 0 <= Ahead(m, j) < Ahead(db, j)
  {
    a := CanMove(db, j);
    ApplyKeepsInv(db, a);
    ByServes(db, block, a, j);
    ActionOnlyBy(db, a, j);
    assert WroteSoFar(Apply(db, a), j);
  }

  /** The transaction runs until it has succeeded or one of its deltas waits. */
  lemma {:induction false} RunTx(db: Db, block: seq<Tx>, j: nat) returns (actions: seq<Action>)
    requires RunInv(db) && Serving(db, block) && j < |db.txs| && HasRoom(db, j)
    ensures AllBy(actions, j)
    ensures var r := Execute(db, actions);
      && RunInv(r) && Serving(r, block) && OnlyBy(db, r, j)
      && (NoneWaits(r, j) ==> r.txs[j].phase.Succeeded?)
    decreases Ahead(db, j)
  {
    if NoneWaits(db, j) && InProgress(db.txs[j]) {
      var a := MoveTx(db, block, j);
      var m := Apply(db, a);
      var rest := RunTx(m, block, j);
      actions := [a] + rest;
      assert actions[1..] == rest;
      OnlyByThen(db, m, Execute(m, rest), j);
    } else {
      actions := [];
      assert Welcome(db.txs[j].phase);
      SameOnlyBy(db, j);
    }
  }

  // ---- a light load ----

  lemma WaitingIsTrying(db: Db, block: seq<Tx>, i: nat)
    requires RunInv(db) && Serving(db, block) && i < |db.clients|
    requires Waits(ObjectAt(db, db.clients[i].key), db.clients[i])
    ensures db.clients[i].phase.Trying? && db.txs[db.clients[i].owner].phase.Pushing?
  {
    var c := db.clients[i];
    assert Welcome(db.txs[c.owner].phase) && PhaseFits(db.txs[c.owner].phase, c);
  }

  predicate LightAt(db: Db, k: Key) { Opened(db, k) || Load(k, db.txs, |db.txs|) <= MAX_INFLIGHT }

  /** At every key the slot is final, or at most 256 deltas of the transactions
      in progress reserve it. */
  ghost predicate LightLoad(db: Db) { forall k :: LightAt(db, k) }

  /** Under a light load nobody waits. */
  lemma NobodyWaits(db: Db, block: seq<Tx>, j: nat)
    requires RunInv(db) && Serving(db, block) && LightLoad(db)
    ensures NoneWaits(db, j)
  {
    forall i | 0 <= i < |db.clients| && db.clients[i].owner == j
      ensures !Waits(ObjectAt(db, db.clients[i].key), db.clients[i])
    {
      if Waits(ObjectAt(db, db.clients[i].key), db.clients[i]) {
        WaitingIsTrying(db, block, i);
        assert LightAt(db, db.clients[i].key);
        WaitingMeansLoad(db, i);
      }
    }
  }

  lemma {:induction false} LoadShrinks(k: Key, txs: seq<Tx>, n: nat, j: nat, tx: Tx)
    requires n <= |txs| && j < |txs| && tx.writes == txs[j].writes && InProgress(txs[j])
    ensures Load(k, txs[j := tx], n) <= Load(k, txs, n)
  {
    if n > 0 {
      LoadShrinks(k, txs, n - 1, j, tx);
      SumSign(Slots, AtKey(k, tx.writes));
    }
  }

  lemma LightStays(db: Db, r: Db, j: nat)
    requires RunInv(db) && RunInv(r) && OnlyBy(db, r, j) && InProgress(db.txs[j]) && LightLoad(db)
    ensures LightLoad(r)
  {
    assert r.txs == db.txs[j := r.txs[j]];
    forall k
      ensures LightAt(r, k)
    {
      assert LightAt(db, k) && KeyOk(db, k) && KeyOk(r, k);
      if Opened(db, k) {
        StaysOpened(db, r, j, k);
      } else {
        LoadShrinks(k, db.txs, |db.txs|, j, r.txs[j]);
      }
    }
  }

  /** Under a light load every transaction of the block can go on to succeed,
      whatever the others are in the middle of. */
  lemma LightTxSucceeds(db: Db, block: seq<Tx>, j: nat) returns (actions: seq<Action>)
    requires RunInv(db) && Serving(db, block) && LightLoad(db) && j < |db.txs| && InProgress(db.txs[j]) && HasRoom(db, j)
    ensures AllBy(actions, j)
    ensures var r := Execute(db, actions);
      RunInv(r) && Serving(r, block) && LightLoad(r) && OnlyBy(db, r, j) && r.txs[j].phase.Succeeded?
  {
    actions := RunTx(db, block, j);
    LightStays(db, Execute(db, actions), j);
    NobodyWaits(Execute(db, actions), block, j);
  }

  // ---- a large transaction follows a commit ----

  predicate Decided(tx: Tx) { tx.phase.Committing? || tx.phase.Succeeded? }

  ghost predicate OtherCommitted(db: Db, j: int, k: Key) {
    exists i :: 0 <= i < |db.clients| && Finalizes(db.clients[i], k) && db.clients[i].owner != j
  }

  /** A transaction with more than 256 reservations of one slot was preceded
      there by the commit of another. */
  ghost predicate Followed(db: Db, j: int, k: Key) {
    0 <= j < |db.txs| && Decided(db.txs[j]) && SlotWrites(k, db.txs[j].writes) > MAX_INFLIGHT ==> OtherCommitted(db, j, k)
  }

  /** Reservations that are all alive count. */
  lemma {:induction false} OwnedHold(k: Key, j: nat, cs: seq<Client>)
    requires forall i :: 0 <= i < |cs| && cs[i].owner == j && cs[i].key == k && !cs[i].delta.DeleteLast? ==> HoldsLive(cs[i], k)
    ensures SlotWrites(k, Owned(j, cs)) <= Total(Holders, k, cs)
  {
    if cs != [] {
      OwnedHold(k, j, cs[1..]);
      if cs[0].owner == j {
        SlotWritesFirst(k, Owned(j, cs));
        assert Owned(j, cs)[1..] == Owned(j, cs[1..]);
      } else {
        assert Owned(j, cs) == Owned(j, cs[1..]);
      }
    }
  }

  /** While the slot is not final, reservations that are all alive are few. */
  lemma ReservedAreFew(db: Db, j: nat, k: Key)
    requires RunInv(db) && j < |db.txs| && |db.txs[j].at| == |db.txs[j].writes| && !Opened(db, k)
    requires ClientsFit(db, j, Committing)
    ensures SlotWrites(k, db.txs[j].writes) <= MAX_INFLIGHT
  {
    assert KeyOk(db, k) && WroteSoFar(db, j);
    forall i | 0 <= i < |db.clients| && db.clients[i].owner == j && db.clients[i].key == k && !db.clients[i].delta.DeleteLast?
      ensures HoldsLive(db.clients[i], k)
    {
      assert PhaseFits(Committing, db.clients[i]) && Mine(k, db.clients, i);
    }
    assert db.txs[j].writes[..|db.txs[j].at|] == db.txs[j].writes;
    OwnedHold(k, j, db.clients);
  }

  lemma OpenedByOther(db: Db, j: nat, k: Key)
    requires RunInv(db) && j < |db.txs| && db.txs[j].phase.Pushing? && Opened(db, k)
    ensures OtherCommitted(db, j, k)
  {
    assert KeyOk(db, k);
    OpenedByCommit(db, k);
    var i :| 0 <= i < |db.clients| && Finalizes(db.clients[i], k);
    assert PhaseFits(db.txs[db.clients[i].owner].phase, db.clients[i]);
  }

  lemma DecidingFollows(db: Db, j: nat, k: Key)
    requires RunInv(db) && j < |db.txs| && db.txs[j].phase.Pushing? && |db.txs[j].at| == |db.txs[j].writes|
    requires db.txs[j].at == [] || LastIs(db, db.txs[j], true)
    requires SlotWrites(k, db.txs[j].writes) > MAX_INFLIGHT
    ensures OtherCommitted(db, j, k)
  {
    PushedFit(db, j, true);
    if !Opened(db, k) {
      ReservedAreFew(db, j, k);
    }
    OpenedByOther(db, j, k);
  }

  lemma CommittedStays(db: Db, a: Action, i: nat)
    requires i < |db.clients| && db.clients[i].phase.Committed? && (a.FinishBlock? || a.UndoBlock? ==> Apply(db, a) == db)
    ensures i < |Apply(db, a).clients| && Apply(db, a).clients[i] == db.clients[i]
  {
  }

  /** Only its own decision turns a transaction that was not decided. */
  lemma DecidedBy(db: Db, a: Action, j: nat)
    requires RunInv(db) && j < |Apply(db, a).txs| && Decided(Apply(db, a).txs[j])
    ensures j < |db.txs| && Apply(db, a).txs[j].writes == db.txs[j].writes
    ensures a.FinishBlock? || a.UndoBlock? ==> Apply(db, a) == db
    ensures Decided(db.txs[j]) ||
      (db.txs[j].phase.Pushing? && |db.txs[j].at| == |db.txs[j].writes| && (db.txs[j].at == [] || LastIs(db, db.txs[j], true)))
  {
    if a.Advance? || a.Work? {
      StepsKeepTxs(db, a);
    }
  }

  lemma StepsKeepTxs(db: Db, a: Action)
    requires a.Advance? || a.Work?
    ensures Apply(db, a).txs == db.txs
  {
  }

  lemma ActionFollows(db: Db, a: Action, j: nat, k: Key)
    requires RunInv(db) && Followed(db, j, k)
    ensures Followed(Apply(db, a), j, k)
  {
    var db2 := Apply(db, a);
    if j < |db2.txs| && Decided(db2.txs[j]) && SlotWrites(k, db2.txs[j].writes) > MAX_INFLIGHT {
      DecidedBy(db, a, j);
      if !Decided(db.txs[j]) {
        DecidingFollows(db, j, k);
      }
      var i :| 0 <= i < |db.clients| && Finalizes(db.clients[i], k) && db.clients[i].owner != j;
      CommittedStays(db, a, i);
      assert Finalizes(db2.clients[i], k) && db2.clients[i].owner != j;
    }
  }

  lemma {:induction false} RunFollows(db: Db, actions: seq<Action>, j: nat, k: Key)
    requires RunInv(db) && Followed(db, j, k)
    ensures Followed(Execute(db, actions), j, k)
    decreases |actions|
  {
    if actions != [] {
      ApplyKeepsInv(db, actions[0]);
      ActionFollows(db, actions[0], j, k);
      RunFollows(Apply(db, actions[0]), actions[1..], j, k);
    }
  }

  /** In every run: a transaction that commits, or has committed, more than 256
      deltas that reserve one slot was preceded there by another's commit. */
  lemma LargeFollowsCommit(actions: seq<Action>, j: nat, k: Key)
    requires var db := Execute(GENESIS, actions);
      j < |db.txs| && Decided(db.txs[j]) && SlotWrites(k, db.txs[j].writes) > MAX_INFLIGHT
    ensures OtherCommitted(Execute(GENESIS, actions), j, k)
  {
    GenesisStarts();
    RunFollows(GENESIS, actions, j, k);
  }

  // ---- a transaction by itself ----

  predicate SucceedsBy(db: Db, j: nat, actions: seq<Action>) {
    AllBy(actions, j) && j < |Execute(db, actions).txs| && Execute(db, actions).txs[j].phase.Succeeded?
  }

  ghost predicate CanSucceed(db: Db, j: nat) { exists actions :: SucceedsBy(db, j, actions) }

  predicate WorksAt(db: Db, ws: seq<(Key, Delta)>, k: Key) { Opened(db, k) || SlotWrites(k, ws) <= MAX_INFLIGHT }

  /** Every slot that the writes reserve more than 256 times is final. */
  ghost predicate Works(db: Db, ws: seq<(Key, Delta)>) { forall k :: WorksAt(db, ws, k) }

  /** The transaction is about to start and no other is in progress. */
  predicate Alone(db: Db, j: nat) {
    && j < |db.txs| && db.txs[j].phase.Pushing? && db.txs[j].at == [] && HasRoom(db, j)
    && OthersDone(db, j)
  }

  predicate OthersDone(db: Db, j: nat) {
    forall x :: 0 <= x < |db.txs| && x != j ==> !InProgress(db.txs[x])
  }

  lemma {:induction false} LoadOfOne(k: Key, txs: seq<Tx>, n: nat, j: nat)
    requires n <= |txs| && j < |txs| && forall x :: 0 <= x < |txs| && x != j ==> !InProgress(txs[x])
    ensures Load(k, txs, n) <= SlotWrites(k, txs[j].writes) && (n <= j ==> Load(k, txs, n) == 0)
  {
    if n > 0 {
      LoadOfOne(k, txs, n - 1, j);
    }
    SumSign(Slots, AtKey(k, txs[j].writes));
  }

  lemma StuckIsLarge(db: Db, r: Db, block: seq<Tx>, j: nat, i: nat)
    requires RunInv(db) && RunInv(r) && Serving(r, block) && OnlyBy(db, r, j) && OthersDone(db, j)
    requires i < |r.clients| && Waits(ObjectAt(r, r.clients[i].key), r.clients[i])
    ensures !WorksAt(db, db.txs[j].writes, r.clients[i].key)
  {
    var k := r.clients[i].key;
    WaitingIsTrying(r, block, i);
    WaitingMeansLoad(r, i);
    LoadOfOne(k, r.txs, |r.txs|, j);
    assert KeyOk(db, k) && KeyOk(r, k);
    if Opened(db, k) {
      StaysOpened(db, r, j, k);
    }
  }

  /** Alone with a wrapped slot, a transaction is a jam by itself. */
  lemma StuckAloneIsJam(db: Db, block: seq<Tx>, j: nat, i: nat)
    requires RunInv(db) && Serving(db, block) && j < |db.txs| && OthersDone(db, j)
    requires i < |db.clients| && db.clients[i].owner == j && Waits(ObjectAt(db, db.clients[i].key), db.clients[i])
    ensures Jam(db, {db.clients[i].key})
  {
    var k := db.clients[i].key;
    WaitingIsTrying(db, block, i);
    assert HasWrite(db, i);
    var p :| Carries(db, j, p, i);
    assert p == |db.txs[j].at| - 1;
    assert Spins(db, j, {k});
    forall h | 0 <= h < |db.clients| && HoldsLive(db.clients[h], k)
      ensures Caught(db, db.clients[h].owner, {k})
    {
      HoldersInProgress(db, k, h);
    }
    assert JammedKey(db, {k}, k);
  }

  lemma SuccessWorks(db: Db, j: nat, actions: seq<Action>, k: Key)
    requires RunInv(db) && Alone(db, j) && SucceedsBy(db, j, actions)
    ensures WorksAt(db, db.txs[j].writes, k)
  {
    if SlotWrites(k, db.txs[j].writes) > MAX_INFLIGHT {
      RunOnlyBy(db, actions, j);
      RunFollows(db, actions, j, k);
      var r := Execute(db, actions);
      var i :| 0 <= i < |r.clients| && Finalizes(r.clients[i], k) && r.clients[i].owner != j;
      assert SameBut(db.clients[i], r.clients[i], j);
      assert KeyOk(db, k);
      OpenedByCommit(db, k);
    }
  }

  /** By itself, a transaction of the block either succeeds or jams its slot for
      ever: it succeeds if every slot that it reserves more than 256 times is
      final when it starts, and jams otherwise. */
  lemma AloneSucceedsOrJams(db: Db, block: seq<Tx>, j: nat) returns (actions: seq<Action>)
    requires RunInv(db) && Serving(db, block) && Alone(db, j)
    ensures AllBy(actions, j)
    ensures var r := Execute(db, actions);
      && RunInv(r) && Serving(r, block) && OnlyBy(db, r, j)
      && if Works(db, db.txs[j].writes) then r.txs[j].phase.Succeeded? else exists k :: Jam(r, {k})
  {
    actions := RunTx(db, block, j);
    var r := Execute(db, actions);
    if !NoneWaits(r, j) {
      var i :| 0 <= i < |r.clients| && r.clients[i].owner == j && Waits(ObjectAt(r, r.clients[i].key), r.clients[i]);
      StuckIsLarge(db, r, block, j, i);
      StuckAloneIsJam(r, block, j, i);
    } else {
      forall k
        ensures WorksAt(db, db.txs[j].writes, k)
      {
        SuccessWorks(db, j, actions, k);
      }
    }
  }

  /** The exact condition. */
  lemma AloneExactly(db: Db, block: seq<Tx>, j: nat)
    requires RunInv(db) && Serving(db, block) && Alone(db, j)
    ensures CanSucceed(db, j) <==> Works(db, db.txs[j].writes)
  {
    if CanSucceed(db, j) {
      var actions :| SucceedsBy(db, j, actions);
      forall k
        ensures WorksAt(db, db.txs[j].writes, k)
      {
        SuccessWorks(db, j, actions, k);
      }
    }
    if Works(db, db.txs[j].writes) {
      var actions := AloneSucceedsOrJams(db, block, j);
      assert SucceedsBy(db, j, actions);
    }
  }
}
