/** Runs of the database: safety over every run, atomicity of transactions,
    and the plain map that the two-tier store refines. */
module DatabaseRuns {
  import opened StorageTypes
  import opened Objects
  import opened ObjectInvariant
  import opened Folds
  import opened ObjectRounds
  import opened Database
  import opened DatabaseInvariant

  // ---- who wrote what ----

  function Owned(j: nat, cs: seq<Client>): seq<(Key, Delta)> {
    if cs == [] then []
    else (if cs[0].owner == j then [(cs[0].key, cs[0].delta)] else []) + Owned(j, cs[1..])
  }

  lemma {:induction false} OwnedUpdate(j: nat, cs: seq<Client>, i: nat, c: Client)
    requires i < |cs| && c.key == cs[i].key && c.delta == cs[i].delta && c.owner == cs[i].owner
    ensures Owned(j, cs[i := c]) == Owned(j, cs)
  {
    if i == 0 {
      assert cs[0 := c] == [c] + cs[1..];
    } else {
      OwnedUpdate(j, cs[1..], i - 1, c);
      assert cs[i := c] == [cs[0]] + cs[1..][i - 1 := c];
    }
  }

  lemma {:induction false} OwnedAppend(j: nat, cs: seq<Client>, c: Client)
    ensures Owned(j, cs + [c]) == Owned(j, cs) + (if c.owner == j then [(c.key, c.delta)] else [])
  {
    if cs == [] {
      assert cs + [c] == [c];
    } else {
      OwnedAppend(j, cs[1..], c);
      assert cs + [c] == [cs[0]] + (cs[1..] + [c]);
    }
  }

  predicate WroteSoFar(db: Db, j: int) {
    && 0 <= j < |db.txs| && |db.txs[j].at| <= |db.txs[j].writes|
    && Owned(j, db.clients) == db.txs[j].writes[..|db.txs[j].at|]
  }

  /** The clients of a transaction carry its pushed writes, each exactly once. */
  ghost predicate OwnedOk(db: Db) {
    forall j :: 0 <= j < |db.txs| ==> WroteSoFar(db, j)
  }

  ghost predicate RunInv(db: Db) { DbInv(db) && OwnedOk(db) }

  lemma OwnedStep(db: Db, i: nat, choice: Choice)
    requires OwnedOk(db) && i < |db.clients|
    ensures OwnedOk(ClientStep(db, i, choice))
  {
    var c := db.clients[i];
    var db2 := ClientStep(db, i, choice);
    SameClient(ObjectAt(db, c.key), c, choice);
    forall j | 0 <= j < |db2.txs|
      ensures WroteSoFar(db2, j)
    {
      assert WroteSoFar(db, j);
      OwnedUpdate(j, db.clients, i, db2.clients[i]);
    }
  }

  lemma OwnedPush(db: Db, j: nat)
    requires OwnedOk(db) && j < |db.txs| && |db.txs[j].at| < |db.txs[j].writes|
    ensures OwnedOk(PushWrite(db, j))
  {
    var tx := db.txs[j];
    var w := tx.writes[|tx.at|];
    var c := Client(w.0, j, w.1, false, Trying);
    var db2 := PushWrite(db, j);
    assert db2.clients == db.clients + [c];
    forall x | 0 <= x < |db2.txs|
      ensures WroteSoFar(db2, x)
    {
      assert WroteSoFar(db, x);
      OwnedAppend(x, db.clients, c);
      if x == j {
        assert tx.writes[..|tx.at| + 1] == tx.writes[..|tx.at|] + [w];
      }
    }
  }

  lemma OwnedPhase(db: Db, j: nat, phase: TxPhase, modified: set<Key>)
    requires OwnedOk(db) && j < |db.txs|
    ensures OwnedOk(SetPhase(db, j, phase).(modified := modified))
  {
    forall x | 0 <= x < |db.txs|
      ensures WroteSoFar(SetPhase(db, j, phase).(modified := modified), x)
    {
      assert WroteSoFar(db, x);
    }
  }

  lemma {:induction false} OwnersBelow(db: Db, j: nat, cs: seq<Client>)
    requires forall i :: 0 <= i < |cs| ==> cs[i].owner < j
    ensures Owned(j, cs) == []
  {
    if cs != [] {
      OwnersBelow(db, j, cs[1..]);
    }
  }

  lemma OwnedSubmit(db: Db, tx: Tx)
    requires DbInv(db) && OwnedOk(db) && tx.at == []
    ensures OwnedOk(db.(txs := db.txs + [tx]))
  {
    var db2 := db.(txs := db.txs + [tx]);
    forall x | 0 <= x < |db2.txs|
      ensures WroteSoFar(db2, x)
    {
      if x < |db.txs| {
        assert WroteSoFar(db, x);
      } else {
        OwnersBelow(db, x, db.clients);
      }
    }
  }

  // ---- every action, every run ----

  lemma ClientActionKeeps(db: Db, i: nat, choice: Choice)
    requires RunInv(db) && i < |db.clients|
    requires PhaseFits(db.txs[db.clients[i].owner].phase,
                       Next(ObjectAt(db, db.clients[i].key), db.clients[i], choice).1)
    requires db.txs[db.clients[i].owner].phase.Pushing? ==> !db.clients[i].phase.Reserved?
    ensures RunInv(ClientStep(db, i, choice))
  {
    ClientStepKeeps(db, i, choice);
    OwnedStep(db, i, choice);
  }

  lemma SetPhaseActionKeeps(db: Db, j: nat, phase: TxPhase, modified: set<Key>)
    requires RunInv(db) && j < |db.txs| && !phase.Pushing? && ClientsFit(db, j, phase)
    requires phase.Succeeded? || phase.Committing? ==> |db.txs[j].at| == |db.txs[j].writes|
    requires db.modified <= modified && (phase.Succeeded? ==> WrittenKeys(db.txs[j]) <= modified)
    ensures RunInv(SetPhase(db, j, phase).(modified := modified))
  {
    SetPhaseKeeps(db, j, phase, modified);
    OwnedPhase(db, j, phase, modified);
  }

  lemma AdvanceKeeps(db: Db, j: nat)
    requires RunInv(db)
    ensures RunInv(Apply(db, Advance(j)))
  {
    if j < |db.txs| && db.txs[j].phase.Pushing? && db.txs[j].at != []
       && db.txs[j].at[|db.txs[j].at| - 1] < |db.clients|
       && !Settled(db.clients[db.txs[j].at[|db.txs[j].at| - 1]]) {
      var i := db.txs[j].at[|db.txs[j].at| - 1];
      assert Carries(db, j, |db.txs[j].at| - 1, i);
      ClientActionKeeps(db, i, Commit);
    }
  }

  lemma WorkKeeps(db: Db, j: nat, p: nat)
    requires RunInv(db)
    ensures RunInv(Apply(db, Work(j, p)))
  {
    if j < |db.txs| && p < |db.txs[j].at| && db.txs[j].at[p] < |db.clients|
       && (db.txs[j].phase.Committing? || db.txs[j].phase.Aborting?) {
      var i := db.txs[j].at[p];
      assert Carries(db, j, p, i);
      if db.txs[j].phase.Committing? {
        ClientActionKeeps(db, i, Commit);
      } else {
        ClientActionKeeps(db, i, Revert);
      }
    }
  }

  lemma ConcludeKeeps(db: Db, j: nat)
    requires RunInv(db) && j < |db.txs|
    ensures RunInv(ConcludeTx(db, j))
  {
    var tx := db.txs[j];
    if tx.phase.Committing? && AllAre(db, tx, true) {
      ConcludedFit(db, j, true);
      SetPhaseActionKeeps(db, j, Succeeded, db.modified + WrittenKeys(tx) + tx.loaded);
    } else if tx.phase.Aborting? && AllAre(db, tx, false) {
      ConcludedFit(db, j, false);
      SetPhaseActionKeeps(db, j, Failed, db.modified);
    }
  }

  lemma PhaseActionsKeep(db: Db, j: nat, accepted: bool)
    requires RunInv(db)
    ensures RunInv(Apply(db, Abandon(j))) && RunInv(Apply(db, Decide(j, accepted)))
  {
    if j < |db.txs| && db.txs[j].phase.Pushing? {
      if LastIs(db, db.txs[j], false) {
        PushedFit(db, j, false);
        SetPhaseActionKeeps(db, j, Aborting, db.modified);
      }
      if |db.txs[j].at| == |db.txs[j].writes| && (db.txs[j].at == [] || LastIs(db, db.txs[j], true)) {
        PushedFit(db, j, true);
        SetPhaseActionKeeps(db, j, if accepted then Committing else Aborting, db.modified);
      }
    }
  }

  lemma BlockActionsKeep(db: Db, listings: map<Key, seq<Entry>>)
    requires RunInv(db)
    ensures RunInv(Apply(db, FinishBlock(listings))) && RunInv(Apply(db, UndoBlock))
  {
    if AllConcluded(db) {
      if ListsTables(db, listings) {
        FinishBlockClean(db, listings);
        BlockStartInv(NextBlock(db, FinishedMain(db, listings)));
      }
      UndoBlockClean(db);
      BlockStartInv(NextBlock(db, RewoundMain(db)));
    }
  }

  lemma ApplyKeepsInv(db: Db, a: Action)
    requires RunInv(db)
    ensures RunInv(Apply(db, a))
  {
    match a
    case Submit(id, writes, loaded) =>
      SubmitKeeps(db, Tx(id, writes, loaded, [], Pushing));
      OwnedSubmit(db, Tx(id, writes, loaded, [], Pushing));
    case Push(j) =>
      if j < |db.txs| && db.txs[j].phase.Pushing? && |db.txs[j].at| < |db.txs[j].writes|
         && (db.txs[j].at == [] || LastIs(db, db.txs[j], true)) && |db.clients| < MAX_DELTAS {
        PushKeeps(db, j);
        OwnedPush(db, j);
      }
    case Advance(j) => AdvanceKeeps(db, j);
    case Abandon(j) => PhaseActionsKeep(db, j, true);
    case Decide(j, accepted) => PhaseActionsKeep(db, j, accepted);
    case Work(j, p) => WorkKeeps(db, j, p);
    case Conclude(j) =>
      if j < |db.txs| {
        ConcludeKeeps(db, j);
      }
    case FinishBlock(listings) => BlockActionsKeep(db, listings);
    case UndoBlock => BlockActionsKeep(db, map[]);
  }

  lemma GenesisStarts()
    ensures RunInv(GENESIS)
  {
    forall k
      ensures Fresher(GENESIS, k)
    {
      FreshIsClean(None);
      CleanKeyOk(GENESIS, k);
    }
    BlockStartInv(GENESIS);
  }

  /** Every state of every run satisfies the invariant. */
  lemma {:induction false} RunKeepsInv(db: Db, actions: seq<Action>)
    requires RunInv(db)
    ensures RunInv(Execute(db, actions))
    decreases |actions|
  {
    if actions != [] {
      ApplyKeepsInv(db, actions[0]);
      RunKeepsInv(Apply(db, actions[0]), actions[1..]);
    }
  }
}
