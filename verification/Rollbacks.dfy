/** Exactly when a transaction that gives up gets rid of its reservations. */
module Rollbacks {
  import opened Objects
  import opened ObjectInvariant
  import opened Database
  import opened DatabaseRuns
  import opened Progress
  import opened TxRuns

  predicate MayLeave(db: Db, i: nat)
    requires i < |db.clients|
  {
    HoldsLive(db.clients[i], db.clients[i].key) ==> !Wrapped(ObjectAt(db, db.clients[i].key).slot)
  }

  /** The transaction holds no reservation of a slot whose count has wrapped. */
  predicate FreeToLeave(db: Db, j: nat) {
    forall i :: 0 <= i < |db.clients| && db.clients[i].owner == j ==> MayLeave(db, i)
  }

  predicate FailsBy(db: Db, j: nat, actions: seq<Action>) {
    AllBy(actions, j) && j < |Execute(db, actions).txs| && Execute(db, actions).txs[j].phase.Failed?
  }

  ghost predicate CanFail(db: Db, j: nat) { exists actions :: FailsBy(db, j, actions) }

  // ---- steps of a rollback ----

  /** A step of a rollback wraps no slot and takes no reservation. */
  lemma BackStep(db: Db, j: nat, i: nat)
    requires RunInv(db) && j < |db.txs| && db.txs[j].phase.Aborting? && i < |db.clients| && db.clients[i].owner == j
    ensures var (o, c) := (ObjectAt(db, db.clients[i].key), db.clients[i]);
      var (o2, c2) := Next(o, c, Revert);
      && c2.key == c.key && c2.owner == c.owner && (Wrapped(o2.slot) ==> Wrapped(o.slot))
      && (HoldsLive(c2, c.key) ==> HoldsLive(c, c.key))
      && (Wrapped(o.slot) ==> o2.slot == o.slot && (HoldsLive(c, c.key) ==> HoldsLive(c2, c.key)))
  {
    var c := db.clients[i];
    assert KeyOk(db, c.key) && Mine(c.key, db.clients, i) && PhaseFits(Aborting, c);
    StepKeepsInv(c.key, ObjectAt(db, c.key), db.clients, i, Revert);
  }

  lemma BackStepFrees(db: Db, j: nat, i: nat)
    requires RunInv(db) && j < |db.txs| && db.txs[j].phase.Aborting? && i < |db.clients| && db.clients[i].owner == j
    requires FreeToLeave(db, j)
    ensures FreeToLeave(ClientStep(db, i, Revert), j)
  {
    var db2 := ClientStep(db, i, Revert);
    BackStep(db, j, i);
    forall h | 0 <= h < |db2.clients| && db2.clients[h].owner == j
      ensures MayLeave(db2, h)
    {
      assert MayLeave(db, h);
    }
  }

  lemma FreeMeansNoneWaits(db: Db, j: nat)
    requires RunInv(db) && j < |db.txs| && db.txs[j].phase.Aborting? && FreeToLeave(db, j)
    ensures NoneWaits(db, j)
  {
    forall i | 0 <= i < |db.clients| && db.clients[i].owner == j
      ensures !Waits(ObjectAt(db, db.clients[i].key), db.clients[i])
    {
      var c := db.clients[i];
      assert MayLeave(db, i) && KeyOk(db, c.key) && Mine(c.key, db.clients, i) && PhaseFits(Aborting, c);
    }
  }

  /** One action of a rollback is a step of one of its clients or its end. */
  lemma BackAction(db: Db, j: nat, a: Action)
    requires RunInv(db) && j < |db.txs| && db.txs[j].phase.Aborting? && By(a, j)
    ensures var db2 := Apply(db, a);
      || db2 == db
      || (exists i :: 0 <= i < |db.clients| && db.clients[i].owner == j && db2 == ClientStep(db, i, Revert))
      || (AllAre(db, db.txs[j], false) && db2 == SetPhase(db, j, Failed))
  {
    if a.Work? && a.position < |db.txs[j].at| {
      assert Carries(db, j, a.position, db.txs[j].at[a.position]);
    }
  }

  lemma ActionFrees(db: Db, j: nat, a: Action)
    requires RunInv(db) && j < |db.txs| && db.txs[j].phase.Aborting? && By(a, j) && FreeToLeave(db, j)
    ensures var m := Apply(db, a);
      FreeToLeave(m, j) && j < |m.txs| && (m.txs[j].phase.Aborting? || m.txs[j].phase.Failed?)
  {
    var m := Apply(db, a);
    BackAction(db, j, a);
    if m == db {
    } else if m == SetPhase(db, j, Failed) {
      PhaseKeepsFree(db, j);
    } else {
      var i :| 0 <= i < |db.clients| && db.clients[i].owner == j && m == ClientStep(db, i, Revert);
      BackStepFrees(db, j, i);
    }
  }

  lemma PhaseKeepsFree(db: Db, j: nat)
    requires j < |db.txs| && FreeToLeave(db, j)
    ensures FreeToLeave(SetPhase(db, j, Failed), j)
  {
    var m := SetPhase(db, j, Failed);
    forall i | 0 <= i < |m.clients| && m.clients[i].owner == j
      ensures MayLeave(m, i)
    {
      assert MayLeave(db, i);
    }
  }

  lemma {:induction false} RollBack(db: Db, j: nat) returns (actions: seq<Action>)
    requires RunInv(db) && j < |db.txs| && FreeToLeave(db, j)
    requires db.txs[j].phase.Aborting? || db.txs[j].phase.Failed?
    ensures FailsBy(db, j, actions)
    decreases Ahead(db, j)
  {
    assert WroteSoFar(db, j);
    if db.txs[j].phase.Failed? {
      actions := [];
    } else {
      FreeMeansNoneWaits(db, j);
      var a := EndingMoves(db, j);
      var m := Apply(db, a);
      ApplyKeepsInv(db, a);
      ActionFrees(db, j, a);
      assert WroteSoFar(m, j);
      var rest := RollBack(m, j);
      actions := [a] + rest;
      assert actions[1..] == rest;
    }
  }

  // ---- a rollback that cannot end ----

  predicate Trapped(db: Db, j: nat, i: nat) {
    && j < |db.txs| && db.txs[j].phase.Aborting? && i < |db.clients| && db.clients[i].owner == j
    && HoldsLive(db.clients[i], db.clients[i].key) && Wrapped(ObjectAt(db, db.clients[i].key).slot)
  }

  lemma TrappedIsNotDone(db: Db, j: nat, i: nat)
    requires RunInv(db) && Trapped(db, j, i)
    ensures !AllAre(db, db.txs[j], false)
  {
    assert HasWrite(db, i);
    var p :| Carries(db, j, p, i);
    assert db.txs[j].at[p] == i;
  }

  lemma StepKeepsTrapped(db: Db, j: nat, i: nat, h: nat)
    requires RunInv(db) && Trapped(db, j, i) && h < |db.clients| && db.clients[h].owner == j
    ensures Trapped(ClientStep(db, h, Revert), j, i)
  {
    BackStep(db, j, h);
  }

  lemma StaysTrapped(db: Db, j: nat, i: nat, a: Action)
    requires RunInv(db) && Trapped(db, j, i) && By(a, j)
    ensures Trapped(Apply(db, a), j, i)
  {
    BackAction(db, j, a);
    TrappedIsNotDone(db, j, i);
    if Apply(db, a) != db {
      var h :| 0 <= h < |db.clients| && db.clients[h].owner == j && Apply(db, a) == ClientStep(db, h, Revert);
      StepKeepsTrapped(db, j, i, h);
    }
  }

  lemma {:induction false} TrappedForGood(db: Db, j: nat, i: nat, actions: seq<Action>)
    requires RunInv(db) && Trapped(db, j, i) && AllBy(actions, j)
    ensures Trapped(Execute(db, actions), j, i)
    decreases |actions|
  {
    if actions != [] {
      StaysTrapped(db, j, i, actions[0]);
      ApplyKeepsInv(db, actions[0]);
      TrappedForGood(Apply(db, actions[0]), j, i, actions[1..]);
    }
  }

  /** By its own steps, a transaction that gives up finishes its rollback if and
      only if none of the slots it holds has a wrapped count. */
  lemma RollbackExactly(db: Db, j: nat)
    requires RunInv(db) && j < |db.txs| && db.txs[j].phase.Aborting?
    ensures CanFail(db, j) <==> FreeToLeave(db, j)
  {
    if CanFail(db, j) && !FreeToLeave(db, j) {
      var actions :| FailsBy(db, j, actions);
      var i :| 0 <= i < |db.clients| && db.clients[i].owner == j && !MayLeave(db, i);
      TrappedForGood(db, j, i, actions);
    }
    if FreeToLeave(db, j) {
      var actions := RollBack(db, j);
    }
  }
}
