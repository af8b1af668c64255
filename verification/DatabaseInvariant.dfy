/** Every action keeps the database invariant. */
module DatabaseInvariant {
  import opened StorageTypes
  import opened HashSets
  import opened Objects
  import opened ObjectInvariant
  import opened Folds
  import opened ObjectRounds
  import opened Database

  // ---- one atomic operation of one client ----

  /** A step keeps the key, the delta and the owner of its client. */
  lemma SameClient(o: Obj, c: Client, choice: Choice)
    ensures var c2 := Next(o, c, choice).1; c2.key == c.key && c2.delta == c.delta && c2.owner == c.owner
  {
    match c.phase
    case SlotHeld => assert CountStep(o, c).1.key == c.key;
    case Reserved => assert CommitStep(o, c).1.key == c.key && RevertStep(o, c).1.key == c.key;
    case _ =>
  }

  lemma KeyAfterStep(db: Db, i: nat, choice: Choice, k: Key)
    requires KeyOk(db, k) && i < |db.clients|
    ensures KeyOk(ClientStep(db, i, choice), k)
  {
    var c := db.clients[i];
    SameClient(ObjectAt(db, c.key), c, choice);
    if k == c.key {
      assert Mine(k, db.clients, i);
      StepKeepsInv(k, ObjectAt(db, k), db.clients, i, choice);
    } else {
      ForeignKeepsInv(k, ObjectAt(db, k), db.clients, i, Next(ObjectAt(db, c.key), c, choice).1);
    }
  }

  lemma ObjectStep(db: Db, i: nat, choice: Choice)
    requires ObjectsOk(db) && i < |db.clients|
    ensures ObjectsOk(ClientStep(db, i, choice))
  {
    forall k
      ensures KeyOk(ClientStep(db, i, choice), k)
    {
      KeyAfterStep(db, i, choice, k);
    }
    SameClient(ObjectAt(db, db.clients[i].key), db.clients[i], choice);
  }

  /** Links survive any change that keeps every carried write. */
  lemma LinksFollow(db: Db, db2: Db)
    requires LinksOk(db) && |db2.txs| == |db.txs| && |db2.clients| == |db.clients|
    requires forall i :: 0 <= i < |db.clients| ==>
      db2.clients[i].key == db.clients[i].key && db2.clients[i].delta == db.clients[i].delta
      && db2.clients[i].owner == db.clients[i].owner
    requires forall j :: 0 <= j < |db.txs| ==>
      db2.txs[j].at == db.txs[j].at && db2.txs[j].writes == db.txs[j].writes
      && (db2.txs[j].phase.Succeeded? || db2.txs[j].phase.Committing? ==> |db.txs[j].at| == |db.txs[j].writes|)
    ensures LinksOk(db2)
  {
    forall j, p | 0 <= j < |db2.txs| && 0 <= p < |db2.txs[j].at|
      ensures Carries(db2, j, p, db2.txs[j].at[p])
    {
      assert Carries(db, j, p, db.txs[j].at[p]);
    }
    forall i | 0 <= i < |db2.clients|
      ensures HasWrite(db2, i)
    {
      assert HasWrite(db, i);
      var p :| Carries(db, db.clients[i].owner, p, i);
      assert Carries(db2, db2.clients[i].owner, p, i);
    }
  }

  lemma ClientStepKeeps(db: Db, i: nat, choice: Choice)
    requires DbInv(db) && i < |db.clients|
    requires PhaseFits(db.txs[db.clients[i].owner].phase, ClientStep(db, i, choice).clients[i])
    requires db.txs[db.clients[i].owner].phase.Pushing? ==> !db.clients[i].phase.Reserved?
    ensures DbInv(ClientStep(db, i, choice))
  {
    var db2 := ClientStep(db, i, choice);
    ObjectStep(db, i, choice);
    SameClient(ObjectAt(db, db.clients[i].key), db.clients[i], choice);
    LinksFollow(db, db2);
  }

  lemma SameObjects(db: Db, db2: Db)
    requires ObjectsOk(db) && db2.main == db.main && db2.cache == db.cache && db2.clients == db.clients
    ensures ObjectsOk(db2)
  {
    forall k
      ensures KeyOk(db2, k)
    {
      assert KeyOk(db, k);
    }
  }

  // ---- pushing a write ----

  lemma KeyAfterPush(db: Db, j: nat, k: Key)
    requires KeyOk(db, k) && j < |db.txs| && |db.txs[j].at| < |db.txs[j].writes|
    ensures KeyOk(PushWrite(db, j), k)
  {
    var w := db.txs[j].writes[|db.txs[j].at|];
    var db2 := PushWrite(db, j);
    assert ObjectAt(db2, k) == ObjectAt(db, k);
    SpawnKeepsInv(k, ObjectAt(db, k), db.clients, Client(w.0, j, w.1, false, Trying));
  }

  lemma PushObjects(db: Db, j: nat)
    requires ObjectsOk(db) && j < |db.txs| && |db.txs[j].at| < |db.txs[j].writes|
    ensures ObjectsOk(PushWrite(db, j))
  {
    forall k
      ensures KeyOk(PushWrite(db, j), k)
    {
      KeyAfterPush(db, j, k);
    }
  }

  lemma PushLinks(db: Db, db2: Db, j: nat, c: Client)
    requires LinksOk(db) && j < |db.txs| && |db.txs[j].at| < |db.txs[j].writes| && db.txs[j].phase.Pushing?
    requires c.owner == j && db.txs[j].writes[|db.txs[j].at|] == (c.key, c.delta)
    requires db2.clients == db.clients + [c]
    requires db2.txs == db.txs[j := db.txs[j].(at := db.txs[j].at + [|db.clients|])]
    ensures LinksOk(db2)
  {
    assert Carries(db2, j, |db.txs[j].at|, |db.clients|);
    forall x, p | 0 <= x < |db2.txs| && 0 <= p < |db2.txs[x].at|
      ensures Carries(db2, x, p, db2.txs[x].at[p])
    {
      if x != j || p < |db.txs[j].at| {
        assert Carries(db, x, p, db.txs[x].at[p]);
      }
    }
    forall i | 0 <= i < |db2.clients|
      ensures HasWrite(db2, i)
    {
      if i < |db.clients| {
        assert HasWrite(db, i);
        var p :| Carries(db, db.clients[i].owner, p, i);
        assert Carries(db2, db2.clients[i].owner, p, i);
      }
    }
  }

  lemma PushKeeps(db: Db, j: nat)
    requires DbInv(db) && j < |db.txs| && |db.txs[j].at| < |db.txs[j].writes| && db.txs[j].phase.Pushing?
    requires db.txs[j].at == [] || LastIs(db, db.txs[j], true)
    requires |db.clients| < MAX_DELTAS
    ensures DbInv(PushWrite(db, j))
  {
    PushObjects(db, j);
    var w := db.txs[j].writes[|db.txs[j].at|];
    var c := Client(w.0, j, w.1, false, Trying);
    var db2 := PushWrite(db, j);
    PushLinks(db, db2, j, c);
  }

  // ---- changes of a transaction's phase ----

  /** All clients of the transaction fit the phase it moves to. */
  ghost predicate ClientsFit(db: Db, j: int, phase: TxPhase) {
    forall i :: 0 <= i < |db.clients| && db.clients[i].owner == j ==> PhaseFits(phase, db.clients[i])
  }

  lemma SetPhaseKeeps(db: Db, j: nat, phase: TxPhase, modified: set<Key>)
    requires DbInv(db) && j < |db.txs| && !phase.Pushing? && ClientsFit(db, j, phase)
    requires phase.Succeeded? || phase.Committing? ==> |db.txs[j].at| == |db.txs[j].writes|
    requires db.modified <= modified && (phase.Succeeded? ==> WrittenKeys(db.txs[j]) <= modified)
    ensures DbInv(SetPhase(db, j, phase).(modified := modified))
  {
    var db2 := SetPhase(db, j, phase).(modified := modified);
    LinksFollow(db, db2);
    SameObjects(db, db2);
  }

  /** When the last pushed delta is settled, so are all the others. */
  lemma PushedFit(db: Db, j: nat, reserved: bool)
    requires LinksOk(db) && PhasesOk(db) && j < |db.txs| && db.txs[j].phase.Pushing?
    requires LastIs(db, db.txs[j], reserved) || (reserved && db.txs[j].at == [])
    ensures ClientsFit(db, j, Aborting)
    ensures reserved ==> ClientsFit(db, j, Committing)
  {
    forall i | 0 <= i < |db.clients| && db.clients[i].owner == j
      ensures PhaseFits(Aborting, db.clients[i])
      ensures reserved ==> PhaseFits(Committing, db.clients[i])
    {
      assert HasWrite(db, i);
      var p :| Carries(db, j, p, i);
      assert db.txs[j].at[p] == i;
    }
  }

  lemma ConcludedFit(db: Db, j: nat, committed: bool)
    requires LinksOk(db) && j < |db.txs| && AllAre(db, db.txs[j], committed)
    ensures ClientsFit(db, j, if committed then Succeeded else Failed)
  {
    forall i | 0 <= i < |db.clients| && db.clients[i].owner == j
      ensures PhaseFits(if committed then Succeeded else Failed, db.clients[i])
    {
      assert HasWrite(db, i);
      var p :| Carries(db, j, p, i);
      assert db.txs[j].at[p] == i;
    }
  }

  lemma SubmitKeeps(db: Db, tx: Tx)
    requires DbInv(db) && tx.at == [] && tx.phase.Pushing?
    ensures DbInv(db.(txs := db.txs + [tx]))
  {
    var db2 := db.(txs := db.txs + [tx]);
    forall x, p | 0 <= x < |db2.txs| && 0 <= p < |db2.txs[x].at|
      ensures Carries(db2, x, p, db2.txs[x].at[p])
    {
      assert Carries(db, x, p, db.txs[x].at[p]);
    }
    forall i | 0 <= i < |db2.clients|
      ensures HasWrite(db2, i)
    {
      assert HasWrite(db, i);
      var p :| Carries(db, db.clients[i].owner, p, i);
      assert Carries(db2, db2.clients[i].owner, p, i);
    }
    SameObjects(db, db2);
  }

  // ---- the end of a block ----

  lemma ConcludedQuiescent(db: Db, k: Key)
    requires PhasesOk(db) && AllConcluded(db)
    ensures Quiescent(k, db.clients)
  {
    forall i | Mine(k, db.clients, i)
      ensures Finished(db.clients[i])
    {
      assert PhaseFits(db.txs[db.clients[i].owner].phase, db.clients[i]);
    }
  }

  /** A committed delta belongs to a transaction that succeeded and logged it. */
  lemma CommittedIsLogged(db: Db, i: nat)
    requires LinksOk(db) && PhasesOk(db) && LoggedOk(db) && AllConcluded(db)
    requires i < |db.clients| && db.clients[i].phase.Committed?
    ensures db.clients[i].key in db.modified
  {
    var j := db.clients[i].owner;
    assert HasWrite(db, i);
    var p :| Carries(db, j, p, i);
    assert db.txs[j].writes[p] in db.txs[j].writes;
    assert db.txs[j].writes[p].0 in WrittenKeys(db.txs[j]);
  }

  lemma UnloggedIsIdle(db: Db, k: Key)
    requires LinksOk(db) && PhasesOk(db) && LoggedOk(db) && AllConcluded(db)
    requires k !in db.modified || (ObjectsOk(db) && k !in db.main && k !in db.cache)
    ensures NoneCommitted(k, db.clients) && CommittedDeltas(k, db.clients) == []
  {
    forall i | Mine(k, db.clients, i)
      ensures !db.clients[i].phase.Committed?
    {
      if db.clients[i].phase.Committed? {
        CommittedIsLogged(db, i);
      }
    }
    NoneCommittedNoDeltas(k, db.clients);
  }

  lemma {:induction false} NoneCommittedNoDeltas(k: Key, cs: seq<Client>)
    requires NoneCommitted(k, cs)
    ensures CommittedDeltas(k, cs) == []
  {
    if cs != [] {
      forall i | Mine(k, cs[1..], i)
        ensures !cs[1..][i].phase.Committed?
      {
        assert Mine(k, cs, i + 1);
      }
      NoneCommittedNoDeltas(k, cs[1..]);
      assert Mine(k, cs, 0) || cs[0].key != k;
    }
  }

  /** What the end of a block leaves at one key. */
  ghost predicate Fresher(db: Db, k: Key) {
    KeyOk(db, k) && Clean(ObjectAt(db, k))
  }

  lemma CleanKeyOk(db: Db, k: Key)
    requires db.clients == [] && Clean(ObjectAt(db, k)) && ValidBase(ObjectAt(db, k).base)
    requires k in db.main <==> ObjectAt(db, k).base.Some?
    ensures Fresher(db, k)
  {
    CleanStarts(k, ObjectAt(db, k), db.clients);
  }

  /** An accepted block turns each stored value into the fold of the deltas
      committed to its key, and leaves no reservation behind. */
  lemma FinishKey(db: Db, listings: map<Key, seq<Entry>>, k: Key)
    requires DbInv(db) && AllConcluded(db) && ListsTables(db, listings)
    ensures var db2 := NextBlock(db, FinishedMain(db, listings));
      && FoldsTo(Value(db, k), CommittedDeltas(k, db.clients), Value(db2, k))
      && Fresher(db2, k)
  {
    var db2 := NextBlock(db, FinishedMain(db, listings));
    var o := ObjectAt(db, k);
    assert KeyOk(db, k);
    ConcludedQuiescent(db, k);
    if k in db.modified && (k in db.main || k in db.cache) {
      CommitRoundFolds(k, o, db.clients, listings[k]);
      CommitRoundIsClean(o, listings[k]);
      FreshIsClean(CommitRound(o, listings[k]).base);
    } else {
      UnloggedIsIdle(db, k);
      QuiescentIdleIsClean(k, o, db.clients);
    }
    FinishedObject(db, listings, k);
    FreshIsClean(None);
    CleanKeyOk(db2, k);
  }

  lemma FinishedObject(db: Db, listings: map<Key, seq<Entry>>, k: Key)
    ensures var db2 := NextBlock(db, FinishedMain(db, listings));
      var r := CommitRound(ObjectAt(db, k), Listing(listings, k));
      && (k in db.modified && (k in db.main || k in db.cache) ==>
            (k in db2.main <==> r.base.Some?)
            && (k in db2.main ==> db2.main[k] == if k in db.main then r else Fresh(r.base)))
      && (k !in db.modified ==> (k in db2.main <==> k in db.main) && (k in db.main ==> db2.main[k] == db.main[k]))
      && (k !in db.main && k !in db.cache ==> k !in db2.main)
      && db2.cache == map[] && db2.clients == []
  {
  }

  /** A rejected block changes no stored value and leaves no reservation behind. */
  lemma UndoKey(db: Db, k: Key)
    requires DbInv(db) && AllConcluded(db)
    ensures var db2 := NextBlock(db, RewoundMain(db));
      Value(db2, k) == Value(db, k) && Fresher(db2, k)
  {
    var db2 := NextBlock(db, RewoundMain(db));
    var o := ObjectAt(db, k);
    assert KeyOk(db, k);
    ConcludedQuiescent(db, k);
    if k in db.modified {
      RewindRoundIsClean(o);
    } else {
      UnloggedIsIdle(db, k);
      QuiescentIdleIsClean(k, o, db.clients);
    }
    FreshIsClean(None);
    CleanKeyOk(db2, k);
  }

  /** At the start of a block every object is free of reservations. */
  ghost predicate BlockStart(db: Db) {
    db.clients == [] && db.txs == [] && db.cache == map[] && forall k :: Fresher(db, k)
  }

  lemma BlockStartInv(db: Db)
    requires BlockStart(db)
    ensures DbInv(db)
  {
    forall k
      ensures KeyOk(db, k)
    {
      assert Fresher(db, k);
    }
  }

  lemma FinishBlockClean(db: Db, listings: map<Key, seq<Entry>>)
    requires DbInv(db) && AllConcluded(db) && ListsTables(db, listings)
    ensures BlockStart(NextBlock(db, FinishedMain(db, listings)))
  {
    forall k
      ensures Fresher(NextBlock(db, FinishedMain(db, listings)), k)
    {
      FinishKey(db, listings, k);
    }
  }

  lemma UndoBlockClean(db: Db)
    requires DbInv(db) && AllConcluded(db)
    ensures BlockStart(NextBlock(db, RewoundMain(db)))
  {
    forall k
      ensures Fresher(NextBlock(db, RewoundMain(db)), k)
    {
      UndoKey(db, k);
    }
  }
}
