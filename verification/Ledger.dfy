/** The two-tier store refines a plain map: an accepted block folds the writes
    of its successful transactions into each key, everything else changes no
    stored value, and a failed transaction leaves nothing behind. */
module Ledger {
  import opened StorageTypes
  import opened Objects
  import opened ObjectInvariant
  import opened Folds
  import opened ObjectRounds
  import opened Database
  import opened DatabaseInvariant
  import opened DatabaseRuns

  function AtKey(k: Key, ws: seq<(Key, Delta)>): seq<Delta> {
    if ws == [] then [] else (if ws[0].0 == k then [ws[0].1] else []) + AtKey(k, ws[1..])
  }

  /** The deltas that the successful transactions of a block wrote to a key. */
  function SucceededDeltas(k: Key, txs: seq<Tx>): seq<Delta> {
    if txs == [] then []
    else
      var last := txs[|txs| - 1];
      SucceededDeltas(k, txs[..|txs| - 1]) + (if last.phase.Succeeded? then AtKey(k, last.writes) else [])
  }

  // ---- grouping the committed clients by transaction ----

  function CommittedBelow(k: Key, cs: seq<Client>, n: nat): seq<Delta> {
    if cs == [] then []
    else (if cs[0].key == k && cs[0].phase.Committed? && cs[0].owner < n then [cs[0].delta] else [])
         + CommittedBelow(k, cs[1..], n)
  }

  function CommittedBy(k: Key, cs: seq<Client>, j: nat): seq<Delta> {
    if cs == [] then []
    else (if cs[0].key == k && cs[0].phase.Committed? && cs[0].owner == j then [cs[0].delta] else [])
         + CommittedBy(k, cs[1..], j)
  }

  lemma {:induction false} SplitOwner(k: Key, cs: seq<Client>, n: nat)
    ensures multiset(CommittedBelow(k, cs, n + 1)) == multiset(CommittedBelow(k, cs, n)) + multiset(CommittedBy(k, cs, n))
  {
    if cs != [] {
      SplitOwner(k, cs[1..], n);
    }
  }

  lemma {:induction false} AllBelow(k: Key, cs: seq<Client>, n: nat)
    requires forall i :: 0 <= i < |cs| ==> cs[i].owner < n
    ensures CommittedBelow(k, cs, n) == CommittedDeltas(k, cs)
  {
    if cs != [] {
      AllBelow(k, cs[1..], n);
    }
  }

  lemma {:induction false} NoneBelow(k: Key, cs: seq<Client>)
    ensures CommittedBelow(k, cs, 0) == []
  {
    if cs != [] {
      NoneBelow(k, cs[1..]);
    }
  }

  lemma {:induction false} CommittedByOwner(k: Key, cs: seq<Client>, j: nat, all: bool)
    requires forall i :: 0 <= i < |cs| && cs[i].owner == j ==> cs[i].phase.Committed? == all
    ensures CommittedBy(k, cs, j) == if all then AtKey(k, Owned(j, cs)) else []
  {
    if cs != [] {
      CommittedByOwner(k, cs[1..], j, all);
      if cs[0].owner == j {
        assert Owned(j, cs)[1..] == Owned(j, cs[1..]);
      } else {
        assert Owned(j, cs) == Owned(j, cs[1..]);
      }
    }
  }

  lemma CommittedByTx(db: Db, k: Key, j: nat)
    requires RunInv(db) && AllConcluded(db) && j < |db.txs|
    ensures CommittedBy(k, db.clients, j) == if db.txs[j].phase.Succeeded? then AtKey(k, db.txs[j].writes) else []
  {
    assert WroteSoFar(db, j);
    assert db.txs[j].writes[..|db.txs[j].writes|] == db.txs[j].writes;
    forall i | 0 <= i < |db.clients| && db.clients[i].owner == j
      ensures db.clients[i].phase.Committed? == db.txs[j].phase.Succeeded?
    {
      assert PhaseFits(db.txs[j].phase, db.clients[i]);
    }
    CommittedByOwner(k, db.clients, j, db.txs[j].phase.Succeeded?);
  }

  lemma {:induction false} GroupedByTx(k: Key, cs: seq<Client>, txs: seq<Tx>, n: nat)
    requires n <= |txs|
    requires forall j :: 0 <= j < |txs| ==>
      CommittedBy(k, cs, j) == if txs[j].phase.Succeeded? then AtKey(k, txs[j].writes) else []
    ensures multiset(CommittedBelow(k, cs, n)) == multiset(SucceededDeltas(k, txs[..n]))
  {
    if n == 0 {
      NoneBelow(k, cs);
    } else {
      GroupedByTx(k, cs, txs, n - 1);
      SplitOwner(k, cs, n - 1);
      assert txs[..n][..n - 1] == txs[..n - 1];
    }
  }

  /** What objects committed is exactly what successful transactions wrote. */
  lemma CommittedAreSucceeded(db: Db, k: Key)
    requires RunInv(db) && AllConcluded(db)
    ensures multiset(CommittedDeltas(k, db.clients)) == multiset(SucceededDeltas(k, db.txs))
  {
    forall j | 0 <= j < |db.txs|
      ensures CommittedBy(k, db.clients, j) == if db.txs[j].phase.Succeeded? then AtKey(k, db.txs[j].writes) else []
    {
      CommittedByTx(db, k, j);
    }
    GroupedByTx(k, db.clients, db.txs, |db.txs|);
    AllBelow(k, db.clients, |db.txs|);
    assert db.txs[..|db.txs|] == db.txs;
  }

  // ---- the refinement ----

  lemma CommittedOneClass(db: Db, k: Key)
    requires DbInv(db)
    ensures OneClass(CommittedDeltas(k, db.clients))
  {
    assert KeyOk(db, k);
    CommittedAgree(k, ObjectAt(db, k), db.clients);
  }

  lemma FoldByTransactions(db: Db, k: Key, r: Option<StorageObject>)
    requires RunInv(db) && AllConcluded(db) && FoldsTo(Value(db, k), CommittedDeltas(k, db.clients), r)
    ensures FoldsTo(Value(db, k), SucceededDeltas(k, db.txs), r)
  {
    CommittedAreSucceeded(db, k);
    CommittedOneClass(db, k);
    FoldPermutes(Value(db, k), CommittedDeltas(k, db.clients), SucceededDeltas(k, db.txs), r);
  }

  lemma AcceptedBlockFolds(db: Db, listings: map<Key, seq<Entry>>, k: Key)
    requires RunInv(db) && AllConcluded(db) && ListsTables(db, listings)
    ensures FoldsTo(Value(db, k), SucceededDeltas(k, db.txs), Value(NextBlock(db, FinishedMain(db, listings)), k))
  {
    FinishKey(db, listings, k);
    FoldByTransactions(db, k, Value(NextBlock(db, FinishedMain(db, listings)), k));
  }

  lemma ClientStepValue(db: Db, i: nat, choice: Choice, k: Key)
    requires DbInv(db) && i < |db.clients|
    ensures Value(ClientStep(db, i, choice), k) == Value(db, k)
  {
    var c := db.clients[i];
    assert Mine(c.key, db.clients, i) && KeyOk(db, c.key);
    StepKeepsInv(c.key, ObjectAt(db, c.key), db.clients, i, choice);
  }

  /** The action accepts the block. */
  predicate Accepts(db: Db, a: Action) {
    a.FinishBlock? && AllConcluded(db) && ListsTables(db, a.listings)
  }

  /** No action but a submission changes who writes what within a block. */
  lemma SameWrites(db: Db, a: Action)
    requires !a.Submit?
    ensures var db2 := Apply(db, a);
      || (db2.txs == [] && db2.block == db.block + 1)
      || (db2.block == db.block && |db2.txs| == |db.txs|
       && forall j :: 0 <= j < |db.txs| ==> db2.txs[j].writes == db.txs[j].writes && db2.txs[j].id == db.txs[j].id)
  {
  }

  /** The step of the plain map that an action stands for. */
  ghost predicate LedgerStep(db: Db, a: Action, db2: Db) {
    forall k ::
      if Accepts(db, a)
      then FoldsTo(Value(db, k), SucceededDeltas(k, db.txs), Value(db2, k))
      else Value(db2, k) == Value(db, k)
  }

  lemma AdvanceValue(db: Db, j: nat, k: Key)
    requires RunInv(db)
    ensures Value(Apply(db, Advance(j)), k) == Value(db, k)
  {
    if Apply(db, Advance(j)) != db {
      ClientStepValue(db, db.txs[j].at[|db.txs[j].at| - 1], Commit, k);
    }
  }

  lemma WorkValue(db: Db, j: nat, p: nat, k: Key)
    requires RunInv(db)
    ensures Value(Apply(db, Work(j, p)), k) == Value(db, k)
  {
    if Apply(db, Work(j, p)) != db {
      ClientStepValue(db, db.txs[j].at[p], if db.txs[j].phase.Committing? then Commit else Revert, k);
    }
  }

  lemma QuietActionValue(db: Db, a: Action, k: Key)
    requires RunInv(db) && !a.FinishBlock?
    ensures Value(Apply(db, a), k) == Value(db, k)
  {
    match a
    case Advance(j) => AdvanceValue(db, j, k);
    case Work(j, p) => WorkValue(db, j, p, k);
    case UndoBlock =>
      if AllConcluded(db) {
        UndoKey(db, k);
      }
    case _ =>
  }

  lemma ActionRefinesLedger(db: Db, a: Action)
    requires RunInv(db)
    ensures LedgerStep(db, a, Apply(db, a))
  {
    forall k
      ensures if Accepts(db, a)
              then FoldsTo(Value(db, k), SucceededDeltas(k, db.txs), Value(Apply(db, a), k))
              else Value(Apply(db, a), k) == Value(db, k)
    {
      if Accepts(db, a) {
        AcceptedBlockFolds(db, a.listings, k);
      } else if !a.FinishBlock? {
        QuietActionValue(db, a, k);
      }
    }
  }

  /** In every run, each action is a step of the plain map, and at the start of
      every block no object holds a reservation or a table entry. */
  lemma RunRefinesLedger(actions: seq<Action>, n: nat)
    requires n < |actions|
    ensures var db := Execute(GENESIS, actions[..n]);
      && Execute(GENESIS, actions[..n + 1]) == Apply(db, actions[n])
      && LedgerStep(db, actions[n], Apply(db, actions[n]))
  {
    GenesisStarts();
    RunKeepsInv(GENESIS, actions[..n]);
    ExecuteOneMore(GENESIS, actions[..n], actions[n]);
    assert actions[..n] + [actions[n]] == actions[..n + 1];
    ActionRefinesLedger(Execute(GENESIS, actions[..n]), actions[n]);
  }

  lemma {:induction false} ExecuteSplits(db: Db, a: seq<Action>, b: seq<Action>)
    ensures Execute(db, a + b) == Execute(Execute(db, a), b)
    decreases |a|
  {
    if a == [] {
      assert a + b == b;
    } else {
      assert (a + b)[1..] == a[1..] + b;
      ExecuteSplits(Apply(db, a[0]), a[1..], b);
    }
  }

  lemma {:induction false} ExecuteOneMore(db: Db, actions: seq<Action>, a: Action)
    ensures Execute(db, actions + [a]) == Apply(Execute(db, actions), a)
    decreases |actions|
  {
    if actions == [] {
      assert actions + [a] == [a];
    } else {
      ExecuteOneMore(Apply(db, actions[0]), actions[1..], a);
      assert (actions + [a])[1..] == actions[1..] + [a];
    }
  }

  /** When a block ends, accepted or not, no table of the database holds an
      entry, so resetting the entry allocator dangles nothing. */
  lemma NoDanglingEntries(actions: seq<Action>, end: Action, k: Key)
    requires end.FinishBlock? || end.UndoBlock?
    ensures var db := Execute(GENESIS, actions);
      AllConcluded(db) && (end.FinishBlock? ==> ListsTables(db, end.listings)) ==>
        var db2 := Apply(db, end);
        ObjectAt(db2, k).table.contents == {} && Clean(ObjectAt(db2, k)) && db2.cache == map[]
  {
    GenesisStarts();
    RunKeepsInv(GENESIS, actions);
    var db := Execute(GENESIS, actions);
    if AllConcluded(db) {
      if end.FinishBlock? {
        if ListsTables(db, end.listings) {
          FinishKey(db, end.listings, k);
        }
      } else {
        UndoKey(db, k);
      }
    }
  }

  // ---- atomicity of transactions ----

  function Withdrawn(c: Client): Client { c.(live := false, phase := Trying) }

  /** The clients as they would be had transaction `j` not started. */
  function WithoutTx(cs: seq<Client>, j: nat): seq<Client> {
    if cs == [] then []
    else [if cs[0].owner == j then Withdrawn(cs[0]) else cs[0]] + WithoutTx(cs[1..], j)
  }

  lemma {:induction false} WithoutTxAt(cs: seq<Client>, j: nat)
    ensures |WithoutTx(cs, j)| == |cs|
    ensures forall i :: 0 <= i < |cs| ==>
      WithoutTx(cs, j)[i] == if cs[i].owner == j then Withdrawn(cs[i]) else cs[i]
  {
    if cs != [] {
      WithoutTxAt(cs[1..], j);
    }
  }

  lemma {:induction false} WithoutTxTotals(m: Measure, k: Key, cs: seq<Client>, j: nat)
    requires forall i :: 0 <= i < |cs| && cs[i].owner == j ==> cs[i].phase.Reverted? || cs[i].phase.Refused?
    ensures Total(m, k, WithoutTx(cs, j)) == Total(m, k, cs)
  {
    if cs != [] {
      WithoutTxTotals(m, k, cs[1..], j);
      assert WithoutTx(cs, j)[1..] == WithoutTx(cs[1..], j);
      assert Val(m, k, WithoutTx(cs, j)[0]) == Val(m, k, cs[0]);
    }
  }

  lemma WithoutTxAlike(k: Key, cs: seq<Client>, j: nat)
    requires forall i :: Mine(k, cs, i) ==> ValidPhase(cs[i])
    requires forall i :: 0 <= i < |cs| && cs[i].owner == j ==> cs[i].phase.Reverted? || cs[i].phase.Refused?
    ensures Alike(k, cs, WithoutTx(cs, j))
  {
    WithoutTxAt(cs, j);
    forall m
      ensures Total(m, k, WithoutTx(cs, j)) == Total(m, k, cs)
    {
      WithoutTxTotals(m, k, cs, j);
    }
  }

  /** A transaction that failed, however many deltas it had reserved and
      whatever ran beside it, leaves every object exactly as the other
      transactions account for it. */
  lemma FailedLeavesNothing(actions: seq<Action>, j: nat, k: Key)
    requires var db := Execute(GENESIS, actions); j < |db.txs| && db.txs[j].phase.Failed?
    ensures var db := Execute(GENESIS, actions); Inv(k, ObjectAt(db, k), WithoutTx(db.clients, j))
  {
    GenesisStarts();
    RunKeepsInv(GENESIS, actions);
    var db := Execute(GENESIS, actions);
    assert KeyOk(db, k);
    forall i | 0 <= i < |db.clients| && db.clients[i].owner == j
      ensures db.clients[i].phase.Reverted? || db.clients[i].phase.Refused?
    {
      assert PhaseFits(db.txs[j].phase, db.clients[i]);
    }
    WithoutTxAlike(k, db.clients, j);
    AlikeInv(k, ObjectAt(db, k), db.clients, WithoutTx(db.clients, j));
  }

  /** A transaction that succeeded has committed every one of its writes. */
  lemma SucceededIsComplete(actions: seq<Action>, j: nat)
    requires var db := Execute(GENESIS, actions); j < |db.txs| && db.txs[j].phase.Succeeded?
    ensures var db := Execute(GENESIS, actions);
      && Owned(j, db.clients) == db.txs[j].writes
      && forall i :: 0 <= i < |db.clients| && db.clients[i].owner == j ==> db.clients[i].phase.Committed?
  {
    GenesisStarts();
    RunKeepsInv(GENESIS, actions);
    var db := Execute(GENESIS, actions);
    assert WroteSoFar(db, j);
    assert db.txs[j].writes[..|db.txs[j].writes|] == db.txs[j].writes;
    forall i | 0 <= i < |db.clients| && db.clients[i].owner == j
      ensures db.clients[i].phase.Committed?
    {
      assert PhaseFits(db.txs[j].phase, db.clients[i]);
    }
  }
}
