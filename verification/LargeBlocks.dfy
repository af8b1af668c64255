/** A block that validates in one order and jams in the other. */
module LargeBlocks {
  import opened StorageTypes
  import opened HashSets
  import opened Objects
  import opened Folds
  import opened Database
  import opened DatabaseRuns
  import opened Ledger
  import opened Schedules
  import opened Proxies
  import opened LocalViews
  import opened BlockValidation
  import opened StoredSets
  import opened Jams
  import opened Progress
  import opened TxRuns
  import opened Orders

  function InsertWrites(k: Key, es: seq<Entry>): seq<(Key, Delta)> {
    if es == [] then [] else [(k, HashSetInsert(es[0]))] + InsertWrites(k, es[1..])
  }

  lemma {:induction false} InsertWritesAt(k: Key, es: seq<Entry>, x: Key)
    ensures |InsertWrites(k, es)| == |es| && AtKey(x, InsertWrites(k, es)) == if x == k then InsertsOf(es) else []
  {
    if es != [] {
      InsertWritesAt(k, es[1..], x);
      assert InsertWrites(k, es)[1..] == InsertWrites(k, es[1..]);
    }
  }

  lemma SlotsOfInserts(k: Key, es: seq<Entry>, x: Key)
    ensures SlotWrites(x, InsertWrites(k, es)) == if x == k then |es| else 0
  {
    InsertWritesAt(k, es, x);
    InsertsFacts(es, Slots);
  }

  /** A transaction of the block that inserts the entries. */
  function Inserting(id: nat, k: Key, es: seq<Entry>): Tx { Tx(id, InsertWrites(k, es), {k}, [], Succeeded) }

  /** One transaction inserts the first entry, another all the others. */
  function Small(k: Key, es: seq<Entry>): Tx
    requires es != []
  {
    Inserting(0, k, es[..1])
  }

  function Large(k: Key, es: seq<Entry>): Tx
    requires es != []
  {
    Inserting(1, k, es[1..])
  }

  lemma {:induction false} InsertsConcat(a: seq<Entry>, b: seq<Entry>)
    ensures InsertsOf(a + b) == InsertsOf(a) + InsertsOf(b)
  {
    if a == [] {
      assert a + b == b;
    } else {
      assert (a + b)[1..] == a[1..] + b;
      InsertsConcat(a[1..], b);
    }
  }

  lemma SubmittedTwo(x: Key, a: Tx, b: Tx)
    ensures Submitted(x, [a, b]) == AtKey(x, a.writes) + AtKey(x, b.writes)
  {
    assert [a, b][..1] == [a] && [a][..0] == [];
    assert Submitted(x, [a]) == [] + AtKey(x, a.writes);
  }

  lemma TwoSucceeded(x: Key, a: Tx, b: Tx)
    requires a.phase.Succeeded? && b.phase.Succeeded?
    ensures SucceededDeltas(x, [a, b]) == Submitted(x, [a, b]) == AtKey(x, a.writes) + AtKey(x, b.writes)
  {
    AllSucceeded(x, [a, b]);
    SubmittedTwo(x, a, b);
  }

  lemma BlockDeltas(k: Key, es: seq<Entry>, x: Key)
    requires es != []
    ensures var block := [Small(k, es), Large(k, es)];
      SucceededDeltas(x, block) == Submitted(x, block) == if x == k then InsertsOf(es) else []
  {
    var a, b := es[..1], es[1..];
    assert a + b == es;
    WritesTogether(k, a, b, x);
    TwoSucceeded(x, Inserting(0, k, a), Inserting(1, k, b));
  }

  lemma WritesTogether(k: Key, a: seq<Entry>, b: seq<Entry>, x: Key)
    ensures AtKey(x, InsertWrites(k, a)) + AtKey(x, InsertWrites(k, b)) == if x == k then InsertsOf(a + b) else []
  {
    InsertWritesAt(k, a, x);
    InsertWritesAt(k, b, x);
    InsertsConcat(a, b);
  }

  lemma InsertsDiffer(es: seq<Entry>)
    requires NoDuplicates(es)
    ensures DistinctInserts(InsertsOf(es)) && forall d :: d in InsertsOf(es) ==> d.HashSetInsert?
  {
    InsertsFacts(es, Slots);
    forall d | d in InsertsOf(es)
      ensures d.HashSetInsert?
    {
      var i :| 0 <= i < |es| && InsertsOf(es)[i] == d;
    }
  }

  lemma InsertSums(es: seq<Entry>)
    ensures Sum(Inserts, InsertsOf(es)) == |es| && Sum(Subtracted, InsertsOf(es)) == 0
    ensures Sum(AssetDown, InsertsOf(es)) == 0 && Sum(AssetUp, InsertsOf(es)) == 0
  {
    InsertsFacts(es, Inserts);
    InsertsFacts(es, Subtracted);
    InsertsFacts(es, AssetDown);
    InsertsFacts(es, AssetUp);
  }

  /** Distinct entries that fit an empty set can be inserted into it together. */
  lemma InsertsFit(es: seq<Entry>, n: uint32)
    requires NoDuplicates(es) && |es| <= START_HASH_SET_SIZE + n <= MAX_HASH_SET_SIZE
    ensures Feasible(StoredSet(n), InsertsOf(es)) && CellsFor(Fresh(StoredSet(n)).table, InsertsOf(es))
  {
    InsertSums(es);
    InsertsDiffer(es);
    SetTakes(InsertsOf(es), n);
  }

  lemma SetTakes(ds: seq<Delta>, n: uint32)
    requires DistinctInserts(ds) && forall d :: d in ds ==> d.HashSetInsert?
    requires 0 <= Sum(Inserts, ds) <= START_HASH_SET_SIZE + n <= MAX_HASH_SET_SIZE
    requires Sum(Subtracted, ds) == 0 && Sum(AssetDown, ds) == 0 && Sum(AssetUp, ds) == 0
    ensures Feasible(StoredSet(n), ds) && CellsFor(Fresh(StoredSet(n)).table, ds)
  {
  }

  lemma NothingFits(base: Option<StorageObject>, t: Table)
    ensures Feasible(base, []) && CellsFor(t, [])
  {
    AmountsInRange(base);
  }

  lemma AmountsInRange(base: Option<StorageObject>)
    ensures 0 <= AmountOf(base) <= UINT64_MAX
  {
  }

  /** Nothing is submitted yet, so everything is accounted for. */
  lemma NothingSubmitted(db: Db, block: seq<Tx>, x: Key)
    requires db.clients == [] && db.txs == []
    requires CellsFor(ObjectAt(db, x).table, SucceededDeltas(x, block)) && Feasible(Value(db, x), SucceededDeltas(x, block))
    ensures Planned(db, block, x) && Suits(db, block, x)
  {
    forall d
      ensures AccountedFor(db, x, d)
    {
    }
  }

  lemma BlockFits(db: Db, k: Key, es: seq<Entry>, n: uint32, x: Key)
    requires es != [] && NoDuplicates(es) && |es| <= START_HASH_SET_SIZE + n <= MAX_HASH_SET_SIZE
    requires db == Db(map[k := Fresh(StoredSet(n))], map[], [], [], {}, 1)
    ensures var ds := SucceededDeltas(x, [Small(k, es), Large(k, es)]);
      CellsFor(ObjectAt(db, x).table, ds) && Feasible(Value(db, x), ds)
  {
    BlockDeltas(k, es, x);
    if x == k {
      InsertsFit(es, n);
    } else {
      NothingFits(Value(db, x), ObjectAt(db, x).table);
    }
  }

  lemma BlockIsServed(k: Key, es: seq<Entry>, n: uint32)
    requires es != [] && NoDuplicates(es) && |es| <= START_HASH_SET_SIZE + n <= MAX_HASH_SET_SIZE
    ensures Serving(Db(map[k := Fresh(StoredSet(n))], map[], [], [], {}, 1), [Small(k, es), Large(k, es)])
  {
    var db := Db(map[k := Fresh(StoredSet(n))], map[], [], [], {}, 1);
    var block := [Small(k, es), Large(k, es)];
    forall x
      ensures Planned(db, block, x) && Suits(db, block, x)
    {
      BlockFits(db, k, es, n, x);
      NothingSubmitted(db, block, x);
    }
  }

  lemma BlockIsIdle(k: Key, es: seq<Entry>, n: uint32)
    requires es != [] && NoDuplicates(es) && |es| <= START_HASH_SET_SIZE + n <= MAX_HASH_SET_SIZE
    ensures var block := [Small(k, es), Large(k, es)]; Idle(Execute(GENESIS, StoreSet(k, n)), block, block)
  {
    var db := Execute(GENESIS, StoreSet(k, n));
    var block := [Small(k, es), Large(k, es)];
    SetIsStored(k, n);
    BlockIsServed(k, es, n);
    GenesisStarts();
    RunKeepsInv(GENESIS, StoreSet(k, n));
    assert db.txs + block == block;
    forall x
      ensures WithinAt(db, block, block, x)
    {
      BlockDeltas(k, es, x);
    }
    InsertWritesAt(k, es[..1], k);
    InsertWritesAt(k, es[1..], k);
    TwoWrites(Small(k, es), Large(k, es));
  }

  lemma TwoWrites(a: Tx, b: Tx)
    ensures TotalWrites([a, b]) == |a.writes| + |b.writes|
  {
    assert [a, b][1..] == [b] && [b][1..] == [];
    assert TotalWrites([b]) == |b.writes| + TotalWrites([b][1..]);
  }

  lemma SmallFirstWorks(db: Db, k: Key, es: seq<Entry>)
    requires es != []
    ensures OrderWorks(db, [Small(k, es), Large(k, es)])
  {
    var ts := [Small(k, es), Large(k, es)];
    forall i, x | 0 <= i < |ts|
      ensures OrderWorksAt(db, ts, i, x)
    {
      SlotsOfInserts(k, es[..1], x);
      SlotsOfInserts(k, es[1..], x);
      if i == 1 && x == k {
        assert SlotWrites(k, ts[0].writes) > 0;
        assert Earlier(k, ts, 1);
      }
    }
  }

  lemma LargeFirstDoesNot(db: Db, k: Key, es: seq<Entry>)
    requires |es| > MAX_INFLIGHT + 1 && !Opened(db, k)
    ensures !OrderWorks(db, [Large(k, es), Small(k, es)])
  {
    SlotsOfInserts(k, es[1..], k);
    assert !OrderWorksAt(db, [Large(k, es), Small(k, es)], 0, k);
  }

  lemma SmallFirst(db: Db, k: Key, es: seq<Entry>) returns (good: seq<Action>)
    requires es != [] && db.txs == []
    requires var block := [Small(k, es), Large(k, es)]; Idle(db, block, block)
    ensures var block := [Small(k, es), Large(k, es)];
      && AllValidate(db, block, good) && AllConcluded(Execute(db, good)) && Serving(Execute(db, good), block)
      && AlikeWrites(Execute(db, good).txs, block)
  {
    var block := [Small(k, es), Large(k, es)];
    SmallFirstWorks(db, k, es);
    good := RunOrder(db, block, block);
    assert db.txs + block == block;
  }

  lemma LargeFirst(db: Db, k: Key, es: seq<Entry>) returns (bad: seq<Action>)
    requires |es| > MAX_INFLIGHT + 1 && !Opened(db, k)
    requires var block := [Small(k, es), Large(k, es)]; Idle(db, block, block)
    ensures AllValidate(db, [Small(k, es), Large(k, es)], bad) && RunInv(Execute(db, bad))
    ensures exists x :: Jam(Execute(db, bad), {x})
  {
    var block, other := [Small(k, es), Large(k, es)], [Large(k, es), Small(k, es)];
    assert multiset(other) == multiset(block);
    IdlePermutes(db, block, block, other);
    LargeFirstDoesNot(db, k, es);
    bad := RunOrder(db, block, other);
  }

  /** A reachable database that holds an empty set with room for 264 entries, and
      a block of two transactions, one with a single insert and one with more
      than 256, all different and all fitting. In that order both succeed; in
      the other order the large one jams the slot of the set, for ever. */
  lemma OrderDecides(k: Key, es: seq<Entry>) returns (good: seq<Action>, bad: seq<Action>)
    requires NoDuplicates(es) && MAX_INFLIGHT + 1 < |es| <= 264
    ensures var db, block := Execute(GENESIS, StoreSet(k, 200)), [Small(k, es), Large(k, es)];
      && AllValidate(db, block, good) && AllConcluded(Execute(db, good)) && Serving(Execute(db, good), block)
      && AlikeWrites(Execute(db, good).txs, block)
      && AllValidate(db, block, bad) && RunInv(Execute(db, bad)) && exists x :: Jam(Execute(db, bad), {x})
  {
    BlockIsIdle(k, es, 200);
    SetIsStored(k, 200);
    good := SmallFirst(Execute(GENESIS, StoreSet(k, 200)), k, es);
    bad := LargeFirst(Execute(GENESIS, StoreSet(k, 200)), k, es);
  }
}
