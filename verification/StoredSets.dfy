/** How a run comes by its first stored hash set. */
module StoredSets {
  import opened StorageTypes
  import opened HashSets
  import opened Objects
  import opened Database
  import opened Ledger

  function Writes(k: Key, d: Delta): seq<(Key, Delta)> { [(k, d)] }

  lemma ExecuteTwo(db: Db, a: Action, b: seq<Action>)
    ensures Execute(db, [a] + b) == Execute(Apply(db, a), b)
  {
    assert ([a] + b)[1..] == b;
  }

  lemma ExecuteOne(db: Db, a: Action)
    ensures Execute(db, [a]) == Apply(db, a)
  {
    ExecuteOneMore(db, [], a);
    assert [] + [a] == [a];
  }

  lemma FiveActions(db: Db, a: Action, b: Action, c: Action, d: Action, e: Action)
    ensures Execute(db, [a, b, c, d, e]) == Apply(Apply(Apply(Apply(Apply(db, a), b), c), d), e)
  {
    var d1 := Apply(db, a);
    var d2 := Apply(d1, b);
    var d3 := Apply(d2, c);
    var d4 := Apply(d3, d);
    assert [a, b, c, d, e] == [a] + [b, c, d, e] && [b, c, d, e] == [b] + [c, d, e];
    assert [c, d, e] == [c] + [d, e] && [d, e] == [d] + [e];
    ExecuteTwo(db, a, [b, c, d, e]);
    ExecuteTwo(d1, b, [c, d, e]);
    ExecuteTwo(d2, c, [d, e]);
    ExecuteTwo(d3, d, [e]);
    ExecuteOne(d4, e);
  }

  /** The object whose slot one set delta has reserved. */
  function Held(o: Obj): Obj { o.(slot := Slot(Some(HashSetClass), 1, false)) }

  // ---- the first block ----

  function Raise(n: uint32): Delta { HashSetIncreaseLimit(n) }

  function Raised(o: Obj, n: uint32): Obj { o.(sizeIncrease := n) }

  /** One transaction that raises the limit of the key, which has no value yet. */
  function Creating(k: Key, n: uint32): seq<Action> {
    [Submit(0, Writes(k, Raise(n)), {}), Push(0), Advance(0), Advance(0), Decide(0, true)]
  }

  function Storing(k: Key): seq<Action> { [Work(0, 0), Work(0, 0), Conclude(0), FinishBlock(map[k := []])] }

  function StoreSet(k: Key, n: uint32): seq<Action> { Creating(k, n) + Storing(k) }

  function Young(k: Key, n: uint32, o: Obj, c: Client, phase: TxPhase, modified: set<Key>): Db {
    Db(map[], map[k := o], [c], [Tx(0, Writes(k, Raise(n)), {}, [0], phase)], modified, 0)
  }

  lemma Starts(k: Key, n: uint32)
    ensures Apply(Apply(GENESIS, Submit(0, Writes(k, Raise(n)), {})), Push(0)) ==
      Young(k, n, Fresh(None), Client(k, 0, Raise(n), false, Trying), Pushing, {})
  {
    var c := Client(k, 0, Raise(n), false, Trying);
    var d1 := Apply(GENESIS, Submit(0, Writes(k, Raise(n)), {}));
    assert d1 == Db(map[], map[], [], [Tx(0, Writes(k, Raise(n)), {}, [], Pushing)], {}, 0);
    var d2 := Apply(d1, Push(0));
    assert d2 == PushWrite(d1, 0);
    assert d1.txs[0].at + [|d1.clients|] == [0] && d1.clients + [c] == [c];
    assert d2.txs == [Tx(0, Writes(k, Raise(n)), {}, [0], Pushing)];
  }

  lemma CreatingRuns(k: Key, n: uint32)
    ensures Execute(GENESIS, Creating(k, n)) ==
      Young(k, n, Raised(Held(Fresh(None)), n), Client(k, 0, Raise(n), true, Reserved), Committing, {})
  {
    var o, c := Fresh(None), Client(k, 0, Raise(n), false, Trying);
    FiveActions(GENESIS, Submit(0, Writes(k, Raise(n)), {}), Push(0), Advance(0), Advance(0), Decide(0, true));
    Starts(k, n);
    var d3 := Apply(Young(k, n, o, c, Pushing, {}), Advance(0));
    assert Next(o, c, Commit) == (Held(o), c.(phase := SlotHeld, live := true));
    assert d3 == Young(k, n, Held(o), c.(phase := SlotHeld, live := true), Pushing, {});
    var d4 := Apply(d3, Advance(0));
    assert d4 == Young(k, n, Raised(Held(o), n), c.(phase := Reserved, live := true), Pushing, {});
  }

  function Final(o: Obj): Obj { o.(slot := Slot(Some(HashSetClass), 1, true)) }

  lemma CommitsRaise(k: Key, n: uint32)
    ensures var o, c := Raised(Fresh(None), n), Client(k, 0, Raise(n), true, Reserved);
      Apply(Apply(Apply(Young(k, n, Held(o), c, Committing, {}), Work(0, 0)), Work(0, 0)), Conclude(0)) ==
        Young(k, n, Final(o), c.(phase := Committed), Succeeded, {k})
  {
    var o, c := Raised(Fresh(None), n), Client(k, 0, Raise(n), true, Reserved);
    var d1 := Apply(Young(k, n, Held(o), c, Committing, {}), Work(0, 0));
    assert d1 == Young(k, n, Held(o), c.(phase := CommitSlot), Committing, {});
    var d2 := Apply(d1, Work(0, 0));
    assert d2 == Young(k, n, Final(o), c.(phase := Committed), Committing, {});
    assert WrittenKeys(d2.txs[0]) == {k} by {
      assert (k, Raise(n)) in d2.txs[0].writes;
    }
  }

  function StoredSet(n: uint32): Option<StorageObject> {
    Some(HashSet([], Min(MAX_HASH_SET_SIZE, START_HASH_SET_SIZE + n)))
  }

  lemma FoldsToEmptySet(n: uint32)
    ensures CommitRound(Final(Raised(Fresh(None), n)), []).base == StoredSet(n)
  {
    var none: seq<Entry> := [];
    assert none + none == none && SortDescending(none) == none;
    assert FoldHashes(none, none, false, 0) == none;
  }

  lemma StoresEmptySet(k: Key, n: uint32)
    ensures var d := Young(k, n, Final(Raised(Fresh(None), n)), Client(k, 0, Raise(n), true, Committed), Succeeded, {k});
      Apply(d, FinishBlock(map[k := []])) == Db(map[k := Fresh(StoredSet(n))], map[], [], [], {}, 1)
  {
    var d := Young(k, n, Final(Raised(Fresh(None), n)), Client(k, 0, Raise(n), true, Committed), Succeeded, {k});
    FoldsToEmptySet(n);
    assert AllConcluded(d) && ListsTables(d, map[k := []]);
    assert FinishedMain(d, map[k := []]) == map[k := Fresh(StoredSet(n))];
  }

  lemma StoringRuns(d: Db, k: Key)
    ensures Execute(d, Storing(k)) ==
      Apply(Apply(Apply(Apply(d, Work(0, 0)), Work(0, 0)), Conclude(0)), FinishBlock(map[k := []]))
  {
    var d1 := Apply(d, Work(0, 0));
    var d2 := Apply(d1, Work(0, 0));
    var d3 := Apply(d2, Conclude(0));
    var end := FinishBlock(map[k := []]);
    assert Storing(k) == [Work(0, 0)] + [Work(0, 0), Conclude(0), end];
    assert [Work(0, 0), Conclude(0), end] == [Work(0, 0)] + [Conclude(0), end];
    assert [Conclude(0), end] == [Conclude(0)] + [end];
    ExecuteTwo(d, Work(0, 0), [Work(0, 0), Conclude(0), end]);
    ExecuteTwo(d1, Work(0, 0), [Conclude(0), end]);
    ExecuteTwo(d2, Conclude(0), [end]);
    ExecuteOne(d3, end);
  }

  /** After the first block the key holds an empty set with the raised limit. */
  lemma SetIsStored(k: Key, n: uint32)
    ensures Execute(GENESIS, StoreSet(k, n)) == Db(map[k := Fresh(StoredSet(n))], map[], [], [], {}, 1)
  {
    CreatingRuns(k, n);
    ExecuteSplits(GENESIS, Creating(k, n), Storing(k));
    StoringRuns(Execute(GENESIS, Creating(k, n)), k);
    CommitsRaise(k, n);
    StoresEmptySet(k, n);
  }
}
