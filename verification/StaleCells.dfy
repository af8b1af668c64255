/** Dead cells survive from block to block. Transactions that reserve an insert
    and then fail leave tombstones, log no key, and so escape the clearing at
    the end of the block; enough of them and a stored set refuses every insert,
    although the insert fits it. */
module StaleCells {
  import opened StorageTypes
  import opened Objects
  import opened Folds
  import opened ObjectRounds
  import opened Database
  import opened Ledger
  import opened Schedules
  import opened StoredSets
  import Reservations

  // ---- one transaction that reserves an insert and fails ----

  function AbortOne(k: Key, e: Entry, j: nat): seq<Action> { Reserving(k, e, j) + Reverting(j) }

  /** A stored set with room below its limit and a usable cell. */
  predicate Takes(o: Obj, e: Entry) {
    && Clean(o) && o.base.Some? && o.base.value.HashSet?
    && e !in HashesOf(o.base) && |HashesOf(o.base)| < MaxSizeOf(o.base)
  }

  function Bury(o: Obj, n: nat): Obj { o.(table := o.table.(tombstones := o.table.tombstones + n)) }

  /** The database while the one new transaction stands at `phase`, its client
      at `c` and the object at `o`. */
  function Mid(db: Db, k: Key, o: Obj, c: Client, phase: TxPhase): Db {
    db.(main := db.main[k := o], clients := db.clients + [c],
        txs := db.txs + [Tx(|db.txs|, Writes(k, c.delta), {}, [|db.clients|], phase)])
  }

  lemma Begin(db: Db, k: Key, d: Delta)
    requires k in db.main && |db.clients| < MAX_DELTAS
    ensures var j := |db.txs|;
      Apply(Apply(db, Submit(j, Writes(k, d), {})), Push(j)) ==
        Mid(db, k, db.main[k], Client(k, j, d, false, Trying), Pushing)
  {
    var j := |db.txs|;
    var tx := Tx(j, Writes(k, d), {}, [], Pushing);
    var db1 := Apply(db, Submit(j, Writes(k, d), {}));
    assert db1.txs == db.txs + [tx] && db1.txs[j] == tx;
    var db2 := PushWrite(db1, j);
    assert tx.at + [|db.clients|] == [|db.clients|];
    assert db2.txs == db.txs + [tx.(at := [|db.clients|])];
    assert db2.main == db.main[k := db.main[k]];
  }

  lemma AdvanceMid(db: Db, k: Key, o: Obj, c: Client, o2: Obj, c2: Client)
    requires c.key == k && c2.delta == c.delta && !Settled(c) && Next(o, c, Commit) == (o2, c2)
    ensures Apply(Mid(db, k, o, c, Pushing), Advance(|db.txs|)) == Mid(db, k, o2, c2, Pushing)
  {
    var m := Mid(db, k, o, c, Pushing);
    var n := |db.clients|;
    assert m.clients[n] == c && m.txs[|db.txs|].at == [n];
    assert m.clients[n := c2] == db.clients + [c2];
    assert m.main[k := o2] == db.main[k := o2];
  }

  lemma DecideMid(db: Db, k: Key, o: Obj, c: Client, accepted: bool)
    requires c.phase.Reserved?
    ensures Apply(Mid(db, k, o, c, Pushing), Decide(|db.txs|, accepted)) ==
      Mid(db, k, o, c, if accepted then Committing else Aborting)
  {
    var m := Mid(db, k, o, c, Pushing);
    var tx := m.txs[|db.txs|];
    var phase := if accepted then Committing else Aborting;
    assert m.clients[|db.clients|] == c && LastIs(m, tx, true);
    assert m.txs[|db.txs| := tx.(phase := phase)] == db.txs + [tx.(phase := phase)];
  }

  lemma WorkMid(db: Db, k: Key, o: Obj, c: Client, o2: Obj, c2: Client)
    requires c.key == k && c2.delta == c.delta && Next(o, c, Revert) == (o2, c2)
    ensures Apply(Mid(db, k, o, c, Aborting), Work(|db.txs|, 0)) == Mid(db, k, o2, c2, Aborting)
  {
    var m := Mid(db, k, o, c, Aborting);
    var n := |db.clients|;
    assert m.clients[n] == c && m.txs[|db.txs|].at == [n];
    assert m.clients[n := c2] == db.clients + [c2];
    assert m.main[k := o2] == db.main[k := o2];
  }

  lemma ConcludeMid(db: Db, k: Key, o: Obj, c: Client)
    requires c.phase.Reverted?
    ensures Apply(Mid(db, k, o, c, Aborting), Conclude(|db.txs|)) == Mid(db, k, o, c, Failed)
  {
    var m := Mid(db, k, o, c, Aborting);
    var tx := m.txs[|db.txs|];
    assert m.clients[|db.clients|] == c && AllAre(m, tx, false);
    assert m.txs[|db.txs| := tx.(phase := Failed)] == db.txs + [tx.(phase := Failed)];
  }

  function Counting(o: Obj): Obj { Held(o).(newElements := 1) }

  lemma ReserveSteps(o: Obj, c: Client, e: Entry)
    requires Takes(o, e) && o.table.tombstones < o.table.capacity
    requires c.delta == HashSetInsert(e) && c.phase.Trying?
    ensures Next(o, c, Commit) == (Held(o), c.(phase := SlotHeld, live := true))
    ensures Next(Held(o), c.(phase := SlotHeld, live := true), Commit) == (Counting(o), c.(phase := Counted, live := true))
    ensures Next(Counting(o), c.(phase := Counted, live := true), Commit) ==
      (Counting(o).(table := TableInsert(o.table, e)), c.(phase := Reserved, live := true))
  {
  }

  lemma RevertSteps(o: Obj, c: Client, e: Entry)
    requires Takes(o, e) && c.delta == HashSetInsert(e) && c.phase.Reserved? && c.live
    ensures var full := Counting(o).(table := TableInsert(o.table, e));
      && Next(full, c, Revert) == (full.(newElements := 0), c.(phase := RevertMid))
      && Next(full.(newElements := 0), c.(phase := RevertMid), Revert) ==
           (Held(Bury(o, 1)), c.(phase := RevertSlot))
      && Next(Held(Bury(o, 1)), c.(phase := RevertSlot), Revert) == (Bury(o, 1), c.(phase := Reverted))
  {
    assert o.table.contents == {};
    assert TableErase(TableInsert(o.table, e), e) == Bury(o, 1).table by {
      assert {} + {e} - {e} == {};
    }
  }

  function Done(k: Key, e: Entry, j: nat): Client { Client(k, j, HashSetInsert(e), true, Reverted) }

  function Full(o: Obj, e: Entry): Obj { Counting(o).(table := TableInsert(o.table, e)) }

  function Holding(k: Key, e: Entry, j: nat): Client { Client(k, j, HashSetInsert(e), true, Reserved) }

  function Reserving(k: Key, e: Entry, j: nat): seq<Action> {
    [Submit(j, Writes(k, HashSetInsert(e)), {}), Push(j), Advance(j), Advance(j), Advance(j)]
  }

  function Reverting(j: nat): seq<Action> { [Decide(j, false), Work(j, 0), Work(j, 0), Work(j, 0), Conclude(j)] }

  lemma ReserveRuns(db: Db, k: Key, e: Entry)
    requires k in db.main && |db.clients| < MAX_DELTAS
    requires Takes(db.main[k], e) && db.main[k].table.tombstones < db.main[k].table.capacity
    ensures Execute(db, Reserving(k, e, |db.txs|)) ==
      Mid(db, k, Full(db.main[k], e), Holding(k, e, |db.txs|), Pushing)
  {
    var o, j := db.main[k], |db.txs|;
    var c := Client(k, j, HashSetInsert(e), false, Trying);
    FiveActions(db, Submit(j, Writes(k, HashSetInsert(e)), {}), Push(j), Advance(j), Advance(j), Advance(j));
    Begin(db, k, HashSetInsert(e));
    ReserveSteps(o, c, e);
    AdvanceMid(db, k, o, c, Held(o), c.(phase := SlotHeld, live := true));
    AdvanceMid(db, k, Held(o), c.(phase := SlotHeld, live := true), Counting(o), c.(phase := Counted, live := true));
    AdvanceMid(db, k, Counting(o), c.(phase := Counted, live := true), Full(o, e), Holding(k, e, j));
  }

  lemma RevertRuns(db: Db, k: Key, e: Entry, o: Obj)
    requires Takes(o, e)
    ensures Execute(Mid(db, k, Full(o, e), Holding(k, e, |db.txs|), Pushing), Reverting(|db.txs|)) ==
      Mid(db, k, Bury(o, 1), Done(k, e, |db.txs|), Failed)
  {
    var j := |db.txs|;
    var c, full := Holding(k, e, j), Full(o, e);
    FiveActions(Mid(db, k, full, c, Pushing), Decide(j, false), Work(j, 0), Work(j, 0), Work(j, 0), Conclude(j));
    DecideMid(db, k, full, c, false);
    RevertSteps(o, c, e);
    WorkMid(db, k, full, c, full.(newElements := 0), c.(phase := RevertMid));
    WorkMid(db, k, full.(newElements := 0), c.(phase := RevertMid), Held(Bury(o, 1)), c.(phase := RevertSlot));
    WorkMid(db, k, Held(Bury(o, 1)), c.(phase := RevertSlot), Bury(o, 1), Done(k, e, j));
    ConcludeMid(db, k, Bury(o, 1), Done(k, e, j));
  }

  lemma AbortOneRuns(db: Db, k: Key, e: Entry)
    requires k in db.main && |db.clients| < MAX_DELTAS
    requires Takes(db.main[k], e) && db.main[k].table.tombstones < db.main[k].table.capacity
    ensures Execute(db, AbortOne(k, e, |db.txs|)) ==
      Mid(db, k, Bury(db.main[k], 1), Done(k, e, |db.txs|), Failed)
  {
    ExecuteSplits(db, Reserving(k, e, |db.txs|), Reverting(|db.txs|));
    ReserveRuns(db, k, e);
    RevertRuns(db, k, e, db.main[k]);
  }

  // ---- many of them ----

  function Aborts(k: Key, e: Entry, j: nat, n: nat): seq<Action>
    decreases n
  {
    if n == 0 then [] else AbortOne(k, e, j) + Aborts(k, e, j + 1, n - 1)
  }

  predicate AllFailed(txs: seq<Tx>) { forall j :: 0 <= j < |txs| ==> txs[j].phase.Failed? }

  /** What one more failure leaves. */
  lemma AbortOneFacts(db: Db, k: Key, e: Entry, n: nat) returns (m: Db)
    requires k in db.main && |db.clients| < MAX_DELTAS && AllFailed(db.txs)
    requires Takes(db.main[k], e) && db.main[k].table.tombstones < db.main[k].table.capacity
    ensures m == Execute(db, AbortOne(k, e, |db.txs|))
    ensures k in m.main && m.main[k] == Bury(db.main[k], 1) && Takes(m.main[k], e)
    ensures |m.clients| == |db.clients| + 1 && |m.txs| == |db.txs| + 1 && AllFailed(m.txs)
    ensures m.cache == db.cache && m.modified == db.modified && m.block == db.block
    ensures m.main[k := Bury(m.main[k], n)] == db.main[k := Bury(db.main[k], n + 1)]
  {
    AbortOneRuns(db, k, e);
    m := Mid(db, k, Bury(db.main[k], 1), Done(k, e, |db.txs|), Failed);
  }

  lemma {:induction false} AbortsRun(db: Db, k: Key, e: Entry, n: nat)
    requires k in db.main && |db.clients| + n <= MAX_DELTAS && AllFailed(db.txs)
    requires Takes(db.main[k], e) && db.main[k].table.tombstones + n <= db.main[k].table.capacity
    ensures var r := Execute(db, Aborts(k, e, |db.txs|, n));
      && r.main == db.main[k := Bury(db.main[k], n)] && r.cache == db.cache
      && r.modified == db.modified && r.block == db.block && AllFailed(r.txs)
    decreases n
  {
    if n == 0 {
      assert Bury(db.main[k], 0) == db.main[k] && db.main[k := db.main[k]] == db.main;
    } else {
      var m := AbortOneFacts(db, k, e, n - 1);
      var rest := Aborts(k, e, |m.txs|, n - 1);
      ExecuteSplits(db, AbortOne(k, e, |db.txs|), rest);
      assert Execute(db, Aborts(k, e, |db.txs|, n)) == Execute(m, rest);
      AbortsRun(m, k, e, n - 1);
    }
  }

  /** A block of nothing but failures changes nothing but the dead cells. */
  lemma QuietBlockRuns(db: Db, k: Key, e: Entry, n: nat)
    requires k in db.main && db.clients == [] && db.txs == [] && db.modified == {} && n <= MAX_DELTAS
    requires forall x :: x in db.cache ==> x !in db.main
    requires Takes(db.main[k], e) && db.main[k].table.tombstones + n <= db.main[k].table.capacity
    ensures Execute(db, Aborts(k, e, 0, n) + [FinishBlock(map[])]) ==
      NextBlock(db, db.main[k := Bury(db.main[k], n)])
  {
    AbortsRun(db, k, e, n);
    var r := Execute(db, Aborts(k, e, 0, n));
    ExecuteOneMore(db, Aborts(k, e, 0, n), FinishBlock(map[]));
    assert AllConcluded(r) && ListsTables(r, map[]);
    assert FinishedMain(r, map[]) == r.main;
  }

  // ---- a set that refuses what fits it ----

  /** With every cell dead or taken, an insert is refused although it fits. */
  lemma FullTableRefuses(o: Obj, e: Entry)
    requires Takes(o, e)
    ensures Feasible(o.base, [HashSetInsert(e)])
    ensures Reservations.Reserve(o, HashSetInsert(e)).1.Denied? <==> !CellsFor(o.table, [HashSetInsert(e)])
  {
    assert [HashSetInsert(e)][1..] == [];
    forall p
      ensures Sum(p, [HashSetInsert(e)]) == PartOf(p, HashSetInsert(e))
    {
    }
  }

  lemma BuriedRefuses(o: Obj, e: Entry, n: nat)
    requires Takes(o, e) && o.table.tombstones + n == o.table.capacity
    ensures Clean(Bury(o, n)) && Bury(o, n).base == o.base && Feasible(o.base, [HashSetInsert(e)])
    ensures Reservations.Reserve(Bury(o, n), HashSetInsert(e)).1.Denied?
  {
    assert Takes(Bury(o, n), e);
    FullTableRefuses(Bury(o, n), e);
    assert [HashSetInsert(e)][1..] == [];
    assert Sum(Inserts, [HashSetInsert(e)]) == 1;
  }

  /** From any block on, a stored set with room can be brought to refuse every
      further insert by transactions that all fail. */
  lemma FailuresUseUpCells(db: Db, k: Key, e: Entry, later: Entry)
    requires k in db.main && db.clients == [] && db.txs == [] && db.modified == {}
    requires forall x :: x in db.cache ==> x !in db.main
    requires Takes(db.main[k], e) && Takes(db.main[k], later) && db.main[k].table.capacity <= MAX_DELTAS
    ensures var o := db.main[k];
      var n := o.table.capacity - o.table.tombstones;
      var r := Execute(db, Aborts(k, e, 0, n) + [FinishBlock(map[])]);
      && r.main == db.main[k := Bury(o, n)] && Clean(r.main[k]) && r.main[k].base == o.base
      && Feasible(r.main[k].base, [HashSetInsert(later)])
      && Reservations.Reserve(r.main[k], HashSetInsert(later)).1.Denied?
  {
    var o := db.main[k];
    var n := o.table.capacity - o.table.tombstones;
    QuietBlockRuns(db, k, e, n);
    BuriedRefuses(o, later, n);
  }

  // ---- reached from the empty database ----

  /** The run: store a set, let 76 inserts fail, end the block. */
  function Poisoning(k: Key, e: Entry): seq<Action> {
    StoreSet(k, 0) + (Aborts(k, e, 0, Alloc(START_HASH_SET_SIZE)) + [FinishBlock(map[])])
  }

  /** A reachable object, between two blocks, that fits an insert and refuses it:
      its set is empty, its limit is 64, and all its cells are dead. */
  lemma StaleTombstonesRefuse(k: Key, e: Entry, later: Entry)
    ensures var o := ObjectAt(Execute(GENESIS, Poisoning(k, e)), k);
      && Clean(o) && o.base == StoredSet(0) && o.table == Table({}, Alloc(START_HASH_SET_SIZE), Alloc(START_HASH_SET_SIZE))
      && Feasible(o.base, [HashSetInsert(later)])
      && Reservations.Reserve(o, HashSetInsert(later)).1.Denied?
  {
    var db := Db(map[k := Fresh(StoredSet(0))], map[], [], [], {}, 1);
    SetIsStored(k, 0);
    ExecuteSplits(GENESIS, StoreSet(k, 0), Aborts(k, e, 0, Alloc(START_HASH_SET_SIZE)) + [FinishBlock(map[])]);
    FreshIsClean(StoredSet(0));
    assert Takes(db.main[k], e) && Takes(db.main[k], later);
    FailuresUseUpCells(db, k, e, later);
  }
}
