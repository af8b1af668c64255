/** Replay safety. A transaction that records itself in the replay cache takes
    effect at most once over a whole run of blocks, in any interleaving, with
    accepted and rejected blocks mixed.

    `rk` is the key of the cache. A transaction's `id` stands for its invoked
    hash, which nothing else shares, and `expiry(id)` for the expiration time it
    passes, which the hash covers. */
module Replay {
  import opened StorageTypes
  import opened HashSets
  import opened Objects
  import opened ObjectInvariant
  import opened Folds
  import opened ObjectRounds
  import opened Schedules
  import opened Database
  import opened DatabaseInvariant
  import opened DatabaseRuns
  import opened Ledger
  import opened Proxies

  datatype SdkCall = RecordSelf | IncreaseLimit(amount: uint32)

  /** One call of the cache's library; `None` is an abort. */
  function SdkStep(p: Proxy, call: SdkCall, self: Entry, block: uint64): Option<Proxy> {
    match call
    case IncreaseLimit(n) => TryApply(p, HashSetIncreaseLimit(n))
    case RecordSelf =>
      var q := TryApply(p, HashSetInsert(self));
      if q.None? || self.index < block then None
      else TryApply(q.value, HashSetClear(block))
  }

  function SdkCalls(p: Proxy, calls: seq<SdkCall>, self: Entry, block: uint64): Option<Proxy>
    decreases |calls|
  {
    if calls == [] then Some(p)
    else
      var q := SdkStep(p, calls[0], self, block);
      if q.None? then None else SdkCalls(q.value, calls[1..], self, block)
  }

  /** All that library code ever writes to the cache. */
  predicate CacheDelta(d: Delta, self: Entry, block: nat) {
    || d.HashSetIncreaseLimit?
    || (d == HashSetInsert(self) && self.index >= block)
    || (d.HashSetClear? && d.threshold == block)
  }

  predicate CacheProxy(p: Proxy, self: Entry, block: uint64) {
    && !p.deleted && p.memoryWrite.None? && p.intDelta.None? && p.assetDelta.None?
    && (p.newHashes == [] || (p.newHashes == [self] && self.index >= block))
    && (p.clearThreshold.Some? ==> p.clearThreshold.value == block)
    && (p.newHashes != [] ==> p.clearThreshold.Some?)
    && (p.clearThreshold.Some? ==> p.newHashes != [])
    && (p.newHashes != [] ==> p.current.Some?)
  }

  /** The transaction's own entry shows up, or its clear already covers it. */
  predicate OwnEntryCounts(p: Proxy, self: Entry, block: uint64) {
    self in p.newHashes ==> self in HashesOf(p.current) || block >= self.index
  }

  lemma RecordKeeps(p: Proxy, self: Entry, block: uint64)
    requires CacheProxy(p, self, block) && OwnEntryCounts(p, self, block) && SdkStep(p, RecordSelf, self, block).Some?
    ensures var q := SdkStep(p, RecordSelf, self, block).value;
      CacheProxy(q, self, block) && OwnEntryCounts(q, self, block) && q.newHashes == [self]
  {
    assert p.newHashes == [];
    var inserted := TryApply(p, HashSetInsert(self)).value;
    assert inserted == ApplyInsert(p, self).value && inserted.newHashes == [self];
    InsertKeepsMembers(HashesOf(p.current), self);
    var q := TryApply(inserted, HashSetClear(block)).value;
    assert q == ApplyClear(inserted, block) && q.clearThreshold == Some(block);
    KeepAboveMembers(HashesOf(inserted.current), block);
  }

  lemma SdkStepKeeps(p: Proxy, call: SdkCall, self: Entry, block: uint64)
    requires CacheProxy(p, self, block) && SdkStep(p, call, self, block).Some?
    requires OwnEntryCounts(p, self, block)
    ensures var q := SdkStep(p, call, self, block).value;
      && CacheProxy(q, self, block)
      && OwnEntryCounts(q, self, block)
      && (call.RecordSelf? ==> q.newHashes == [self])
      && (call.IncreaseLimit? ==> q.newHashes == p.newHashes)
  {
    if call.RecordSelf? {
      RecordKeeps(p, self, block);
    }
  }

  lemma {:induction false} InsertMember(e: Entry, s: seq<Entry>)
    ensures e in InsertDescending(e, s) && forall x :: x in s ==> x in InsertDescending(e, s)
  {
    if s != [] && Above(s[0], e) {
      InsertMember(e, s[1..]);
      assert s == [s[0]] + s[1..];
    }
  }

  lemma {:induction false} InsertKeepsMembers(s: seq<Entry>, e: Entry)
    ensures e in SortDescending(s + [e])
  {
    if s == [] {
      assert s + [e] == [e];
      InsertMember(e, []);
    } else {
      InsertKeepsMembers(s[1..], e);
      assert (s + [e])[1..] == s[1..] + [e];
      InsertMember(s[0], SortDescending(s[1..] + [e]));
    }
  }

  lemma {:induction false} SdkCallsKeep(p: Proxy, calls: seq<SdkCall>, self: Entry, block: uint64)
    requires CacheProxy(p, self, block) && SdkCalls(p, calls, self, block).Some?
    requires OwnEntryCounts(p, self, block)
    ensures var q := SdkCalls(p, calls, self, block).value;
      CacheProxy(q, self, block) && (RecordSelf in calls || p.newHashes != [] <==> q.newHashes != [])
    decreases |calls|
  {
    if calls != [] {
      SdkStepKeeps(p, calls[0], self, block);
      SdkCallsKeep(SdkStep(p, calls[0], self, block).value, calls[1..], self, block);
    }
  }

  /** Library calls push nothing to the cache but what it expects, and an insert
      of the transaction itself exactly when it recorded itself. */
  lemma SdkDeltas(base: Option<StorageObject>, calls: seq<SdkCall>, self: Entry, block: uint64)
    requires SdkCalls(Open(base), calls, self, block).Some?
    ensures var ds := GetDeltas(SdkCalls(Open(base), calls, self, block).value);
      && (forall d :: d in ds ==> CacheDelta(d, self, block))
      && (HashSetInsert(self) in ds <==> RecordSelf in calls)
  {
    SdkCallsKeep(Open(base), calls, self, block);
    var q := SdkCalls(Open(base), calls, self, block).value;
    assert InsertsOf([self]) == [HashSetInsert(self)] by {
      assert [self][1..] == [];
    }
  }

  // ---- runs ----

  function Self(id: nat, expiry: nat -> uint64): Entry { Entry(id, expiry(id)) }

  ghost predicate WritesBy(db: Db, rk: Key, expiry: nat -> uint64, id: nat, writes: seq<(Key, Delta)>, calls: seq<SdkCall>) {
    && db.block <= UINT64_MAX
    && var p := SdkCalls(Open(Value(db, rk)), calls, Self(id, expiry), db.block);
       p.Some? && AtKey(rk, writes) == GetDeltas(p.value)
  }

  /** A submitted transaction touches the cache only through its library. */
  ghost predicate Obeys(db: Db, rk: Key, expiry: nat -> uint64, a: Action) {
    a.Submit? ==> exists calls :: WritesBy(db, rk, expiry, a.id, a.writes, calls)
  }

  ghost predicate AllObey(db: Db, rk: Key, expiry: nat -> uint64, actions: seq<Action>)
    decreases |actions|
  {
    actions == [] || (Obeys(db, rk, expiry, actions[0]) && AllObey(Apply(db, actions[0]), rk, expiry, actions[1..]))
  }

  predicate Records(rk: Key, expiry: nat -> uint64, tx: Tx) {
    tx.phase.Succeeded? && HashSetInsert(Self(tx.id, expiry)) in AtKey(rk, tx.writes)
  }

  /** The self-recording transactions that an accepted block would put into effect. */
  function Recorded(rk: Key, expiry: nat -> uint64, txs: seq<Tx>): seq<nat> {
    if txs == [] then []
    else
      var last := txs[|txs| - 1];
      Recorded(rk, expiry, txs[..|txs| - 1]) + (if Records(rk, expiry, last) then [last.id] else [])
  }

  /** The self-recording transactions that took effect in a run, block by block. */
  function History(db: Db, rk: Key, expiry: nat -> uint64, actions: seq<Action>): seq<nat>
    decreases |actions|
  {
    if actions == [] then []
    else
      (if Accepts(db, actions[0]) then Recorded(rk, expiry, db.txs) else [])
      + History(Apply(db, actions[0]), rk, expiry, actions[1..])
  }

  predicate Remembered(db: Db, rk: Key, expiry: nat -> uint64, id: nat) {
    expiry(id) < db.block || Self(id, expiry) in HashesOf(Value(db, rk))
  }

  ghost predicate CacheWrites(db: Db, rk: Key, expiry: nat -> uint64) {
    forall j, d :: 0 <= j < |db.txs| && d in AtKey(rk, db.txs[j].writes) ==>
      CacheDelta(d, Self(db.txs[j].id, expiry), db.block)
  }

  /** Every transaction that took effect is stored in the cache or expired. */
  ghost predicate ReplayInv(db: Db, rk: Key, expiry: nat -> uint64, past: seq<nat>) {
    && CacheWrites(db, rk, expiry)
    && NoDuplicates(past) && forall id :: id in past ==> Remembered(db, rk, expiry, id)
  }

  lemma SubmitKeepsWrites(db: Db, rk: Key, expiry: nat -> uint64, a: Action)
    requires CacheWrites(db, rk, expiry) && a.Submit? && Obeys(db, rk, expiry, a)
    ensures CacheWrites(Apply(db, a), rk, expiry)
  {
    var calls :| WritesBy(db, rk, expiry, a.id, a.writes, calls);
    SdkDeltas(Value(db, rk), calls, Self(a.id, expiry), db.block);
  }

  /** No other action within a block changes who writes what. */
  lemma OthersKeepWrites(db: Db, rk: Key, expiry: nat -> uint64, a: Action)
    requires CacheWrites(db, rk, expiry) && !a.Submit?
    ensures CacheWrites(Apply(db, a), rk, expiry)
    ensures Apply(db, a).block == db.block || Apply(db, a).block == db.block + 1
  {
    SameWrites(db, a);
  }

  // ---- the end of an accepted block ----

  lemma DistinctParts(a: seq<Delta>, b: seq<Delta>, d: Delta)
    requires DistinctInserts(a + b)
    ensures DistinctInserts(a)
    ensures d.HashSetInsert? && d in a ==> d !in b
  {
    forall i, j | 0 <= i < j < |a| && a[i].HashSetInsert?
      ensures a[i] != a[j]
    {
      assert (a + b)[i] == a[i] && (a + b)[j] == a[j];
    }
    forall i, j | 0 <= i < |a| && 0 <= j < |b| && a[i].HashSetInsert?
      ensures a[i] != b[j]
    {
      assert (a + b)[i] == a[i] && (a + b)[|a| + j] == b[j];
    }
  }

  lemma NoDuplicatesAppend<T>(a: seq<T>, b: seq<T>)
    requires NoDuplicates(a) && NoDuplicates(b) && forall x :: x in a ==> x !in b
    ensures NoDuplicates(a + b)
  {
    forall i, j | 0 <= i < j < |a + b|
      ensures (a + b)[i] != (a + b)[j]
    {
      if i < |a| {
        assert a[i] in a;
      }
    }
  }

  /** Distinct committed inserts mean distinct recorded transactions. */
  lemma {:induction false} RecordedDistinct(rk: Key, expiry: nat -> uint64, txs: seq<Tx>)
    requires DistinctInserts(SucceededDeltas(rk, txs))
    ensures NoDuplicates(Recorded(rk, expiry, txs))
    ensures forall id :: id in Recorded(rk, expiry, txs) ==>
      HashSetInsert(Self(id, expiry)) in SucceededDeltas(rk, txs)
  {
    if txs != [] {
      var last, front := txs[|txs| - 1], txs[..|txs| - 1];
      var tail := if last.phase.Succeeded? then AtKey(rk, last.writes) else [];
      DistinctParts(SucceededDeltas(rk, front), tail, HashSetInsert(Self(last.id, expiry)));
      RecordedDistinct(rk, expiry, front);
    }
  }

  ghost predicate SomeTxWrote(rk: Key, txs: seq<Tx>, d: Delta) {
    exists j :: 0 <= j < |txs| && d in AtKey(rk, txs[j].writes)
  }

  lemma {:induction false} SucceededWrote(rk: Key, txs: seq<Tx>)
    ensures forall d :: d in SucceededDeltas(rk, txs) ==> SomeTxWrote(rk, txs, d)
  {
    if txs != [] {
      var front := txs[..|txs| - 1];
      SucceededWrote(rk, front);
      forall d | d in SucceededDeltas(rk, txs)
        ensures SomeTxWrote(rk, txs, d)
      {
        if d in SucceededDeltas(rk, front) {
          var j :| 0 <= j < |front| && d in AtKey(rk, front[j].writes);
          assert txs[j] == front[j];
        } else {
          assert d in AtKey(rk, txs[|txs| - 1].writes);
        }
      }
    }
  }

  /** What a block committed to the cache: recordings that have not expired,
      and clears up to the block itself. */
  ghost predicate CacheBlock(ds: seq<Delta>, block: nat) {
    forall d :: d in ds ==>
      || d.HashSetIncreaseLimit?
      || (d.HashSetInsert? && d.entry.index >= block)
      || (d.HashSetClear? && d.threshold == block)
  }

  lemma SucceededInCache(db: Db, rk: Key, expiry: nat -> uint64)
    requires CacheWrites(db, rk, expiry)
    ensures CacheBlock(SucceededDeltas(rk, db.txs), db.block)
  {
    SucceededWrote(rk, db.txs);
    forall d | d in SucceededDeltas(rk, db.txs)
      ensures d.HashSetIncreaseLimit? || (d.HashSetInsert? && d.entry.index >= db.block)
        || (d.HashSetClear? && d.threshold == db.block)
    {
      var j :| 0 <= j < |db.txs| && d in AtKey(rk, db.txs[j].writes);
      assert CacheDelta(d, Self(db.txs[j].id, expiry), db.block);
    }
  }

  /** The fold of such a block forgets only what is now expired. */
  lemma FoldRemembers(base: Option<StorageObject>, ds: seq<Delta>, r: Option<StorageObject>, block: nat, e: Entry)
    requires CacheBlock(ds, block) && FoldsTo(base, ds, r)
    requires e in HashesOf(base) || HashSetInsert(e) in ds
    ensures e.index < block + 1 || e in HashesOf(r)
  {
    if ds != [] {
      assert ds[0] in ds;
      assert ds[0].Class() == HashSetClass;
      assert FoldsToHashSet(base, ds, r.value);
      if e.index > block {
        assert Survives(e, ds);
      }
    }
  }

  /** Committed recordings are pairwise different and new to the cache. */
  lemma CommittedInsertsAreNew(db: Db, rk: Key)
    requires RunInv(db) && AllConcluded(db)
    ensures DistinctInserts(SucceededDeltas(rk, db.txs))
    ensures forall e :: HashSetInsert(e) in SucceededDeltas(rk, db.txs) ==> e !in HashesOf(Value(db, rk))
  {
    var ds := CommittedDeltas(rk, db.clients);
    assert KeyOk(db, rk);
    CommittedAreSucceeded(db, rk);
    PermutedMembers(ds, SucceededDeltas(rk, db.txs));
    CommittedDistinct(rk, db.clients);
    DistinctInsertsPermute(ds, SucceededDeltas(rk, db.txs));
    CommittedAgree(rk, ObjectAt(db, rk), db.clients);
  }

  lemma AcceptedBlockIsNew(db: Db, rk: Key, expiry: nat -> uint64, past: seq<nat>)
    requires RunInv(db) && AllConcluded(db) && ReplayInv(db, rk, expiry, past)
    ensures NoDuplicates(past + Recorded(rk, expiry, db.txs))
  {
    CommittedInsertsAreNew(db, rk);
    RecordedDistinct(rk, expiry, db.txs);
    SucceededInCache(db, rk, expiry);
    forall id | id in past
      ensures id !in Recorded(rk, expiry, db.txs)
    {
      assert Remembered(db, rk, expiry, id);
    }
    NoDuplicatesAppend(past, Recorded(rk, expiry, db.txs));
  }

  lemma AcceptedBlockRemembers(db: Db, rk: Key, expiry: nat -> uint64, past: seq<nat>, listings: map<Key, seq<Entry>>)
    requires RunInv(db) && AllConcluded(db) && ListsTables(db, listings) && ReplayInv(db, rk, expiry, past)
    ensures ReplayInv(NextBlock(db, FinishedMain(db, listings)), rk, expiry, past + Recorded(rk, expiry, db.txs))
  {
    var db2 := NextBlock(db, FinishedMain(db, listings));
    AcceptedBlockIsNew(db, rk, expiry, past);
    SucceededInCache(db, rk, expiry);
    AcceptedBlockFolds(db, listings, rk);
    CommittedInsertsAreNew(db, rk);
    RecordedDistinct(rk, expiry, db.txs);
    forall id | id in past + Recorded(rk, expiry, db.txs)
      ensures Remembered(db2, rk, expiry, id)
    {
      if id in past && expiry(id) < db.block {
      } else {
        FoldRemembers(Value(db, rk), SucceededDeltas(rk, db.txs), Value(db2, rk), db.block, Self(id, expiry));
      }
    }
  }

  lemma ActionKeepsReplay(db: Db, rk: Key, expiry: nat -> uint64, past: seq<nat>, a: Action)
    requires RunInv(db) && ReplayInv(db, rk, expiry, past) && Obeys(db, rk, expiry, a)
    ensures ReplayInv(Apply(db, a), rk, expiry,
                      past + (if Accepts(db, a) then Recorded(rk, expiry, db.txs) else []))
  {
    if Accepts(db, a) {
      AcceptedBlockRemembers(db, rk, expiry, past, a.listings);
    } else {
      assert past + [] == past;
      ActionRefinesLedger(db, a);
      assert Value(Apply(db, a), rk) == Value(db, rk);
      if a.Submit? {
        SubmitKeepsWrites(db, rk, expiry, a);
      } else {
        OthersKeepWrites(db, rk, expiry, a);
      }
    }
  }

  function Added(db: Db, rk: Key, expiry: nat -> uint64, a: Action): seq<nat> {
    if Accepts(db, a) then Recorded(rk, expiry, db.txs) else []
  }

  lemma HistoryStep(db: Db, rk: Key, expiry: nat -> uint64, past: seq<nat>, actions: seq<Action>)
    requires actions != []
    ensures past + History(db, rk, expiry, actions)
         == past + Added(db, rk, expiry, actions[0]) + History(Apply(db, actions[0]), rk, expiry, actions[1..])
  {
    AppendThree(past, Added(db, rk, expiry, actions[0]), History(Apply(db, actions[0]), rk, expiry, actions[1..]));
  }

  lemma AppendThree(a: seq<nat>, b: seq<nat>, c: seq<nat>)
    ensures a + (b + c) == a + b + c
  {
  }

  lemma ActionKeepsAll(db: Db, rk: Key, expiry: nat -> uint64, past: seq<nat>, a: Action)
    requires RunInv(db) && ReplayInv(db, rk, expiry, past) && Obeys(db, rk, expiry, a)
    ensures RunInv(Apply(db, a)) && ReplayInv(Apply(db, a), rk, expiry, past + Added(db, rk, expiry, a))
  {
    ApplyKeepsInv(db, a);
    ActionKeepsReplay(db, rk, expiry, past, a);
  }

  lemma {:induction false} HistoryHasNoRepeats(db: Db, rk: Key, expiry: nat -> uint64, past: seq<nat>, actions: seq<Action>)
    requires RunInv(db) && ReplayInv(db, rk, expiry, past) && AllObey(db, rk, expiry, actions)
    ensures NoDuplicates(past + History(db, rk, expiry, actions))
    decreases |actions|
  {
    if actions == [] {
      assert past + History(db, rk, expiry, actions) == past;
    } else {
      ActionKeepsAll(db, rk, expiry, past, actions[0]);
      HistoryHasNoRepeats(Apply(db, actions[0]), rk, expiry, past + Added(db, rk, expiry, actions[0]), actions[1..]);
      HistoryStep(db, rk, expiry, past, actions);
    }
  }

  /** Over every run, each self-recording transaction takes effect at most once. */
  lemma NoReplay(rk: Key, expiry: nat -> uint64, actions: seq<Action>)
    requires AllObey(GENESIS, rk, expiry, actions)
    ensures NoDuplicates(History(GENESIS, rk, expiry, actions))
  {
    GenesisStarts();
    HistoryHasNoRepeats(GENESIS, rk, expiry, [], actions);
    assert [] + History(GENESIS, rk, expiry, actions) == History(GENESIS, rk, expiry, actions);
  }
}
