/** A proposed block validates under any schedule. The validator starts from the
    same stored values and executes exactly the transactions that took effect in
    the proposer's block, in any order and interleaved in any way: none of them
    fails, and the accepted block stores the same values. */
module BlockValidation {
  import opened StorageTypes
  import opened Objects
  import opened ObjectInvariant
  import opened Folds
  import opened ObjectRounds
  import opened Schedules
  import opened Database
  import opened DatabaseInvariant
  import opened DatabaseRuns
  import opened Ledger
  import opened Capacities

  // ---- fewer deltas fit as well ----

  lemma {:induction false} SumSub(p: Part, a: seq<Delta>, b: seq<Delta>)
    requires multiset(a) <= multiset(b)
    ensures p.Inserts? || p.AssetUp? ==> Sum(p, a) <= Sum(p, b)
    ensures p.Subtracted? || p.AssetDown? ==> Sum(p, a) >= Sum(p, b)
  {
    if a == [] {
      SumSign(p, b);
    } else {
      assert a[0] in multiset(a) && a[0] in multiset(b);
      var i :| 0 <= i < |b| && b[i] == a[0];
      SumWithout(p, b, i);
      SumWithout(p, a, 0);
      WithoutMultiset(b, i);
      WithoutMultiset(a, 0);
      SumSub(p, Without(a, 0), Without(b, i));
    }
  }

  lemma SubMembers(a: seq<Delta>, b: seq<Delta>)
    requires multiset(a) <= multiset(b)
    ensures forall d :: d in a ==> d in b
  {
    assert forall d :: d in a <==> d in multiset(a);
    assert forall d :: d in b <==> d in multiset(b);
  }

  lemma DistinctSub(a: seq<Delta>, b: seq<Delta>)
    requires multiset(a) <= multiset(b) && DistinctInserts(b)
    ensures DistinctInserts(a)
  {
    forall i, j | 0 <= i < j < |a| && a[i].HashSetInsert?
      ensures a[i] != a[j]
    {
      MultiplicityTwo(a, i, j);
      MultiplicityOne(b, a[i]);
    }
  }

  lemma FeasibleSub(base: Option<StorageObject>, a: seq<Delta>, b: seq<Delta>)
    requires multiset(a) <= multiset(b) && Feasible(base, b)
    ensures Feasible(base, a)
  {
    SubMembers(a, b);
    SumSub(Subtracted, a, b);
    SumSub(Inserts, a, b);
    SumSub(AssetDown, a, b);
    SumSub(AssetUp, a, b);
    DistinctSub(a, b);
  }

  lemma CellsSub(t: Table, a: seq<Delta>, b: seq<Delta>)
    requires multiset(a) <= multiset(b) && CellsFor(t, b)
    ensures CellsFor(t, a)
  {
    SumSub(Inserts, a, b);
    SumSign(Inserts, a);
  }

  // ---- what was submitted, and what of it still waits ----

  function Rest(tx: Tx): seq<(Key, Delta)> {
    if |tx.at| <= |tx.writes| then tx.writes[|tx.at|..] else []
  }

  function Writes(tx: Tx, rest: bool): seq<(Key, Delta)> { if rest then Rest(tx) else tx.writes }

  /** The submitted deltas for a key. */
  function Submitted(k: Key, txs: seq<Tx>): seq<Delta> {
    if txs == [] then [] else Submitted(k, txs[..|txs| - 1]) + AtKey(k, txs[|txs| - 1].writes)
  }

  function Times(d: Delta, s: seq<Delta>): nat { multiset(s)[d] }

  lemma TimesConcat(d: Delta, a: seq<Delta>, b: seq<Delta>)
    ensures Times(d, a + b) == Times(d, a) + Times(d, b)
  {
  }

  function Plus(ns: seq<nat>): nat { if ns == [] then 0 else ns[0] + Plus(ns[1..]) }

  lemma {:induction false} PlusUpdate(ns: seq<nat>, j: nat, n: nat)
    requires j < |ns|
    ensures Plus(ns[j := n]) == Plus(ns) - ns[j] + n
  {
    if j == 0 {
      assert ns[0 := n] == [n] + ns[1..];
    } else {
      PlusUpdate(ns[1..], j - 1, n);
      assert ns[j := n] == [ns[0]] + ns[1..][j - 1 := n];
    }
  }

  lemma {:induction false} PlusAppend(ns: seq<nat>, n: nat)
    ensures Plus(ns + [n]) == Plus(ns) + n
  {
    if ns == [] {
      assert ns + [n] == [n];
    } else {
      PlusAppend(ns[1..], n);
      assert ns + [n] == [ns[0]] + (ns[1..] + [n]);
    }
  }

  function Share(d: Delta, k: Key, tx: Tx, rest: bool): nat { Times(d, AtKey(k, Writes(tx, rest))) }

  function Shares(d: Delta, k: Key, txs: seq<Tx>, rest: bool): seq<nat> {
    seq(|txs|, i requires 0 <= i < |txs| => Share(d, k, txs[i], rest))
  }

  /** How often the delta is submitted for the key. */
  function Tally(d: Delta, k: Key, txs: seq<Tx>, rest: bool): nat { Plus(Shares(d, k, txs, rest)) }

  lemma TallyUpdate(d: Delta, k: Key, txs: seq<Tx>, j: nat, tx: Tx, rest: bool)
    requires j < |txs|
    ensures Tally(d, k, txs[j := tx], rest) ==
      Tally(d, k, txs, rest) - Share(d, k, txs[j], rest) + Share(d, k, tx, rest)
  {
    PlusUpdate(Shares(d, k, txs, rest), j, Share(d, k, tx, rest));
    assert Shares(d, k, txs[j := tx], rest) == Shares(d, k, txs, rest)[j := Share(d, k, tx, rest)];
  }

  lemma TallyAppend(d: Delta, k: Key, txs: seq<Tx>, tx: Tx, rest: bool)
    ensures Tally(d, k, txs + [tx], rest) == Tally(d, k, txs, rest) + Share(d, k, tx, rest)
  {
    PlusAppend(Shares(d, k, txs, rest), Share(d, k, tx, rest));
    assert Shares(d, k, txs + [tx], rest) == Shares(d, k, txs, rest) + [Share(d, k, tx, rest)];
  }

  lemma SubmittedLast(k: Key, front: seq<Tx>, last: Tx, d: Delta)
    ensures Times(d, Submitted(k, front + [last])) == Times(d, Submitted(k, front)) + Share(d, k, last, false)
  {
    assert (front + [last])[..|front|] == front;
    TimesConcat(d, Submitted(k, front), AtKey(k, last.writes));
  }

  lemma {:induction false} SubmittedTally(d: Delta, k: Key, txs: seq<Tx>)
    ensures Times(d, Submitted(k, txs)) == Tally(d, k, txs, false)
  {
    if txs != [] {
      var front, last := txs[..|txs| - 1], txs[|txs| - 1];
      SubmittedTally(d, k, front);
      TallyAppend(d, k, front, last, false);
      assert txs == front + [last];
      SubmittedLast(k, front, last, d);
    }
  }

  lemma SameTally(k: Key, a: seq<Tx>, b: seq<Tx>)
    requires forall d :: Tally(d, k, a, false) == Tally(d, k, b, false)
    ensures multiset(Submitted(k, a)) == multiset(Submitted(k, b))
  {
    forall d
      ensures multiset(Submitted(k, a))[d] == multiset(Submitted(k, b))[d]
    {
      SubmittedTally(d, k, a);
      SubmittedTally(d, k, b);
      assert Tally(d, k, a, false) == Tally(d, k, b, false);
    }
  }

  lemma {:induction false} AllAppend(k: Key, cs: seq<Client>, c: Client)
    ensures AllDeltas(k, cs + [c]) == AllDeltas(k, cs) + (if c.key == k then [c.delta] else [])
  {
    if cs == [] {
      assert cs + [c] == [c];
    } else {
      AllAppend(k, cs[1..], c);
      assert cs + [c] == [cs[0]] + (cs[1..] + [c]);
    }
  }

  predicate AccountedFor(db: Db, k: Key, d: Delta) {
    Times(d, AllDeltas(k, db.clients)) + Tally(d, k, db.txs, true) == Tally(d, k, db.txs, false)
  }

  /** Every submitted delta was pushed or waits. */
  ghost predicate Accounted(db: Db, k: Key) { forall d :: AccountedFor(db, k, d) }

  lemma PushMovesOne(tx: Tx, tx2: Tx, k: Key, d: Delta)
    requires |tx.at| < |tx.writes| && tx2.writes == tx.writes && |tx2.at| == |tx.at| + 1
    ensures var w := tx.writes[|tx.at|];
      Times(d, AtKey(k, Rest(tx))) == Times(d, AtKey(k, Rest(tx2))) + Times(d, if w.0 == k then [w.1] else [])
  {
    var w := tx.writes[|tx.at|];
    assert Rest(tx) == [w] + Rest(tx2);
    assert Rest(tx)[1..] == Rest(tx2);
    TimesConcat(d, if w.0 == k then [w.1] else [], AtKey(k, Rest(tx2)));
  }

  lemma PushAccounted(db: Db, j: nat, k: Key)
    requires Accounted(db, k) && j < |db.txs| && |db.txs[j].at| < |db.txs[j].writes|
    ensures Accounted(PushWrite(db, j), k)
    ensures multiset(Submitted(k, PushWrite(db, j).txs)) == multiset(Submitted(k, db.txs))
  {
    var tx := db.txs[j];
    var w := tx.writes[|tx.at|];
    var tx2 := tx.(at := tx.at + [|db.clients|]);
    var c := Client(w.0, j, w.1, false, Trying);
    var db2 := PushWrite(db, j);
    assert db2.txs == db.txs[j := tx2] && db2.clients == db.clients + [c];
    AllAppend(k, db.clients, c);
    forall d
      ensures AccountedFor(db2, k, d)
      ensures Tally(d, k, db2.txs, false) == Tally(d, k, db.txs, false)
    {
      assert AccountedFor(db, k, d);
      PushMovesOne(tx, tx2, k, d);
      TallyUpdate(d, k, db.txs, j, tx2, true);
      TallyUpdate(d, k, db.txs, j, tx2, false);
      TimesConcat(d, AllDeltas(k, db.clients), if c.key == k then [c.delta] else []);
    }
    SameTally(k, db2.txs, db.txs);
  }

  lemma PhaseAccounted(db: Db, j: nat, phase: TxPhase, modified: set<Key>, k: Key)
    requires Accounted(db, k) && j < |db.txs|
    ensures Accounted(SetPhase(db, j, phase).(modified := modified), k)
    ensures multiset(Submitted(k, SetPhase(db, j, phase).txs)) == multiset(Submitted(k, db.txs))
  {
    var tx := db.txs[j].(phase := phase);
    var db2 := SetPhase(db, j, phase).(modified := modified);
    forall d
      ensures AccountedFor(db2, k, d)
      ensures Tally(d, k, db2.txs, false) == Tally(d, k, db.txs, false)
    {
      assert AccountedFor(db, k, d);
      TallyUpdate(d, k, db.txs, j, tx, true);
      TallyUpdate(d, k, db.txs, j, tx, false);
    }
    SameTally(k, db2.txs, db.txs);
  }

  lemma SubmitAccounted(db: Db, tx: Tx, k: Key)
    requires Accounted(db, k) && tx.at == []
    ensures Accounted(db.(txs := db.txs + [tx]), k)
  {
    forall d
      ensures AccountedFor(db.(txs := db.txs + [tx]), k, d)
    {
      assert AccountedFor(db, k, d);
      TallyAppend(d, k, db.txs, tx, true);
      TallyAppend(d, k, db.txs, tx, false);
      assert Rest(tx) == tx.writes;
    }
  }

  lemma StepAccounted(db: Db, i: nat, k: Key)
    requires Accounted(db, k) && i < |db.clients|
    ensures Accounted(ClientStep(db, i, Commit), k)
  {
    var c := db.clients[i];
    SameClient(ObjectAt(db, c.key), c, Commit);
    AllUpdate(k, db.clients, i, Next(ObjectAt(db, c.key), c, Commit).1);
    forall d
      ensures AccountedFor(ClientStep(db, i, Commit), k, d)
    {
      assert AccountedFor(db, k, d);
    }
  }

  // ---- the validator at work ----

  predicate Welcome(t: TxPhase) { t.Pushing? || t.Committing? || t.Succeeded? }

  /** What is submitted for the key is part of the proposer's block, and its
      object has cells for the block's inserts. */
  ghost predicate Planned(db: Db, block: seq<Tx>, k: Key) {
    && Accounted(db, k) && CellsFor(ObjectAt(db, k).table, SucceededDeltas(k, block))
    && multiset(Submitted(k, db.txs)) <= multiset(SucceededDeltas(k, block))
  }

  ghost predicate Suits(db: Db, block: seq<Tx>, k: Key) {
    Feasible(Value(db, k), SucceededDeltas(k, block))
  }

  ghost predicate Serving(db: Db, block: seq<Tx>) {
    && (forall i :: 0 <= i < |db.clients| ==> !IsRefusing(db.clients[i]))
    && (forall j :: 0 <= j < |db.txs| ==> Welcome(db.txs[j].phase))
    && (forall k :: Planned(db, block, k))
    && (forall k :: Suits(db, block, k))
  }

  lemma PushedIsPlanned(db: Db, block: seq<Tx>, k: Key)
    requires Accounted(db, k) && multiset(Submitted(k, db.txs)) <= multiset(SucceededDeltas(k, block))
    ensures multiset(AllDeltas(k, db.clients)) <= multiset(SucceededDeltas(k, block))
  {
    forall d
      ensures multiset(AllDeltas(k, db.clients))[d] <= multiset(SucceededDeltas(k, block))[d]
    {
      assert AccountedFor(db, k, d);
      SubmittedTally(d, k, db.txs);
      assert Times(d, AllDeltas(k, db.clients)) <= Times(d, Submitted(k, db.txs));
    }
  }

  lemma KeyFits(db: Db, block: seq<Tx>, k: Key)
    requires KeyOk(db, k) && Planned(db, block, k) && Suits(db, block, k)
    ensures Fits(k, ObjectAt(db, k), db.clients)
  {
    assert ObjectAt(db, k).base == Value(db, k);
    PushedIsPlanned(db, block, k);
    FeasibleSub(Value(db, k), AllDeltas(k, db.clients), SucceededDeltas(k, block));
    CellsSub(ObjectAt(db, k).table, AllDeltas(k, db.clients), SucceededDeltas(k, block));
  }

  lemma StepKeepsCells(db: Db, i: nat, k: Key, ds: seq<Delta>)
    requires i < |db.clients| && !db.clients[i].phase.RevertMid? && CellsFor(ObjectAt(db, k).table, ds)
    ensures CellsFor(ObjectAt(ClientStep(db, i, Commit), k).table, ds)
  {
    CommitKeepsTombstones(ObjectAt(db, k), db.clients[i]);
  }

  lemma StepPlans(db: Db, block: seq<Tx>, i: nat, k: Key)
    requires DbInv(db) && i < |db.clients| && !db.clients[i].phase.RevertMid?
    requires Planned(db, block, k) && Suits(db, block, k)
    ensures Planned(ClientStep(db, i, Commit), block, k) && Suits(ClientStep(db, i, Commit), block, k)
  {
    StepAccounted(db, i, k);
    ClientStepValue(db, i, Commit, k);
    StepKeepsCells(db, i, k, SucceededDeltas(k, block));
  }

  /** No step of the validator is refused. */
  lemma StepIsWelcome(db: Db, block: seq<Tx>, i: nat)
    requires DbInv(db) && Serving(db, block) && i < |db.clients|
    ensures !IsRefusing(Next(ObjectAt(db, db.clients[i].key), db.clients[i], Commit).1)
  {
    var c := db.clients[i];
    assert KeyOk(db, c.key) && Planned(db, block, c.key) && Suits(db, block, c.key) && Mine(c.key, db.clients, i);
    KeyFits(db, block, c.key);
    NeverRefused(c.key, ObjectAt(db, c.key), db.clients, i, Commit);
  }

  lemma StepServes(db: Db, block: seq<Tx>, i: nat)
    requires DbInv(db) && Serving(db, block) && i < |db.clients|
    ensures Serving(ClientStep(db, i, Commit), block)
  {
    assert PhaseFits(db.txs[db.clients[i].owner].phase, db.clients[i]);
    forall k
      ensures Planned(ClientStep(db, i, Commit), block, k) && Suits(ClientStep(db, i, Commit), block, k)
    {
      assert Planned(db, block, k) && Suits(db, block, k);
      StepPlans(db, block, i, k);
    }
    StepIsWelcome(db, block, i);
  }

  lemma PushKeepsObject(db: Db, j: nat, k: Key)
    requires j < |db.txs| && |db.txs[j].at| < |db.txs[j].writes|
    ensures ObjectAt(PushWrite(db, j), k) == ObjectAt(db, k) && Value(PushWrite(db, j), k) == Value(db, k)
  {
  }

  lemma SameObjectPlans(db: Db, db2: Db, block: seq<Tx>, k: Key)
    requires Planned(db, block, k) && Suits(db, block, k)
    requires ObjectAt(db2, k) == ObjectAt(db, k) && Value(db2, k) == Value(db, k)
    requires Accounted(db2, k) && multiset(Submitted(k, db2.txs)) == multiset(Submitted(k, db.txs))
    ensures Planned(db2, block, k) && Suits(db2, block, k)
  {
  }

  lemma PushPlans(db: Db, block: seq<Tx>, j: nat, k: Key)
    requires Planned(db, block, k) && Suits(db, block, k)
    requires j < |db.txs| && |db.txs[j].at| < |db.txs[j].writes|
    ensures Planned(PushWrite(db, j), block, k) && Suits(PushWrite(db, j), block, k)
  {
    PushAccounted(db, j, k);
    PushKeepsObject(db, j, k);
    SameObjectPlans(db, PushWrite(db, j), block, k);
  }

  lemma PushServes(db: Db, block: seq<Tx>, j: nat)
    requires Serving(db, block) && j < |db.txs| && |db.txs[j].at| < |db.txs[j].writes|
    ensures Serving(PushWrite(db, j), block)
  {
    forall k
      ensures Planned(PushWrite(db, j), block, k) && Suits(PushWrite(db, j), block, k)
    {
      assert Planned(db, block, k) && Suits(db, block, k);
      PushPlans(db, block, j, k);
    }
  }

  lemma PhaseServes(db: Db, block: seq<Tx>, j: nat, phase: TxPhase, modified: set<Key>)
    requires Serving(db, block) && j < |db.txs| && Welcome(phase)
    ensures Serving(SetPhase(db, j, phase).(modified := modified), block)
  {
    forall k
      ensures Planned(SetPhase(db, j, phase).(modified := modified), block, k)
      ensures Suits(SetPhase(db, j, phase).(modified := modified), block, k)
    {
      assert Planned(db, block, k) && Suits(db, block, k);
      PhaseAccounted(db, j, phase, modified, k);
    }
  }

  /** Submitting the transaction stays within the proposer's block. */
  ghost predicate InBlock(db: Db, block: seq<Tx>, a: Action) {
    a.Submit? ==> forall k :: multiset(Submitted(k, Apply(db, a).txs)) <= multiset(SucceededDeltas(k, block))
  }

  lemma SubmitPlans(db: Db, block: seq<Tx>, tx: Tx, k: Key)
    requires Planned(db, block, k) && Suits(db, block, k) && tx.at == []
    requires multiset(Submitted(k, db.txs + [tx])) <= multiset(SucceededDeltas(k, block))
    ensures Planned(db.(txs := db.txs + [tx]), block, k) && Suits(db.(txs := db.txs + [tx]), block, k)
  {
    SubmitAccounted(db, tx, k);
  }

  lemma SubmitServes(db: Db, block: seq<Tx>, tx: Tx)
    requires Serving(db, block) && tx.at == [] && tx.phase.Pushing?
    requires forall k :: multiset(Submitted(k, db.txs + [tx])) <= multiset(SucceededDeltas(k, block))
    ensures Serving(db.(txs := db.txs + [tx]), block)
  {
    forall k
      ensures Planned(db.(txs := db.txs + [tx]), block, k) && Suits(db.(txs := db.txs + [tx]), block, k)
    {
      assert Planned(db, block, k) && Suits(db, block, k);
      SubmitPlans(db, block, tx, k);
    }
  }

  /** The validator executes and commits: it neither gives up a transaction that
      was not refused nor ends the block. */
  predicate Validates(a: Action) {
    !a.FinishBlock? && !a.UndoBlock? && (a.Decide? ==> a.accepted)
  }

  lemma AdvanceServes(db: Db, block: seq<Tx>, j: nat)
    requires DbInv(db) && Serving(db, block)
    ensures Serving(Apply(db, Advance(j)), block)
  {
    if j < |db.txs| && db.txs[j].phase.Pushing? && db.txs[j].at != []
       && db.txs[j].at[|db.txs[j].at| - 1] < |db.clients|
       && !Settled(db.clients[db.txs[j].at[|db.txs[j].at| - 1]]) {
      StepServes(db, block, db.txs[j].at[|db.txs[j].at| - 1]);
    }
  }

  lemma WorkServes(db: Db, block: seq<Tx>, j: nat, p: nat)
    requires DbInv(db) && Serving(db, block)
    ensures Serving(Apply(db, Work(j, p)), block)
  {
    if j < |db.txs| && p < |db.txs[j].at| && db.txs[j].at[p] < |db.clients| {
      assert Welcome(db.txs[j].phase);
      if db.txs[j].phase.Committing? {
        StepServes(db, block, db.txs[j].at[p]);
      }
    }
  }

  lemma DecideServes(db: Db, block: seq<Tx>, j: nat)
    requires Serving(db, block)
    ensures Serving(Apply(db, Decide(j, true)), block)
  {
    if j < |db.txs| {
      PhaseServes(db, block, j, Committing, db.modified);
    }
  }

  lemma ConcludeServes(db: Db, block: seq<Tx>, j: nat)
    requires Serving(db, block)
    ensures Serving(Apply(db, Conclude(j)), block)
  {
    if j < |db.txs| {
      assert Welcome(db.txs[j].phase);
      PhaseServes(db, block, j, Succeeded, db.modified + WrittenKeys(db.txs[j]) + db.txs[j].loaded);
    }
  }

  lemma PushActionServes(db: Db, block: seq<Tx>, j: nat)
    requires Serving(db, block)
    ensures Serving(Apply(db, Push(j)), block)
  {
    if j < |db.txs| && |db.txs[j].at| < |db.txs[j].writes| {
      PushServes(db, block, j);
    }
  }

  lemma ActionServes(db: Db, block: seq<Tx>, a: Action)
    requires RunInv(db) && Serving(db, block) && Validates(a) && InBlock(db, block, a)
    ensures Serving(Apply(db, a), block)
  {
    match a
    case Submit(id, writes, loaded) => SubmitServes(db, block, Tx(id, writes, loaded, [], Pushing));
    case Push(j) => PushActionServes(db, block, j);
    case Advance(j) => AdvanceServes(db, block, j);
    case Abandon(j) => assert Apply(db, a) == db; // nothing was refused
    case Decide(j, _) => DecideServes(db, block, j);
    case Work(j, p) => WorkServes(db, block, j, p);
    case Conclude(j) => ConcludeServes(db, block, j);
  }

  ghost predicate AllValidate(db: Db, block: seq<Tx>, actions: seq<Action>)
    decreases |actions|
  {
    actions == [] ||
    (Validates(actions[0]) && InBlock(db, block, actions[0]) && AllValidate(Apply(db, actions[0]), block, actions[1..]))
  }

  lemma {:induction false} RunServes(db: Db, block: seq<Tx>, actions: seq<Action>)
    requires RunInv(db) && Serving(db, block) && AllValidate(db, block, actions)
    ensures var db2 := Execute(db, actions);
      RunInv(db2) && Serving(db2, block) && forall k :: Value(db2, k) == Value(db, k)
    decreases |actions|
  {
    if actions != [] {
      var db1 := Apply(db, actions[0]);
      ApplyKeepsInv(db, actions[0]);
      ActionServes(db, block, actions[0]);
      ActionRefinesLedger(db, actions[0]);
      RunServes(db1, block, actions[1..]);
    }
  }

  // ---- the theorem ----

  /** What a validator has to find under a key: the proposer's value, and cells
      for the block's inserts. */
  ghost predicate ReadyAt(validator: Db, proposer: Db, k: Key) {
    && Value(validator, k) == Value(proposer, k)
    && CellsFor(ObjectAt(validator, k).table, SucceededDeltas(k, proposer.txs))
  }

  /** A validator about to start has no transaction yet. */
  ghost predicate Ready(validator: Db, proposer: Db) {
    && validator.clients == [] && validator.txs == []
    && forall k :: ReadyAt(validator, proposer, k)
  }

  /** The block's debits and credits of assets do not rely on each other. */
  ghost predicate AssetsStandAlone(proposer: Db) {
    forall k :: AssetsFit(Value(proposer, k), SucceededDeltas(k, proposer.txs))
  }

  lemma BlockSuits(proposer: Db, k: Key)
    requires RunInv(proposer) && AllConcluded(proposer) && AssetsFit(Value(proposer, k), SucceededDeltas(k, proposer.txs))
    ensures Suits(proposer, proposer.txs, k)
  {
    var ds, ss := CommittedDeltas(k, proposer.clients), SucceededDeltas(k, proposer.txs);
    assert KeyOk(proposer, k);
    ConcludedQuiescent(proposer, k);
    CommittedAreSucceeded(proposer, k);
    SumPermutes(AssetDown, ds, ss);
    SumPermutes(AssetUp, ds, ss);
    CommittedFit(k, ObjectAt(proposer, k), proposer.clients);
    FeasiblePermutes(Value(proposer, k), ds, ss);
  }

  lemma ReadyServes(validator: Db, proposer: Db)
    requires RunInv(proposer) && AllConcluded(proposer) && AssetsStandAlone(proposer) && Ready(validator, proposer)
    ensures Serving(validator, proposer.txs)
  {
    forall k
      ensures Planned(validator, proposer.txs, k) && Suits(validator, proposer.txs, k)
    {
      assert ReadyAt(validator, proposer, k);
      BlockSuits(proposer, k);
    }
  }

  lemma {:induction false} AllSucceeded(k: Key, txs: seq<Tx>)
    requires forall j :: 0 <= j < |txs| ==> txs[j].phase.Succeeded?
    ensures SucceededDeltas(k, txs) == Submitted(k, txs)
  {
    if txs != [] {
      AllSucceeded(k, txs[..|txs| - 1]);
    }
  }

  lemma ServedRun(validator: Db, block: seq<Tx>, actions: seq<Action>)
    requires RunInv(validator) && Serving(validator, block) && AllValidate(validator, block, actions)
    ensures var db := Execute(validator, actions);
      && (forall i :: 0 <= i < |db.clients| ==> !IsRefusing(db.clients[i]))
      && (forall j :: 0 <= j < |db.txs| ==> !db.txs[j].phase.Aborting? && !db.txs[j].phase.Failed?)
      && RunInv(db) && forall k :: Value(db, k) == Value(validator, k)
  {
    RunServes(validator, block, actions);
    var db := Execute(validator, actions);
    assert forall j :: 0 <= j < |db.txs| ==> Welcome(db.txs[j].phase);
  }

  lemma ReadyValues(validator: Db, proposer: Db)
    requires Ready(validator, proposer)
    ensures forall k :: Value(validator, k) == Value(proposer, k)
  {
    forall k
      ensures Value(validator, k) == Value(proposer, k)
    {
      assert ReadyAt(validator, proposer, k);
    }
  }

  /** Whatever the schedule, no transaction of the block is refused or fails. */
  lemma NothingFails(proposer: Db, validator: Db, actions: seq<Action>)
    requires RunInv(proposer) && AllConcluded(proposer) && AssetsStandAlone(proposer)
    requires RunInv(validator) && Ready(validator, proposer) && AllValidate(validator, proposer.txs, actions)
    ensures var db := Execute(validator, actions);
      && (forall i :: 0 <= i < |db.clients| ==> !IsRefusing(db.clients[i]))
      && (forall j :: 0 <= j < |db.txs| ==> !db.txs[j].phase.Aborting? && !db.txs[j].phase.Failed?)
      && RunInv(db) && forall k :: Value(db, k) == Value(proposer, k)
  {
    ReadyServes(validator, proposer);
    ReadyValues(validator, proposer);
    ServedRun(validator, proposer.txs, actions);
  }

  lemma BlockOneClass(db: Db, k: Key)
    requires RunInv(db) && AllConcluded(db)
    ensures OneClass(SucceededDeltas(k, db.txs))
  {
    CommittedOneClass(db, k);
    CommittedAreSucceeded(db, k);
    PermutedMembers(CommittedDeltas(k, db.clients), SucceededDeltas(k, db.txs));
  }

  lemma AcceptedValue(db: Db, listings: map<Key, seq<Entry>>, k: Key)
    requires RunInv(db) && AllConcluded(db) && ListsTables(db, listings)
    ensures FoldsTo(Value(db, k), SucceededDeltas(k, db.txs), Value(Apply(db, FinishBlock(listings)), k))
  {
    AcceptedIsNext(db, listings);
    AcceptedBlockFolds(db, listings, k);
  }

  lemma AcceptedIsNext(db: Db, listings: map<Key, seq<Entry>>)
    requires AllConcluded(db) && ListsTables(db, listings)
    ensures Apply(db, FinishBlock(listings)) == NextBlock(db, FinishedMain(db, listings))
  {
  }

  lemma DoneAgrees(proposer: Db, listings: map<Key, seq<Entry>>, done: Db, otherListings: map<Key, seq<Entry>>, k: Key)
    requires RunInv(proposer) && AllConcluded(proposer) && ListsTables(proposer, listings)
    requires RunInv(done) && AllConcluded(done) && ListsTables(done, otherListings)
    requires forall j :: 0 <= j < |done.txs| ==> done.txs[j].phase.Succeeded?
    requires Value(done, k) == Value(proposer, k)
    requires multiset(Submitted(k, done.txs)) == multiset(SucceededDeltas(k, proposer.txs))
    ensures Value(Apply(done, FinishBlock(otherListings)), k) == Value(Apply(proposer, FinishBlock(listings)), k)
  {
    AllSucceeded(k, done.txs);
    AcceptedValue(done, otherListings, k);
    AcceptedValue(proposer, listings, k);
    BlockOneClass(proposer, k);
    FoldIsUnique(Value(proposer, k), SucceededDeltas(k, proposer.txs), SucceededDeltas(k, done.txs),
                 Value(Apply(proposer, FinishBlock(listings)), k), Value(Apply(done, FinishBlock(otherListings)), k));
  }

  /** A proposer and a validator, each after any run, that agree on the stored
      values. The validator replays the proposer's block in any interleaving;
      once all of it is executed, accepting stores what the proposer stores. */
  lemma BlockValidates(history: seq<Action>, proposer: Db, listings: map<Key, seq<Entry>>,
                       other: seq<Action>, validator: Db, actions: seq<Action>, done: Db,
                       otherListings: map<Key, seq<Entry>>, k: Key)
    requires proposer == Execute(GENESIS, history) && AllConcluded(proposer) && AssetsStandAlone(proposer)
    requires validator == Execute(GENESIS, other) && Ready(validator, proposer)
    requires done == Execute(validator, actions) && AllValidate(validator, proposer.txs, actions) && AllConcluded(done)
    requires multiset(Submitted(k, done.txs)) == multiset(SucceededDeltas(k, proposer.txs))
    requires ListsTables(proposer, listings) && ListsTables(done, otherListings)
    ensures Value(Apply(done, FinishBlock(otherListings)), k) == Value(Apply(proposer, FinishBlock(listings)), k)
  {
    GenesisStarts();
    RunKeepsInv(GENESIS, history);
    RunKeepsInv(GENESIS, other);
    NothingFails(proposer, validator, actions);
    DoneAgrees(proposer, listings, done, otherListings, k);
  }

  /** Without dead cells a validator with the proposer's values is ready. */
  lemma NoTombstonesReady(history: seq<Action>, proposer: Db, other: seq<Action>, validator: Db)
    requires proposer == Execute(GENESIS, history) && AllConcluded(proposer) && AssetsStandAlone(proposer)
    requires validator == Execute(GENESIS, other) && validator.clients == [] && validator.txs == []
    requires ModestRun(GENESIS, other)
    requires forall k :: Value(validator, k) == Value(proposer, k)
    requires forall k :: ObjectAt(validator, k).table.tombstones == 0
    ensures Ready(validator, proposer)
  {
    GenesisStarts();
    RunKeepsInv(GENESIS, history);
    RunKeepsInv(GENESIS, other);
    forall k
      ensures ReadyAt(validator, proposer, k)
    {
      assert KeyOk(validator, k);
      BlockSuits(proposer, k);
      ReachableCapacity(other, k);
      NoTombstonesMeansRoom(ObjectAt(validator, k), SucceededDeltas(k, proposer.txs));
    }
  }

  /** Conversely, no node has ever put a block into effect without a cell for
      each insert next to the dead ones. */
  lemma ExecutedHadCells(db: Db, k: Key)
    requires RunInv(db) && AllConcluded(db)
    ensures CellsFor(ObjectAt(db, k).table, SucceededDeltas(k, db.txs))
  {
    assert KeyOk(db, k);
    CommittedAreSucceeded(db, k);
    SumPermutes(Inserts, CommittedDeltas(k, db.clients), SucceededDeltas(k, db.txs));
    CommittedHadCells(k, ObjectAt(db, k), db.clients);
  }
}
