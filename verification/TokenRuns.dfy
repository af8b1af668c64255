/** Conservation of the token over whole runs: the balances and the recorded
    supply both equal what was minted by the transactions that took effect, and
    no balance is ever negative. */
module TokenRuns {
  import opened StorageTypes
  import opened HashSets
  import opened Objects
  import opened ObjectInvariant
  import opened Folds
  import opened ObjectRounds
  import opened Schedules
  import opened Database
  import opened DatabaseInvariant
  import opened DatabaseRuns
  import opened Ledger
  import opened Proxies
  import opened Erc20

  predicate Tracks(t: Token, k: Key) { k in t.accounts || k == t.supply }

  /** The proxies a transaction starts from. */
  function Opened(db: Db, t: Token): Cache {
    map k | k in (set x | x in t.accounts) + {t.supply} :: Open(Value(db, k))
  }

  /** A transaction's writes to the token's keys are those of its calls. */
  ghost predicate RunsCalls(c0: Cache, t: Token, calls: seq<Call>, writes: seq<(Key, Delta)>) {
    && (forall x :: x in calls ==> Uses(t, x))
    && RunCalls(c0, t.supply, calls).Some?
    && var c := RunCalls(c0, t.supply, calls).value;
       forall k :: Tracks(t, k) ==> k in c && AtKey(k, writes) == GetDeltas(c[k])
  }

  /** Nothing but the contract, run by the calls that a transaction's identity
      stands for, writes the token's keys. */
  ghost predicate Obeys(db: Db, t: Token, program: nat -> seq<Call>, a: Action) {
    a.Submit? ==> RunsCalls(Opened(db, t), t, program(a.id), a.writes)
  }

  ghost predicate AllObey(db: Db, t: Token, program: nat -> seq<Call>, actions: seq<Action>)
    decreases |actions|
  {
    actions == [] || (Obeys(db, t, program, actions[0]) && AllObey(Apply(db, actions[0]), t, program, actions[1..]))
  }

  function MintedBy(txs: seq<Tx>, program: nat -> seq<Call>): int {
    if txs == [] then 0
    else
      var last := txs[|txs| - 1];
      MintedBy(txs[..|txs| - 1], program) + (if last.phase.Succeeded? then Minted(program(last.id)) else 0)
  }

  function MintedIn(db: Db, program: nat -> seq<Call>, a: Action): int {
    if Accepts(db, a) then MintedBy(db.txs, program) else 0
  }

  /** What the accepted blocks of a run minted. */
  function TotalMinted(db: Db, program: nat -> seq<Call>, actions: seq<Action>): int
    decreases |actions|
  {
    if actions == [] then 0
    else MintedIn(db, program, actions[0]) + TotalMinted(Apply(db, actions[0]), program, actions[1..])
  }

  function Balances(db: Db, ks: seq<Key>): int {
    if ks == [] then 0 else IntOf(Value(db, ks[0])) + Balances(db, ks[1..])
  }

  // ---- sums over keys and transactions ----

  function NetOf(ds: seq<Delta>): int { Sum(Subtracted, ds) + Sum(Added, ds) }

  function WriteNet(ks: seq<Key>, ws: seq<(Key, Delta)>): int {
    if ks == [] then 0 else NetOf(AtKey(ks[0], ws)) + WriteNet(ks[1..], ws)
  }

  function BlockNet(ks: seq<Key>, txs: seq<Tx>): int {
    if ks == [] then 0 else NetOf(SucceededDeltas(ks[0], txs)) + BlockNet(ks[1..], txs)
  }

  lemma SucceededNet(k: Key, txs: seq<Tx>)
    requires txs != []
    ensures var last := txs[|txs| - 1];
      NetOf(SucceededDeltas(k, txs)) == NetOf(SucceededDeltas(k, txs[..|txs| - 1]))
        + (if last.phase.Succeeded? then NetOf(AtKey(k, last.writes)) else 0)
  {
    var last := txs[|txs| - 1];
    var tail := if last.phase.Succeeded? then AtKey(k, last.writes) else [];
    SumAppend(Subtracted, SucceededDeltas(k, txs[..|txs| - 1]), tail);
    SumAppend(Added, SucceededDeltas(k, txs[..|txs| - 1]), tail);
  }

  /** Summing a block key by key or transaction by transaction is the same. */
  lemma {:induction false} BlockNetSplits(ks: seq<Key>, txs: seq<Tx>)
    requires txs != []
    ensures var last := txs[|txs| - 1];
      BlockNet(ks, txs) == BlockNet(ks, txs[..|txs| - 1])
        + (if last.phase.Succeeded? then WriteNet(ks, last.writes) else 0)
  {
    if ks != [] {
      SucceededNet(ks[0], txs);
      BlockNetSplits(ks[1..], txs);
    }
  }

  lemma {:induction false} BlockNetNone(ks: seq<Key>)
    ensures BlockNet(ks, []) == 0
  {
    if ks != [] {
      BlockNetNone(ks[1..]);
    }
  }

  // ---- one transaction ----

  lemma OpenedIsBalanced(db: Db, t: Token)
    requires forall k :: k in t.accounts ==> IntOf(Value(db, k)) >= 0
    ensures Books(t, Opened(db, t), Opened(db, t), 0, 0)
    ensures Held(Opened(db, t), t.accounts) == Balances(db, t.accounts)
  {
    OpenedSums(db, t, t.accounts);
  }

  lemma {:induction false} OpenedSums(db: Db, t: Token, ks: seq<Key>)
    requires forall k :: k in ks ==> k in t.accounts
    ensures Net(Opened(db, t), ks) == 0 && Held(Opened(db, t), ks) == Balances(db, ks)
  {
    if ks != [] {
      OpenedSums(db, t, ks[1..]);
    }
  }

  lemma {:induction false} WriteNetIsNet(c0: Cache, c: Cache, ks: seq<Key>, ws: seq<(Key, Delta)>)
    requires AllAdd(c0, c) && forall k :: k in ks ==> k in c && AtKey(k, ws) == GetDeltas(c[k])
    ensures WriteNet(ks, ws) == Net(c, ks)
  {
    if ks != [] {
      AddsDeltas(c0[ks[0]].current, c[ks[0]]);
      WriteNetIsNet(c0, c, ks[1..], ws);
    }
  }

  lemma TxNet(db: Db, t: Token, calls: seq<Call>, ws: seq<(Key, Delta)>)
    requires WellFormed(t) && (forall k :: k in t.accounts ==> IntOf(Value(db, k)) >= 0)
    requires RunsCalls(Opened(db, t), t, calls, ws) && Balances(db, t.accounts) + Minted(calls) <= INT64_MAX
    ensures WriteNet(t.accounts, ws) == Minted(calls) && NetOf(AtKey(t.supply, ws)) == Minted(calls)
  {
    var c0 := Opened(db, t);
    OpenedIsBalanced(db, t);
    CallsBalance(t, c0, c0, 0, calls);
    var c := RunCalls(c0, t.supply, calls).value;
    WriteNetIsNet(c0, c, t.accounts, ws);
    AddsDeltas(c0[t.supply].current, c[t.supply]);
  }

  /** Every write to a tracked key adds to its stored value. */
  ghost predicate AddsToStored(db: Db, k: Key, ds: seq<Delta>) {
    forall d :: d in ds ==> d.Int64SetAdd? && d.setValue == IntOf(Value(db, k))
  }

  // ---- one block ----

  ghost predicate TxsOk(db: Db, t: Token, program: nat -> seq<Call>) {
    forall j :: 0 <= j < |db.txs| ==> RunsCalls(Opened(db, t), t, program(db.txs[j].id), db.txs[j].writes)
  }

  lemma {:induction false} MintsAreNonnegative(db: Db, t: Token, program: nat -> seq<Call>, txs: seq<Tx>)
    requires forall j :: 0 <= j < |txs| ==> RunsCalls(Opened(db, t), t, program(txs[j].id), txs[j].writes)
    ensures MintedBy(txs, program) >= 0
  {
    if txs != [] {
      MintsAreNonnegative(db, t, program, txs[..|txs| - 1]);
      MintedNonnegative(Opened(db, t), t.supply, program(txs[|txs| - 1].id));
    }
  }

  lemma {:induction false} BlockNetIsMinted(db: Db, t: Token, program: nat -> seq<Call>, txs: seq<Tx>)
    requires WellFormed(t) && (forall k :: k in t.accounts ==> IntOf(Value(db, k)) >= 0)
    requires forall j :: 0 <= j < |txs| ==> RunsCalls(Opened(db, t), t, program(txs[j].id), txs[j].writes)
    requires Balances(db, t.accounts) + MintedBy(txs, program) <= INT64_MAX
    ensures BlockNet(t.accounts, txs) == MintedBy(txs, program)
    ensures NetOf(SucceededDeltas(t.supply, txs)) == MintedBy(txs, program)
  {
    if txs == [] {
      BlockNetNone(t.accounts);
    } else {
      var last, front := txs[|txs| - 1], txs[..|txs| - 1];
      MintedNonnegative(Opened(db, t), t.supply, program(last.id));
      MintsAreNonnegative(db, t, program, front);
      BlockNetIsMinted(db, t, program, front);
      BlockNetSplits(t.accounts, txs);
      SucceededNet(t.supply, txs);
      if last.phase.Succeeded? {
        TxNet(db, t, program(last.id), last.writes);
      }
    }
  }

  lemma {:induction false} BlockAdds(db: Db, t: Token, program: nat -> seq<Call>, txs: seq<Tx>, k: Key)
    requires Tracks(t, k)
    requires forall j :: 0 <= j < |txs| ==> RunsCalls(Opened(db, t), t, program(txs[j].id), txs[j].writes)
    ensures AddsToStored(db, k, SucceededDeltas(k, txs))
  {
    if txs != [] {
      BlockAdds(db, t, program, txs[..|txs| - 1], k);
      var c0, last := Opened(db, t), txs[|txs| - 1];
      CallsAdd(c0, c0, t.supply, program(last.id));
    }
  }

  /** Committed debits are covered by the stored value. */
  lemma DebitsAreCovered(db: Db, k: Key)
    requires RunInv(db) && AllConcluded(db) && AddsToStored(db, k, SucceededDeltas(k, db.txs))
    ensures IntOf(Value(db, k)) >= 0 ==> IntOf(Value(db, k)) + NetOf(SucceededDeltas(k, db.txs)) >= 0
  {
    var ds, ss := CommittedDeltas(k, db.clients), SucceededDeltas(k, db.txs);
    assert KeyOk(db, k);
    ConcludedQuiescent(db, k);
    CommittedAreSucceeded(db, k);
    PermutedMembers(ds, ss);
    NoAssetsFit(Value(db, k), ds);
    CommittedFit(k, ObjectAt(db, k), db.clients);
    SumPermutes(Subtracted, ds, ss);
    SumSign(Added, ss);
    SumSign(Subtracted, ss);
    if ss != [] {
      assert ss[0] in ss;
    }
  }

  predicate Moved(db: Db, db2: Db, k: Key) {
    var v := IntOf(Value(db, k)) + NetOf(SucceededDeltas(k, db.txs));
    v >= 0 && IntOf(Value(db2, k)) == Min(INT64_MAX, v)
  }

  /** With nobody below zero, no balance reaches the cap unless the sum does. */
  lemma {:induction false} SumsMove(db: Db, db2: Db, ks: seq<Key>)
    requires forall k :: k in ks ==> Moved(db, db2, k)
    requires Balances(db, ks) + BlockNet(ks, db.txs) <= INT64_MAX
    ensures Balances(db2, ks) == Balances(db, ks) + BlockNet(ks, db.txs)
  {
    if ks != [] {
      SumsNonnegative(db, db2, ks[1..]);
      assert ks[0] in ks && forall k :: k in ks[1..] ==> k in ks;
      SumsMove(db, db2, ks[1..]);
    }
  }

  lemma {:induction false} SumsNonnegative(db: Db, db2: Db, ks: seq<Key>)
    requires forall k :: k in ks ==> Moved(db, db2, k)
    ensures Balances(db, ks) + BlockNet(ks, db.txs) >= 0
  {
    if ks != [] {
      assert ks[0] in ks && forall k :: k in ks[1..] ==> k in ks;
      SumsNonnegative(db, db2, ks[1..]);
    }
  }

  lemma KeyFolds(db: Db, listings: map<Key, seq<Entry>>, k: Key)
    requires RunInv(db) && AllConcluded(db) && ListsTables(db, listings)
    requires AddsToStored(db, k, SucceededDeltas(k, db.txs)) && IntOf(Value(db, k)) >= 0
    ensures Moved(db, NextBlock(db, FinishedMain(db, listings)), k)
  {
    DebitsAreCovered(db, k);
    AcceptedBlockFolds(db, listings, k);
  }

  // ---- every run ----

  ghost predicate Conserved(db: Db, t: Token, minted: int) {
    && (forall k :: Tracks(t, k) ==> IntOf(Value(db, k)) >= 0)
    && (minted <= INT64_MAX ==> Balances(db, t.accounts) == minted && IntOf(Value(db, t.supply)) == minted)
  }

  ghost predicate AllMoved(db: Db, db2: Db, t: Token) { forall k :: Tracks(t, k) ==> Moved(db, db2, k) }

  lemma AllMove(db: Db, t: Token, program: nat -> seq<Call>, listings: map<Key, seq<Entry>>, minted: int)
    requires RunInv(db) && TxsOk(db, t, program) && AllConcluded(db) && ListsTables(db, listings)
    requires Conserved(db, t, minted)
    ensures AllMoved(db, NextBlock(db, FinishedMain(db, listings)), t)
  {
    forall k | Tracks(t, k)
      ensures Moved(db, NextBlock(db, FinishedMain(db, listings)), k)
    {
      BlockAdds(db, t, program, db.txs, k);
      KeyFolds(db, listings, k);
    }
  }

  lemma MovesConserve(db: Db, db2: Db, t: Token, program: nat -> seq<Call>, minted: int)
    requires WellFormed(t) && TxsOk(db, t, program) && Conserved(db, t, minted)
    requires AllMoved(db, db2, t)
    ensures Conserved(db2, t, minted + MintedBy(db.txs, program))
  {
    MintsAreNonnegative(db, t, program, db.txs);
    if minted + MintedBy(db.txs, program) <= INT64_MAX {
      BlockNetIsMinted(db, t, program, db.txs);
      ConservedAfter(db, db2, t, minted, MintedBy(db.txs, program));
    }
  }

  lemma ConservedAfter(db: Db, db2: Db, t: Token, minted: int, more: int)
    requires Balances(db, t.accounts) == minted && IntOf(Value(db, t.supply)) == minted
    requires BlockNet(t.accounts, db.txs) == more && NetOf(SucceededDeltas(t.supply, db.txs)) == more
    requires AllMoved(db, db2, t) && minted + more <= INT64_MAX
    ensures Balances(db2, t.accounts) == minted + more && IntOf(Value(db2, t.supply)) == minted + more
  {
    assert forall k :: k in t.accounts ==> Tracks(t, k);
    SumsMove(db, db2, t.accounts);
    assert Tracks(t, t.supply) && Moved(db, db2, t.supply);
  }

  lemma {:induction false} SameBalances(db: Db, db2: Db, ks: seq<Key>)
    requires forall k :: Value(db2, k) == Value(db, k)
    ensures Balances(db2, ks) == Balances(db, ks)
  {
    if ks != [] {
      SameBalances(db, db2, ks[1..]);
    }
  }

  /** The transactions in progress and the books, as every action keeps them. */
  ghost predicate BooksOk(db: Db, t: Token, program: nat -> seq<Call>, minted: int) {
    TxsOk(db, t, program) && Conserved(db, t, minted)
  }

  lemma SameValuesSameBooks(db: Db, db2: Db, t: Token, minted: int)
    requires Conserved(db, t, minted) && forall k :: Value(db2, k) == Value(db, k)
    ensures Conserved(db2, t, minted) && Opened(db2, t) == Opened(db, t)
  {
    SameBalances(db, db2, t.accounts);
  }

  lemma QuietActionConserves(db: Db, t: Token, program: nat -> seq<Call>, a: Action, minted: int)
    requires RunInv(db) && BooksOk(db, t, program, minted) && Obeys(db, t, program, a) && !Accepts(db, a)
    ensures BooksOk(Apply(db, a), t, program, minted + MintedIn(db, program, a))
  {
    var db2 := Apply(db, a);
    ActionRefinesLedger(db, a);
    assert forall k :: Value(db2, k) == Value(db, k);
    SameValuesSameBooks(db, db2, t, minted);
    if !a.Submit? {
      SameWrites(db, a);
    }
  }

  lemma FreshBlockOk(db: Db, t: Token, program: nat -> seq<Call>, main: map<Key, Obj>)
    ensures TxsOk(NextBlock(db, main), t, program)
  {
  }

  lemma AcceptedBlockConserves(db: Db, t: Token, program: nat -> seq<Call>, listings: map<Key, seq<Entry>>, minted: int, db2: Db)
    requires WellFormed(t) && RunInv(db) && BooksOk(db, t, program, minted)
    requires AllConcluded(db) && ListsTables(db, listings) && db2 == NextBlock(db, FinishedMain(db, listings))
    ensures BooksOk(db2, t, program, minted + MintedBy(db.txs, program))
  {
    AllMove(db, t, program, listings, minted);
    FreshBlockOk(db, t, program, FinishedMain(db, listings));
    MovesConserve(db, db2, t, program, minted);
  }

  lemma ActionConserves(db: Db, t: Token, program: nat -> seq<Call>, a: Action, minted: int, db2: Db, total: int)
    requires WellFormed(t) && RunInv(db) && BooksOk(db, t, program, minted) && Obeys(db, t, program, a)
    requires db2 == Apply(db, a) && total == minted + MintedIn(db, program, a)
    ensures RunInv(db2) && BooksOk(db2, t, program, total)
  {
    ApplyKeepsInv(db, a);
    if Accepts(db, a) {
      AcceptedBlockConserves(db, t, program, a.listings, minted, db2);
    } else {
      QuietActionConserves(db, t, program, a, minted);
    }
  }

  lemma {:induction false} RunConserves(db: Db, t: Token, program: nat -> seq<Call>, actions: seq<Action>, minted: int)
    requires WellFormed(t) && RunInv(db) && BooksOk(db, t, program, minted) && AllObey(db, t, program, actions)
    ensures Conserved(Execute(db, actions), t, minted + TotalMinted(db, program, actions))
    decreases |actions|
  {
    if actions != [] {
      var db2, total := Apply(db, actions[0]), minted + MintedIn(db, program, actions[0]);
      ActionConserves(db, t, program, actions[0], minted, db2, total);
      RunConserves(db2, t, program, actions[1..], total);
    }
  }

  lemma {:induction false} NothingHeldAtFirst(ks: seq<Key>)
    ensures Balances(GENESIS, ks) == 0
  {
    if ks != [] {
      NothingHeldAtFirst(ks[1..]);
    }
  }

  /** Over every run: no balance is negative, and as long as no more than the
      largest integer was minted, the balances add up to exactly what the
      accepted blocks minted, which is also the recorded supply. */
  lemma TokenIsConserved(t: Token, program: nat -> seq<Call>, actions: seq<Action>)
    requires WellFormed(t) && AllObey(GENESIS, t, program, actions)
    ensures var db := Execute(GENESIS, actions);
      var minted := TotalMinted(GENESIS, program, actions);
      && (forall k :: k in t.accounts ==> IntOf(Value(db, k)) >= 0)
      && (minted <= INT64_MAX ==> Balances(db, t.accounts) == minted == IntOf(Value(db, t.supply)))
  {
    GenesisStarts();
    NothingHeldAtFirst(t.accounts);
    RunConserves(GENESIS, t, program, actions, 0);
    assert forall k :: k in t.accounts ==> Tracks(t, k);
  }
}
