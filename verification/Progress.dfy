/** How a transaction gets on. A transaction whose deltas do not wait can always
    make its next step, every step brings it closer to its end, and its deltas
    wait only for a slot that more than 256 deltas of the transactions in
    progress reserve. */
module Progress {
  import opened StorageTypes
  import opened Objects
  import opened ObjectInvariant
  import opened Folds
  import opened ObjectRounds
  import opened Database
  import opened DatabaseRuns
  import opened Ledger

  predicate InProgress(tx: Tx) { !tx.phase.Succeeded? && !tx.phase.Failed? }

  /** How many of the writes reserve the slot of the key. */
  function SlotWrites(k: Key, ws: seq<(Key, Delta)>): int { Sum(Slots, AtKey(k, ws)) }

  /** The same over all transactions in progress among the first `n`. */
  function Load(k: Key, txs: seq<Tx>, n: nat): int
    requires n <= |txs|
  {
    if n == 0 then 0 else Load(k, txs, n - 1) + (if InProgress(txs[n - 1]) then SlotWrites(k, txs[n - 1].writes) else 0)
  }

  function OwnedLoad(k: Key, txs: seq<Tx>, n: nat, cs: seq<Client>): int
    requires n <= |txs|
  {
    if n == 0 then 0
    else OwnedLoad(k, txs, n - 1, cs) + (if InProgress(txs[n - 1]) then SlotWrites(k, Owned(n - 1, cs)) else 0)
  }

  // ---- who holds a slot ----

  function SlotOne(k: Key, w: (Key, Delta)): int { if w.0 == k then PartOf(Slots, w.1) else 0 }

  lemma SlotWritesFirst(k: Key, ws: seq<(Key, Delta)>)
    requires ws != []
    ensures SlotWrites(k, ws) == SlotOne(k, ws[0]) + SlotWrites(k, ws[1..])
  {
    SumAppend(Slots, if ws[0].0 == k then [ws[0].1] else [], AtKey(k, ws[1..]));
    if ws[0].0 == k {
      assert [ws[0].1][1..] == [];
    }
  }

  lemma {:induction false} SlotWritesSplit(k: Key, a: seq<(Key, Delta)>, b: seq<(Key, Delta)>)
    ensures SlotWrites(k, a + b) == SlotWrites(k, a) + SlotWrites(k, b)
  {
    if a == [] {
      assert a + b == b;
    } else {
      var c := a + b;
      assert c[0] == a[0] && c[1..] == a[1..] + b;
      SlotWritesFirst(k, a);
      SlotWritesFirst(k, c);
      SlotWritesSplit(k, a[1..], b);
    }
  }

  lemma SlotWritesPrefix(k: Key, ws: seq<(Key, Delta)>, n: nat)
    requires n <= |ws|
    ensures 0 <= SlotWrites(k, ws[..n]) <= SlotWrites(k, ws)
  {
    assert ws == ws[..n] + ws[n..];
    SlotWritesSplit(k, ws[..n], ws[n..]);
    SumSign(Slots, AtKey(k, ws[..n]));
    SumSign(Slots, AtKey(k, ws[n..]));
  }

  /** One client more adds to the load of its owner alone. */
  lemma {:induction false} OwnedLoadFirst(k: Key, txs: seq<Tx>, n: nat, cs: seq<Client>)
    requires n <= |txs| && cs != []
    ensures OwnedLoad(k, txs, n, cs) == OwnedLoad(k, txs, n, cs[1..]) +
      (if cs[0].owner < n && InProgress(txs[cs[0].owner]) then SlotOne(k, (cs[0].key, cs[0].delta)) else 0)
  {
    if n > 0 {
      OwnedLoadFirst(k, txs, n - 1, cs);
      if cs[0].owner == n - 1 {
        SlotWritesFirst(k, Owned(n - 1, cs));
        assert Owned(n - 1, cs)[1..] == Owned(n - 1, cs[1..]);
      } else {
        assert Owned(n - 1, cs) == Owned(n - 1, cs[1..]);
      }
    }
  }

  lemma {:induction false} NoLoad(k: Key, txs: seq<Tx>, n: nat)
    requires n <= |txs|
    ensures OwnedLoad(k, txs, n, []) == 0
  {
    if n > 0 {
      NoLoad(k, txs, n - 1);
    }
  }

  lemma {:induction false} HoldersWithinLoad(k: Key, txs: seq<Tx>, cs: seq<Client>)
    requires forall i :: 0 <= i < |cs| && HoldsLive(cs[i], k) ==> cs[i].owner < |txs| && InProgress(txs[cs[i].owner])
    ensures Total(Holders, k, cs) <= OwnedLoad(k, txs, |txs|, cs)
  {
    if cs == [] {
      NoLoad(k, txs, |txs|);
    } else {
      HoldersWithinLoad(k, txs, cs[1..]);
      OwnedLoadFirst(k, txs, |txs|, cs);
    }
  }

  lemma {:induction false} OwnedLoadUpdate(k: Key, txs: seq<Tx>, n: nat, cs: seq<Client>, i: nat, c: Client)
    requires n <= |txs| && i < |cs| && c.key == cs[i].key && c.delta == cs[i].delta && c.owner == cs[i].owner
    ensures OwnedLoad(k, txs, n, cs[i := c]) == OwnedLoad(k, txs, n, cs)
  {
    if n > 0 {
      OwnedLoadUpdate(k, txs, n - 1, cs, i, c);
      OwnedUpdate(n - 1, cs, i, c);
    }
  }

  lemma {:induction false} OwnedWithinLoad(db: Db, k: Key, n: nat)
    requires OwnedOk(db) && n <= |db.txs|
    ensures OwnedLoad(k, db.txs, n, db.clients) <= Load(k, db.txs, n)
  {
    if n > 0 {
      OwnedWithinLoad(db, k, n - 1);
      assert WroteSoFar(db, n - 1);
      SlotWritesPrefix(k, db.txs[n - 1].writes, |db.txs[n - 1].at|);
    }
  }

  /** Whoever holds an unfinalized slot belongs to a transaction in progress. */
  lemma HoldersInProgress(db: Db, k: Key, i: nat)
    requires RunInv(db) && !ObjectAt(db, k).slot.finalized && i < |db.clients| && HoldsLive(db.clients[i], k)
    ensures db.clients[i].owner < |db.txs| && InProgress(db.txs[db.clients[i].owner])
  {
    assert KeyOk(db, k) && Mine(k, db.clients, i);
    assert PhaseFits(db.txs[db.clients[i].owner].phase, db.clients[i]);
  }

  /** A delta waits to reserve a slot only under a load of more than 256. */
  lemma WaitingMeansLoad(db: Db, i: nat)
    requires RunInv(db) && i < |db.clients| && db.clients[i].phase.Trying?
    requires Waits(ObjectAt(db, db.clients[i].key), db.clients[i])
    ensures Load(db.clients[i].key, db.txs, |db.txs|) > MAX_INFLIGHT
  {
    var c, k := db.clients[i], db.clients[i].key;
    var cs := db.clients[i := c.(phase := SlotHeld, live := true)];
    assert KeyOk(db, k) && Mine(k, db.clients, i);
    assert PhaseFits(db.txs[c.owner].phase, c);
    forall h | 0 <= h < |cs| && HoldsLive(cs[h], k)
      ensures cs[h].owner < |db.txs| && InProgress(db.txs[cs[h].owner])
    {
      if h != i {
        HoldersInProgress(db, k, h);
      }
    }
    HoldersWithinLoad(k, db.txs, cs);
    TotalUpdate(Holders, k, db.clients, i, cs[i]);
    OwnedLoadUpdate(k, db.txs, |db.txs|, db.clients, i, cs[i]);
    OwnedWithinLoad(db, k, |db.txs|);
  }

  // ---- every step is progress ----

  function Weight(c: Client): nat {
    match c.phase
    case Trying => 9
    case SlotHeld => 8
    case Counted => 7
    case Overflowed => 6
    case Releasing => 5
    case Reserved => 4
    case CommitMid => 3
    case RevertMid => 3
    case CommitSlot => 2
    case RevertSlot => 2
    case _ => 0
  }

  lemma NextIsLighter(o: Obj, c: Client, choice: Choice)
    requires ValidPhase(c) && Weight(c) > 0 && !Waits(o, c)
    ensures Weight(Next(o, c, choice).1) < Weight(c)
  {
    match c.phase
    case SlotHeld =>
      var r := CountStep(o, c).1;
      assert r.phase.Reserved? || r.phase.Counted? || r.phase.Overflowed? || r.phase.Releasing?;
    case Reserved =>
      var r := CommitStep(o, c).1;
      assert r.phase.CommitMid? || r.phase.CommitSlot?;
      var q := RevertStep(o, c).1;
      assert q.phase.RevertMid? || q.phase.RevertSlot?;
    case _ =>
  }

  function Weights(cs: seq<Client>): nat { if cs == [] then 0 else Weight(cs[0]) + Weights(cs[1..]) }

  lemma {:induction false} WeightsUpdate(cs: seq<Client>, i: nat, c: Client)
    requires i < |cs|
    ensures Weights(cs[i := c]) == Weights(cs) - Weight(cs[i]) + Weight(c)
  {
    if i == 0 {
      assert cs[0 := c] == [c] + cs[1..];
    } else {
      WeightsUpdate(cs[1..], i - 1, c);
      assert cs[i := c] == [cs[0]] + cs[1..][i - 1 := c];
    }
  }

  lemma {:induction false} WeightsAppend(cs: seq<Client>, c: Client)
    ensures Weights(cs + [c]) == Weights(cs) + Weight(c)
  {
    if cs == [] {
      assert cs + [c] == [c];
    } else {
      WeightsAppend(cs[1..], c);
      assert cs + [c] == [cs[0]] + (cs[1..] + [c]);
    }
  }

  function PhaseWeight(t: TxPhase): nat { if t.Pushing? then 2 else if t.Committing? || t.Aborting? then 1 else 0 }

  /** What the transaction has ahead of it, at most. */
  function Ahead(db: Db, j: nat): int
    requires j < |db.txs|
  {
    10 * (|db.txs[j].writes| - |db.txs[j].at|) + Weights(db.clients) + PhaseWeight(db.txs[j].phase)
  }

  /** No delta of the transaction waits. */
  ghost predicate NoneWaits(db: Db, j: int) {
    forall i :: 0 <= i < |db.clients| && db.clients[i].owner == j ==> !Waits(ObjectAt(db, db.clients[i].key), db.clients[i])
  }

  predicate HasRoom(db: Db, j: nat)
    requires j < |db.txs|
  {
    |db.clients| + |db.txs[j].writes| - |db.txs[j].at| <= MAX_DELTAS
  }

  /** The action is a step of transaction `j`, which goes on to commit. */
  predicate By(a: Action, j: nat) {
    match a
    case Push(x) => x == j
    case Advance(x) => x == j
    case Abandon(x) => x == j
    case Decide(x, accepted) => x == j && accepted
    case Work(x, _) => x == j
    case Conclude(x) => x == j
    case _ => false
  }

  lemma StepAhead(db: Db, j: nat, i: nat, choice: Choice)
    requires RunInv(db) && j < |db.txs| && i < |db.clients| && Weight(db.clients[i]) > 0
    requires !Waits(ObjectAt(db, db.clients[i].key), db.clients[i])
    ensures Ahead(ClientStep(db, i, choice), j) < Ahead(db, j)
  {
    var c := db.clients[i];
    assert KeyOk(db, c.key) && Mine(c.key, db.clients, i);
    NextIsLighter(ObjectAt(db, c.key), c, choice);
    WeightsUpdate(db.clients, i, Next(ObjectAt(db, c.key), c, choice).1);
  }

  lemma PushAhead(db: Db, j: nat)
    requires RunInv(db) && j < |db.txs| && db.txs[j].phase.Pushing? && HasRoom(db, j)
    requires |db.txs[j].at| < |db.txs[j].writes| && (db.txs[j].at == [] || LastIs(db, db.txs[j], true))
    ensures Ahead(Apply(db, Push(j)), j) < Ahead(db, j)
  {
    var w := db.txs[j].writes[|db.txs[j].at|];
    WeightsAppend(db.clients, Client(w.0, j, w.1, false, Trying));
    assert Apply(db, Push(j)) == PushWrite(db, j);
  }

  lemma ReservingMoves(db: Db, j: nat) returns (a: Action)
    requires RunInv(db) && j < |db.txs| && db.txs[j].phase.Pushing? && NoneWaits(db, j) && HasRoom(db, j)
    ensures By(a, j) && Ahead(Apply(db, a), j) < Ahead(db, j)
  {
    var tx := db.txs[j];
    assert WroteSoFar(db, j);
    if tx.at == [] || LastIs(db, tx, true) {
      if |tx.at| < |tx.writes| {
        a := Push(j);
        PushAhead(db, j);
      } else {
        a := Decide(j, true);
      }
    } else {
      a := SettlingMoves(db, j);
    }
  }

  /** The delta that is being reserved goes on, or was refused. */
  lemma SettlingMoves(db: Db, j: nat) returns (a: Action)
    requires RunInv(db) && j < |db.txs| && db.txs[j].phase.Pushing? && NoneWaits(db, j)
    requires db.txs[j].at != [] && !LastIs(db, db.txs[j], true)
    ensures By(a, j) && Ahead(Apply(db, a), j) < Ahead(db, j)
  {
    var tx := db.txs[j];
    var i := tx.at[|tx.at| - 1];
    assert Carries(db, j, |tx.at| - 1, i);
    assert PhaseFits(tx.phase, db.clients[i]);
    if db.clients[i].phase.Refused? {
      a := Abandon(j);
    } else {
      a := Advance(j);
      StepAhead(db, j, i, Commit);
    }
  }

  predicate Rests(c: Client, committed: bool) {
    if committed then c.phase.Committed? else c.phase.Reverted? || c.phase.Refused?
  }

  lemma EndingMoves(db: Db, j: nat) returns (a: Action)
    requires RunInv(db) && j < |db.txs| && NoneWaits(db, j)
    requires db.txs[j].phase.Committing? || db.txs[j].phase.Aborting?
    ensures By(a, j) && Ahead(Apply(db, a), j) < Ahead(db, j)
  {
    var tx, committed := db.txs[j], db.txs[j].phase.Committing?;
    forall p | 0 <= p < |tx.at|
      ensures Carries(db, j, p, tx.at[p])
    {
    }
    if p :| 0 <= p < |tx.at| && !Rests(db.clients[tx.at[p]], committed) {
      a := Work(j, p);
      assert Carries(db, j, p, tx.at[p]);
      assert PhaseFits(tx.phase, db.clients[tx.at[p]]);
      StepAhead(db, j, tx.at[p], if committed then Commit else Revert);
    } else {
      a := Conclude(j);
      assert AllAre(db, tx, committed);
    }
  }

  /** A transaction none of whose deltas waits has a step to make. */
  lemma CanMove(db: Db, j: nat) returns (a: Action)
    requires RunInv(db) && j < |db.txs| && InProgress(db.txs[j]) && NoneWaits(db, j) && HasRoom(db, j)
    ensures By(a, j) && Ahead(Apply(db, a), j) < Ahead(db, j)
  {
    if db.txs[j].phase.Pushing? {
      a := ReservingMoves(db, j);
    } else {
      a := EndingMoves(db, j);
    }
  }
}
