/** Validating a block in an order of one's own: exactly which orders can be
    executed one transaction after the other, and what suffices for any
    interleaving. */
module Orders {
  import opened StorageTypes
  import opened Folds
  import opened ObjectRounds
  import opened Database
  import opened DatabaseRuns
  import opened Ledger
  import opened BlockValidation
  import opened Jams
  import opened Progress
  import opened TxRuns

  // ---- submitting ----

  function SubmitOf(t: Tx): Action { Submit(t.id, t.writes, t.loaded) }

  function Start(db: Db, t: Tx): Db { Apply(db, SubmitOf(t)) }

  predicate AlikeWrites(a: seq<Tx>, b: seq<Tx>) { |a| == |b| && forall i :: 0 <= i < |a| ==> a[i].writes == b[i].writes }

  lemma {:induction false} SubmittedSame(k: Key, a: seq<Tx>, b: seq<Tx>)
    requires AlikeWrites(a, b)
    ensures Submitted(k, a) == Submitted(k, b)
  {
    if a != [] {
      SubmittedSame(k, a[..|a| - 1], b[..|b| - 1]);
    }
  }

  lemma {:induction false} SubmittedSplit(k: Key, a: seq<Tx>, b: seq<Tx>)
    ensures Submitted(k, a + b) == Submitted(k, a) + Submitted(k, b)
  {
    if b == [] {
      assert a + b == a;
    } else {
      var front, last := b[..|b| - 1], b[|b| - 1];
      SubmittedSplit(k, a, front);
      assert (a + b)[..|a + b| - 1] == a + front;
      assert Submitted(k, a) + Submitted(k, front) + AtKey(k, last.writes) == Submitted(k, a) + (Submitted(k, front) + AtKey(k, last.writes));
    }
  }

  function TotalWrites(ts: seq<Tx>): nat { if ts == [] then 0 else |ts[0].writes| + TotalWrites(ts[1..]) }

  predicate WithinAt(db: Db, block: seq<Tx>, ts: seq<Tx>, k: Key) {
    multiset(Submitted(k, db.txs + ts)) <= multiset(SucceededDeltas(k, block))
  }

  /** A validator between two transactions, with `ts` of the block to come. */
  ghost predicate Idle(db: Db, block: seq<Tx>, ts: seq<Tx>) {
    && RunInv(db) && Serving(db, block) && AllConcluded(db)
    && (forall k :: WithinAt(db, block, ts, k))
    && |db.clients| + TotalWrites(ts) <= MAX_DELTAS
  }

  lemma StartIsInBlock(db: Db, block: seq<Tx>, ts: seq<Tx>, k: Key)
    requires ts != [] && WithinAt(db, block, ts, k)
    ensures multiset(Submitted(k, Start(db, ts[0]).txs)) <= multiset(SucceededDeltas(k, block))
  {
    var txs := Start(db, ts[0]).txs;
    SubmittedSame(k, txs, db.txs + [ts[0]]);
    assert db.txs + ts == (db.txs + [ts[0]]) + ts[1..];
    SubmittedSplit(k, db.txs + [ts[0]], ts[1..]);
  }

  lemma StartServes(db: Db, block: seq<Tx>, ts: seq<Tx>)
    requires Idle(db, block, ts) && ts != []
    ensures InBlock(db, block, SubmitOf(ts[0]))
    ensures var s := Start(db, ts[0]); RunInv(s) && Serving(s, block) && Alone(s, |db.txs|)
  {
    var a := SubmitOf(ts[0]);
    forall k
      ensures multiset(Submitted(k, Apply(db, a).txs)) <= multiset(SucceededDeltas(k, block))
    {
      assert WithinAt(db, block, ts, k);
      StartIsInBlock(db, block, ts, k);
    }
    ApplyKeepsInv(db, a);
    ActionServes(db, block, a);
  }

  // ---- running ----

  lemma {:induction false} ByValidates(db: Db, block: seq<Tx>, actions: seq<Action>, j: nat)
    requires AllBy(actions, j)
    ensures AllValidate(db, block, actions)
    decreases |actions|
  {
    if actions != [] {
      ByValidates(Apply(db, actions[0]), block, actions[1..], j);
    }
  }

  lemma ByRuns(s: Db, block: seq<Tx>, j: nat, actions: seq<Action>)
    requires RunInv(s) && Serving(s, block) && j < |s.txs| && AllBy(actions, j)
    ensures var r := Execute(s, actions); RunInv(r) && Serving(r, block) && OnlyBy(s, r, j)
  {
    RunOnlyBy(s, actions, j);
    ByValidates(s, block, actions, j);
    RunServes(s, block, actions);
  }

  lemma AlikeAfter(db: Db, ts: seq<Tx>, r: Db)
    requires ts != [] && OnlyBy(Start(db, ts[0]), r, |db.txs|)
    ensures AlikeWrites(r.txs, db.txs + [ts[0]]) && AlikeWrites(r.txs + ts[1..], db.txs + ts)
  {
  }

  lemma DoneAfter(db: Db, t: Tx, r: Db)
    requires AllConcluded(db) && RunInv(r) && OnlyBy(Start(db, t), r, |db.txs|) && r.txs[|db.txs|].phase.Succeeded?
    ensures AllConcluded(r) && |r.clients| == |db.clients| + |t.writes|
  {
    assert WroteSoFar(r, |db.txs|);
  }

  /** What a transaction that succeeded by itself leaves to the next. */
  lemma NextIsIdle(db: Db, block: seq<Tx>, ts: seq<Tx>, actions: seq<Action>)
    requires Idle(db, block, ts) && ts != [] && SucceedsBy(Start(db, ts[0]), |db.txs|, actions)
    ensures var r := Execute(Start(db, ts[0]), actions);
      && Idle(r, block, ts[1..]) && OnlyBy(Start(db, ts[0]), r, |db.txs|) && AlikeWrites(r.txs, db.txs + [ts[0]])
  {
    StartServes(db, block, ts);
    ByRuns(Start(db, ts[0]), block, |db.txs|, actions);
    var r := Execute(Start(db, ts[0]), actions);
    AlikeAfter(db, ts, r);
    DoneAfter(db, ts[0], r);
    forall k
      ensures WithinAt(r, block, ts[1..], k)
    {
      assert WithinAt(db, block, ts, k);
      SubmittedSame(k, r.txs + ts[1..], db.txs + ts);
    }
  }

  lemma {:induction false} SomeSlotWrite(k: Key, ws: seq<(Key, Delta)>)
    ensures SlotWrites(k, ws) > 0 <==> exists p :: 0 <= p < |ws| && ws[p].0 == k && !ws[p].1.DeleteLast?
  {
    if ws != [] {
      SlotWritesFirst(k, ws);
      SomeSlotWrite(k, ws[1..]);
      SumSign(Slots, AtKey(k, ws[1..]));
      if p :| 0 <= p < |ws| && ws[p].0 == k && !ws[p].1.DeleteLast? {
        assert p > 0 ==> ws[1..][p - 1] == ws[p];
      }
    }
  }

  lemma SucceededOpens(r: Db, j: nat, k: Key)
    requires RunInv(r) && j < |r.txs| && r.txs[j].phase.Succeeded? && SlotWrites(k, r.txs[j].writes) > 0
    ensures Opened(r, k)
  {
    var ws := r.txs[j].writes;
    SomeSlotWrite(k, ws);
    var p :| 0 <= p < |ws| && ws[p].0 == k && !ws[p].1.DeleteLast?;
    var i := r.txs[j].at[p];
    assert Carries(r, j, p, i);
    assert PhaseFits(r.txs[j].phase, r.clients[i]) && Finalizes(r.clients[i], k);
    assert KeyOk(r, k);
    OpenedByCommit(r, k);
  }

  /** A transaction that succeeded made its slots final, and no others. */
  lemma OpenedAfter(s: Db, r: Db, j: nat, k: Key)
    requires RunInv(s) && RunInv(r) && OnlyBy(s, r, j) && r.txs[j].phase.Succeeded?
    ensures Opened(r, k) <==> Opened(s, k) || SlotWrites(k, r.txs[j].writes) > 0
  {
    assert KeyOk(s, k) && KeyOk(r, k);
    if Opened(s, k) {
      StaysOpened(s, r, j, k);
    }
    if SlotWrites(k, r.txs[j].writes) > 0 {
      SucceededOpens(r, j, k);
    }
    if Opened(r, k) {
      OpenedByCommit(r, k);
      OpenedByCommit(s, k);
      var i :| 0 <= i < |r.clients| && Finalizes(r.clients[i], k);
      if r.clients[i].owner == j {
        assert HasWrite(r, i);
        var p :| Carries(r, j, p, i);
        SomeSlotWrite(k, r.txs[j].writes);
      } else {
        assert SameBut(s.clients[i], r.clients[i], j);
      }
    }
  }

  // ---- which orders can be executed ----

  ghost predicate RunsFirst(db: Db, ts: seq<Tx>, actions: seq<Action>)
    requires ts != []
    decreases |ts|, 0
  {
    SucceedsBy(Start(db, ts[0]), |db.txs|, actions) && CanRun(Execute(Start(db, ts[0]), actions), ts[1..])
  }

  /** One after the other, in this order, each of the transactions can succeed. */
  ghost predicate CanRun(db: Db, ts: seq<Tx>)
    decreases |ts|, 1
  {
    ts == [] || exists actions :: RunsFirst(db, ts, actions)
  }

  /** An earlier transaction of the order reserves the slot of the key. */
  predicate Earlier(k: Key, ts: seq<Tx>, i: nat)
    requires i <= |ts|
  {
    exists h :: 0 <= h < i && SlotWrites(k, ts[h].writes) > 0
  }

  predicate OrderWorksAt(db: Db, ts: seq<Tx>, i: nat, k: Key)
    requires i < |ts|
  {
    WorksAt(db, ts[i].writes, k) || Earlier(k, ts, i)
  }

  /** Whoever reserves a slot more than 256 times finds it final, from before or
      by an earlier transaction of the order. */
  ghost predicate OrderWorks(db: Db, ts: seq<Tx>) {
    forall i, k :: 0 <= i < |ts| ==> OrderWorksAt(db, ts, i, k)
  }

  lemma EarlierShifts(k: Key, ts: seq<Tx>, i: nat)
    requires i < |ts|
    ensures Earlier(k, ts, i + 1) <==> SlotWrites(k, ts[0].writes) > 0 || Earlier(k, ts[1..], i)
  {
    if h :| 0 <= h < i + 1 && SlotWrites(k, ts[h].writes) > 0 {
      assert h > 0 ==> ts[1..][h - 1] == ts[h];
    }
    if h :| 0 <= h < i && SlotWrites(k, ts[1..][h].writes) > 0 {
      assert ts[h + 1] == ts[1..][h];
    }
  }

  /** The rest of the order works after the first transaction if and only if it
      works behind it. */
  lemma RestWorks(db: Db, r: Db, ts: seq<Tx>)
    requires ts != [] && forall k :: Opened(r, k) <==> Opened(db, k) || SlotWrites(k, ts[0].writes) > 0
    ensures OrderWorks(db, ts) <==> Works(db, ts[0].writes) && OrderWorks(r, ts[1..])
  {
    forall k
      ensures OrderWorksAt(db, ts, 0, k) <==> WorksAt(db, ts[0].writes, k)
    {
    }
    forall i, k | 0 <= i < |ts| - 1
      ensures OrderWorksAt(db, ts, i + 1, k) <==> OrderWorksAt(r, ts[1..], i, k)
    {
      EarlierShifts(k, ts, i);
      assert Opened(r, k) <==> Opened(db, k) || SlotWrites(k, ts[0].writes) > 0;
    }
    if Works(db, ts[0].writes) && OrderWorks(r, ts[1..]) {
      forall i, k | 0 <= i < |ts|
        ensures OrderWorksAt(db, ts, i, k)
      {
        assert WorksAt(db, ts[0].writes, k);
        assert i > 0 ==> OrderWorksAt(r, ts[1..], i - 1, k);
      }
    }
    if OrderWorks(db, ts) {
      forall i, k | 0 <= i < |ts| - 1
        ensures OrderWorksAt(r, ts[1..], i, k)
      {
        assert OrderWorksAt(db, ts, i + 1, k);
      }
      forall k
        ensures WorksAt(db, ts[0].writes, k)
      {
        assert OrderWorksAt(db, ts, 0, k);
      }
    }
  }

  lemma AfterFirst(db: Db, block: seq<Tx>, ts: seq<Tx>, actions: seq<Action>)
    requires Idle(db, block, ts) && ts != [] && SucceedsBy(Start(db, ts[0]), |db.txs|, actions)
    ensures var r := Execute(Start(db, ts[0]), actions);
      Idle(r, block, ts[1..]) && (OrderWorks(db, ts) <==> Works(db, ts[0].writes) && OrderWorks(r, ts[1..]))
  {
    NextIsIdle(db, block, ts, actions);
    StartServes(db, block, ts);
    var s := Start(db, ts[0]);
    var r := Execute(s, actions);
    forall k
      ensures Opened(r, k) <==> Opened(db, k) || SlotWrites(k, ts[0].writes) > 0
    {
      OpenedAfter(s, r, |db.txs|, k);
    }
    RestWorks(db, r, ts);
  }

  lemma FirstExactly(db: Db, block: seq<Tx>, ts: seq<Tx>)
    requires Idle(db, block, ts) && ts != []
    ensures CanSucceed(Start(db, ts[0]), |db.txs|) <==> Works(db, ts[0].writes)
  {
    var s := Start(db, ts[0]);
    StartServes(db, block, ts);
    AloneExactly(s, block, |db.txs|);
    forall k
      ensures WorksAt(s, ts[0].writes, k) <==> WorksAt(db, ts[0].writes, k)
    {
    }
  }

  lemma FirstRun(db: Db, ts: seq<Tx>) returns (actions: seq<Action>)
    requires ts != [] && CanRun(db, ts)
    ensures RunsFirst(db, ts, actions)
  {
    actions :| RunsFirst(db, ts, actions);
  }

  /** One transaction after the other, an order of the block can be executed if
      and only if whoever reserves a slot more than 256 times comes after
      somebody who made it final. */
  lemma {:induction false} OrderExactly(db: Db, block: seq<Tx>, ts: seq<Tx>)
    requires Idle(db, block, ts)
    ensures CanRun(db, ts) <==> OrderWorks(db, ts)
    decreases |ts|
  {
    if ts != [] {
      FirstExactly(db, block, ts);
      if CanRun(db, ts) {
        var actions := FirstRun(db, ts);
        AfterFirst(db, block, ts, actions);
        OrderExactly(Execute(Start(db, ts[0]), actions), block, ts[1..]);
      }
      if OrderWorks(db, ts) {
        assert Works(db, ts[0].writes) by {
          forall k
            ensures WorksAt(db, ts[0].writes, k)
          {
            assert OrderWorksAt(db, ts, 0, k);
          }
        }
        var actions :| SucceedsBy(Start(db, ts[0]), |db.txs|, actions);
        AfterFirst(db, block, ts, actions);
        OrderExactly(Execute(Start(db, ts[0]), actions), block, ts[1..]);
        assert RunsFirst(db, ts, actions);
      }
    }
  }

  // ---- every order ----

  lemma SubmittedWithout(k: Key, ts: seq<Tx>, i: nat)
    requires i < |ts|
    ensures multiset(Submitted(k, ts)) == multiset(AtKey(k, ts[i].writes)) + multiset(Submitted(k, Without(ts, i)))
  {
    assert ts == ts[..i] + ([ts[i]] + ts[i + 1..]);
    SubmittedSplit(k, ts[..i], [ts[i]] + ts[i + 1..]);
    SubmittedSplit(k, [ts[i]], ts[i + 1..]);
    SubmittedSplit(k, ts[..i], ts[i + 1..]);
    assert [ts[i]][..0] == [] && Submitted(k, [ts[i]]) == [] + AtKey(k, ts[i].writes);
  }

  lemma {:induction false} WritesWithout(ts: seq<Tx>, i: nat)
    requires i < |ts|
    ensures TotalWrites(ts) == |ts[i].writes| + TotalWrites(Without(ts, i))
  {
    if i == 0 {
      assert Without(ts, 0) == ts[1..];
    } else {
      WritesWithout(ts[1..], i - 1);
      assert Without(ts, i)[1..] == Without(ts[1..], i - 1);
    }
  }

  lemma {:induction false} OrdersAlike(k: Key, us: seq<Tx>, ts: seq<Tx>)
    requires multiset(us) == multiset(ts)
    ensures multiset(Submitted(k, us)) == multiset(Submitted(k, ts)) && TotalWrites(us) == TotalWrites(ts)
  {
    assert |multiset(us)| == |us| && |multiset(ts)| == |ts|;
    if us != [] {
      assert us[0] in multiset(us);
      var i :| 0 <= i < |ts| && ts[i] == us[0];
      SubmittedWithout(k, ts, i);
      SubmittedWithout(k, us, 0);
      WritesWithout(ts, i);
      WithoutMultiset(ts, i);
      WithoutMultiset(us, 0);
      assert Without(us, 0) == us[1..];
      OrdersAlike(k, us[1..], Without(ts, i));
    }
  }

  lemma IdlePermutes(db: Db, block: seq<Tx>, ts: seq<Tx>, us: seq<Tx>)
    requires Idle(db, block, ts) && multiset(us) == multiset(ts)
    ensures Idle(db, block, us)
  {
    OrdersAlike(0, us, ts);
    forall k
      ensures WithinAt(db, block, us, k)
    {
      assert WithinAt(db, block, ts, k);
      OrdersAlike(k, us, ts);
      SubmittedSplit(k, db.txs, us);
      SubmittedSplit(k, db.txs, ts);
    }
  }

  lemma MovedToFront(ts: seq<Tx>, i: nat)
    requires i < |ts|
    ensures multiset([ts[i]] + Without(ts, i)) == multiset(ts)
  {
    WithoutMultiset(ts, i);
  }

  lemma FirstOfSomeOrder(db: Db, block: seq<Tx>, ts: seq<Tx>, i: nat)
    requires Idle(db, block, ts) && i < |ts| && CanRun(db, [ts[i]] + Without(ts, i))
    ensures Works(db, ts[i].writes)
  {
    var us := [ts[i]] + Without(ts, i);
    MovedToFront(ts, i);
    IdlePermutes(db, block, ts, us);
    OrderExactly(db, block, us);
    forall k
      ensures WorksAt(db, ts[i].writes, k)
    {
      assert OrderWorksAt(db, us, 0, k);
    }
  }

  lemma AllSmallRun(db: Db, block: seq<Tx>, ts: seq<Tx>, us: seq<Tx>)
    requires Idle(db, block, ts) && multiset(us) == multiset(ts) && forall t :: t in ts ==> Works(db, t.writes)
    ensures CanRun(db, us)
  {
    IdlePermutes(db, block, ts, us);
    forall i, k | 0 <= i < |us|
      ensures OrderWorksAt(db, us, i, k)
    {
      assert us[i] in multiset(us) && us[i] in multiset(ts);
      assert WorksAt(db, us[i].writes, k);
    }
    OrderExactly(db, block, us);
  }

  /** Every order of the transactions can be executed. */
  ghost predicate EveryOrderRuns(db: Db, ts: seq<Tx>) {
    forall us: seq<Tx> :: multiset(us) == multiset(ts) ==> CanRun(db, us)
  }

  lemma EveryOrderNeeds(db: Db, block: seq<Tx>, ts: seq<Tx>, t: Tx)
    requires Idle(db, block, ts) && EveryOrderRuns(db, ts) && t in ts
    ensures Works(db, t.writes)
  {
    var i :| 0 <= i < |ts| && ts[i] == t;
    MovedToFront(ts, i);
    FirstOfSomeOrder(db, block, ts, i);
  }

  /** Every order of the transactions can be executed if and only if none of
      them reserves a slot that is not yet final more than 256 times. */
  lemma EveryOrderExactly(db: Db, block: seq<Tx>, ts: seq<Tx>)
    requires Idle(db, block, ts)
    ensures EveryOrderRuns(db, ts) <==> (forall t :: t in ts ==> Works(db, t.writes))
  {
    if EveryOrderRuns(db, ts) {
      forall t | t in ts
        ensures Works(db, t.writes)
      {
        EveryOrderNeeds(db, block, ts, t);
      }
    }
    if forall t :: t in ts ==> Works(db, t.writes) {
      forall us: seq<Tx> | multiset(us) == multiset(ts)
        ensures CanRun(db, us)
      {
        AllSmallRun(db, block, ts, us);
      }
    }
  }

  // ---- the run of an order ----

  lemma {:induction false} ValidatesThen(db: Db, block: seq<Tx>, a: seq<Action>, b: seq<Action>)
    requires AllValidate(db, block, a) && AllValidate(Execute(db, a), block, b)
    ensures AllValidate(db, block, a + b)
    decreases |a|
  {
    if a == [] {
      assert a + b == b;
    } else {
      assert (a + b)[1..] == a[1..] + b;
      ValidatesThen(Apply(db, a[0]), block, a[1..], b);
    }
  }

  /** Submits the transaction and runs it as far as it gets. */
  lemma RunOne(db: Db, block: seq<Tx>, ts: seq<Tx>) returns (actions: seq<Action>)
    requires Idle(db, block, ts) && ts != []
    ensures AllValidate(db, block, actions)
    ensures var r := Execute(db, actions);
      && RunInv(r)
      && if Works(db, ts[0].writes) then
           && Idle(r, block, ts[1..]) && AlikeWrites(r.txs, db.txs + [ts[0]])
           && (OrderWorks(db, ts) <==> OrderWorks(r, ts[1..]))
         else exists k :: Jam(r, {k})
  {
    StartServes(db, block, ts);
    var s := Start(db, ts[0]);
    assert Works(s, ts[0].writes) <==> Works(db, ts[0].writes) by {
      assert forall k :: WorksAt(s, ts[0].writes, k) <==> WorksAt(db, ts[0].writes, k);
    }
    var rest := AloneSucceedsOrJams(s, block, |db.txs|);
    actions := [SubmitOf(ts[0])] + rest;
    assert actions[1..] == rest && Execute(db, actions) == Execute(s, rest);
    ByValidates(s, block, rest, |db.txs|);
    if Works(db, ts[0].writes) {
      assert SucceedsBy(s, |db.txs|, rest);
      NextIsIdle(db, block, ts, rest);
      AfterFirst(db, block, ts, rest);
    }
  }

  /** What running the order has come to. */
  ghost predicate RanOrder(db: Db, block: seq<Tx>, ts: seq<Tx>, r: Db) {
    && RunInv(r)
    && if OrderWorks(db, ts) then Idle(r, block, []) && AlikeWrites(r.txs, db.txs + ts) else exists k :: Jam(r, {k})
  }

  lemma RanFirst(db: Db, block: seq<Tx>, ts: seq<Tx>, m: Db, r: Db)
    requires ts != [] && RanOrder(m, block, ts[1..], r) && AlikeWrites(m.txs, db.txs + [ts[0]])
    requires OrderWorks(db, ts) <==> OrderWorks(m, ts[1..])
    ensures RanOrder(db, block, ts, r)
  {
    assert db.txs + ts == (db.txs + [ts[0]]) + ts[1..];
  }

  lemma FirstDoesNotWork(db: Db, ts: seq<Tx>)
    requires ts != [] && !Works(db, ts[0].writes)
    ensures !OrderWorks(db, ts)
  {
    var k :| !WorksAt(db, ts[0].writes, k);
    assert !OrderWorksAt(db, ts, 0, k);
  }

  /** Executed one after the other, an order that works succeeds throughout; any
      other order comes to a transaction that jams its slot for ever. */
  lemma {:induction false} RunOrder(db: Db, block: seq<Tx>, ts: seq<Tx>) returns (actions: seq<Action>)
    requires Idle(db, block, ts)
    ensures AllValidate(db, block, actions)
    ensures RanOrder(db, block, ts, Execute(db, actions))
    decreases |ts|
  {
    if ts == [] {
      actions := [];
      assert db.txs + ts == db.txs;
    } else {
      var first := RunOne(db, block, ts);
      var m := Execute(db, first);
      if Works(db, ts[0].writes) {
        var rest := RunOrder(m, block, ts[1..]);
        actions := first + rest;
        ExecuteSplits(db, first, rest);
        ValidatesThen(db, block, first, rest);
        RanFirst(db, block, ts, m, Execute(m, rest));
      } else {
        actions := first;
        FirstDoesNotWork(db, ts);
      }
    }
  }

  // ---- any interleaving ----

  /** Deltas that no transaction has pushed yet. */
  function Unpushed(txs: seq<Tx>, n: nat): int
    requires n <= |txs|
  {
    if n == 0 then 0 else Unpushed(txs, n - 1) + |txs[n - 1].writes| - |txs[n - 1].at|
  }

  function Running(txs: seq<Tx>, n: nat): nat
    requires n <= |txs|
  {
    if n == 0 then 0 else Running(txs, n - 1) + if InProgress(txs[n - 1]) then 1 else 0
  }

  lemma {:induction false} CountsAfter(txs: seq<Tx>, n: nat, j: nat, tx: Tx)
    requires n <= |txs| && j < |txs| && tx.writes == txs[j].writes && InProgress(txs[j]) && !InProgress(tx)
    ensures Unpushed(txs[j := tx], n) == Unpushed(txs, n) - (if j < n then |tx.at| - |txs[j].at| else 0)
    ensures Running(txs[j := tx], n) == Running(txs, n) - (if j < n then 1 else 0)
  {
    if n > 0 {
      CountsAfter(txs, n - 1, j, tx);
    }
  }

  lemma {:induction false} UnpushedAtLeast(db: Db, n: nat, j: nat)
    requires OwnedOk(db) && n <= |db.txs| && j < |db.txs|
    ensures Unpushed(db.txs, n) >= if j < n then |db.txs[j].writes| - |db.txs[j].at| else 0
  {
    if n > 0 {
      assert WroteSoFar(db, n - 1);
      UnpushedAtLeast(db, n - 1, j);
    }
  }

  /** Under a light load the transactions of the block, wherever each of them
      stands, can all go on to succeed. */
  lemma {:induction false} LightBlockConcludes(db: Db, block: seq<Tx>) returns (actions: seq<Action>)
    requires RunInv(db) && Serving(db, block) && LightLoad(db)
    requires |db.clients| + Unpushed(db.txs, |db.txs|) <= MAX_DELTAS
    ensures AllValidate(db, block, actions)
    ensures var r := Execute(db, actions); RunInv(r) && Serving(r, block) && AllConcluded(r) && AlikeWrites(r.txs, db.txs)
    decreases Running(db.txs, |db.txs|)
  {
    if j :| 0 <= j < |db.txs| && InProgress(db.txs[j]) {
      UnpushedAtLeast(db, |db.txs|, j);
      var first := LightTxSucceeds(db, block, j);
      var m := Execute(db, first);
      assert m.txs == db.txs[j := m.txs[j]];
      CountsAfter(db.txs, |db.txs|, j, m.txs[j]);
      ByValidates(db, block, first, j);
      var rest := LightBlockConcludes(m, block);
      actions := first + rest;
      ExecuteSplits(db, first, rest);
      ValidatesThen(db, block, first, rest);
    } else {
      actions := [];
    }
  }

  // ---- the validator ----

  /** A proposer and a validator, each after any run, that agree on the stored
      values: any order of the proposer's transactions that works is executed to
      the end, one after the other, and accepting stores what the proposer
      stores. */
  lemma OrderValidates(history: seq<Action>, proposer: Db, listings: map<Key, seq<Entry>>,
                       other: seq<Action>, validator: Db, ts: seq<Tx>) returns (actions: seq<Action>)
    requires proposer == Execute(GENESIS, history) && AllConcluded(proposer) && AssetsStandAlone(proposer)
    requires validator == Execute(GENESIS, other) && Ready(validator, proposer)
    requires forall k :: multiset(Submitted(k, ts)) == multiset(SucceededDeltas(k, proposer.txs))
    requires TotalWrites(ts) <= MAX_DELTAS && OrderWorks(validator, ts) && ListsTables(proposer, listings)
    ensures var done := Execute(validator, actions);
      && AllValidate(validator, proposer.txs, actions) && AllConcluded(done)
      && forall k, otherListings :: ListsTables(done, otherListings) ==>
           Value(Apply(done, FinishBlock(otherListings)), k) == Value(Apply(proposer, FinishBlock(listings)), k)
  {
    GenesisStarts();
    RunKeepsInv(GENESIS, history);
    RunKeepsInv(GENESIS, other);
    ReadyServes(validator, proposer);
    assert validator.txs + ts == ts;
    forall k
      ensures WithinAt(validator, proposer.txs, ts, k)
    {
    }
    actions := RunOrder(validator, proposer.txs, ts);
    var done := Execute(validator, actions);
    forall k, otherListings | ListsTables(done, otherListings)
      ensures Value(Apply(done, FinishBlock(otherListings)), k) == Value(Apply(proposer, FinishBlock(listings)), k)
    {
      SubmittedSame(k, done.txs, ts);
      BlockValidates(history, proposer, listings, other, validator, actions, done, otherListings, k);
    }
  }
}
