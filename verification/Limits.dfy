/** The block assembler's admission limits: two counters that every reservation
    draws on, one atomic operation at a time. */
module Limits {
  import opened StorageTypes

  const GAS_LIMIT_PER_TX: int := 10_000_000

  datatype Pc =
    | Start
    | TakeTx
    | RestoreTx   // drew on the transaction count in vain
    | TakeGas
    | RestoreGas(seen: int)  // drew on the gas in vain, having seen this much
    | Refused
    | OutOfGas(seen: int)    // refused for gas; its transaction slot is not given back
    | Live
    | Committed
    | DropTx
    | DropGas
    | Dropped
    | Kept        // dropped with zero gas, which gives nothing back

  datatype Client = Client(gas: uint64, pc: Pc)

  datatype Sys = Sys(txs: int, gas: int, clients: seq<Client>)

  function Next(txs: int, gas: int, c: Client, commit: bool): (int, int, Client) {
    match c.pc
    case Start => (txs, gas, c.(pc := if c.gas > GAS_LIMIT_PER_TX then Refused else TakeTx))
    case TakeTx => (txs - 1, gas, c.(pc := if txs <= 0 then RestoreTx else TakeGas))
    case RestoreTx => (txs + 1, gas, c.(pc := Refused))
    case TakeGas => (txs, gas - c.gas, c.(pc := if gas <= 0 then RestoreGas(gas) else Live))
    case RestoreGas(seen) => (txs, gas + c.gas, c.(pc := OutOfGas(seen)))
    case Live => (txs, gas, c.(pc := if commit then Committed else if c.gas > 0 then DropTx else Kept))
    case DropTx => (txs + 1, gas, c.(pc := DropGas))
    case DropGas => (txs, gas + c.gas, c.(pc := Dropped))
    case _ => (txs, gas, c)
  }

  function Step(s: Sys, i: nat, commit: bool): Sys
    requires i < |s.clients|
  {
    var (txs, gas, c) := Next(s.txs, s.gas, s.clients[i], commit);
    Sys(txs, gas, s.clients[i := c])
  }

  /** Sums over the clients: what they drew and what of it was granted. */
  datatype Measure = TxDrawn | TxGranted | GasDrawn | GasGranted | Admitted | AdmittedGas | Leaked

  predicate HoldsTx(c: Client) {
    c.pc.TakeGas? || c.pc.RestoreGas? || c.pc.OutOfGas? || c.pc.Live? || c.pc.Committed? || c.pc.DropTx? || c.pc.Kept?
  }

  predicate HoldsGas(c: Client) {
    c.pc.Live? || c.pc.Committed? || c.pc.DropTx? || c.pc.DropGas? || c.pc.Kept?
  }

  predicate IsAdmitted(c: Client) { c.pc.Live? || c.pc.Committed? }

  /** The client keeps a transaction slot that it does not use. */
  predicate Leaks(c: Client) { c.pc.OutOfGas? || c.pc.Kept? }

  function Val(m: Measure, c: Client): nat {
    match m
    case TxDrawn => if HoldsTx(c) || c.pc.RestoreTx? then 1 else 0
    case TxGranted => if HoldsTx(c) then 1 else 0
    case GasDrawn => if HoldsGas(c) || c.pc.RestoreGas? then c.gas else 0
    case GasGranted => if HoldsGas(c) then c.gas else 0
    case Admitted => if IsAdmitted(c) then 1 else 0
    case AdmittedGas => if IsAdmitted(c) then c.gas else 0
    case Leaked => if Leaks(c) then 1 else 0
  }

  function Total(m: Measure, cs: seq<Client>): nat {
    if cs == [] then 0 else Val(m, cs[0]) + Total(m, cs[1..])
  }

  lemma {:induction false} TotalUpdate(m: Measure, cs: seq<Client>, i: nat, c: Client)
    requires i < |cs|
    ensures Total(m, cs[i := c]) == Total(m, cs) - Val(m, cs[i]) + Val(m, c)
  {
    if i == 0 {
      assert cs[0 := c] == [c] + cs[1..];
    } else {
      TotalUpdate(m, cs[1..], i - 1, c);
      assert cs[i := c] == [cs[0]] + cs[1..][i - 1 := c];
    }
  }

  lemma {:induction false} TotalsNest(cs: seq<Client>)
    ensures Total(Admitted, cs) <= Total(TxGranted, cs) <= Total(TxDrawn, cs)
    ensures Total(AdmittedGas, cs) <= Total(GasGranted, cs) <= Total(GasDrawn, cs)
  {
    if cs != [] {
      TotalsNest(cs[1..]);
    }
  }

  /** A client past the first check is small; it was refused for gas because it
      saw none left, and kept its slot when dropped because it reserved no gas. */
  predicate ClientOk(c: Client) {
    && (c.pc.Start? || c.pc.Refused? || c.gas <= GAS_LIMIT_PER_TX)
    && (c.pc.RestoreGas? || c.pc.OutOfGas? ==> c.pc.seen <= 0)
    && (c.pc.Kept? ==> c.gas == 0)
    && (c.pc.DropTx? || c.pc.DropGas? || c.pc.Dropped? ==> c.gas > 0)
  }

  /** The counter is the initial limit less what was drawn, and a grant was only
      made while something was left. */
  ghost predicate TxInv(s: Sys, txs: int) {
    && s.txs == txs - Total(TxDrawn, s.clients)
    && Total(TxGranted, s.clients) <= Max(txs, 0)
  }

  ghost predicate GasInv(s: Sys, gas: int) {
    && s.gas == gas - Total(GasDrawn, s.clients)
    && (if gas > 0 then Total(GasGranted, s.clients) < gas + GAS_LIMIT_PER_TX else Total(GasGranted, s.clients) == 0)
  }

  ghost predicate ClientsOk(s: Sys) { forall i :: 0 <= i < |s.clients| ==> ClientOk(s.clients[i]) }

  ghost predicate Inv(s: Sys, txs: int, gas: int) { TxInv(s, txs) && GasInv(s, gas) && ClientsOk(s) }

  lemma StepKeepsTxs(s: Sys, i: nat, commit: bool, txs: int)
    requires TxInv(s, txs) && i < |s.clients|
    ensures TxInv(Step(s, i, commit), txs)
  {
    TotalsNest(s.clients);
    TotalUpdate(TxDrawn, s.clients, i, Step(s, i, commit).clients[i]);
    TotalUpdate(TxGranted, s.clients, i, Step(s, i, commit).clients[i]);
  }

  /** One step's effect on the gas: what leaves the counter is what is newly
      drawn, and a grant is small and made while gas is left. */
  lemma GasStep(txs: int, gas: int, c: Client, commit: bool)
    requires ClientOk(c)
    ensures var (txs2, gas2, c2) := Next(txs, gas, c, commit);
      && gas2 - gas == Val(GasDrawn, c) - Val(GasDrawn, c2)
      && (Val(GasGranted, c2) > Val(GasGranted, c) ==>
            gas > 0 && Val(GasGranted, c) == 0 && Val(GasGranted, c2) <= GAS_LIMIT_PER_TX)
      && ClientOk(c2)
  {
  }

  lemma StepKeepsGas(s: Sys, i: nat, commit: bool, gas: int)
    requires GasInv(s, gas) && i < |s.clients| && ClientOk(s.clients[i])
    ensures GasInv(Step(s, i, commit), gas)
  {
    var c2 := Step(s, i, commit).clients[i];
    GasStep(s.txs, s.gas, s.clients[i], commit);
    TotalsNest(s.clients);
    TotalUpdate(GasDrawn, s.clients, i, c2);
    TotalUpdate(GasGranted, s.clients, i, c2);
  }

  lemma StepKeepsInv(s: Sys, i: nat, commit: bool, txs: int, gas: int)
    requires Inv(s, txs, gas) && i < |s.clients|
    ensures Inv(Step(s, i, commit), txs, gas)
  {
    StepKeepsTxs(s, i, commit, txs);
    StepKeepsGas(s, i, commit, gas);
    GasStep(s.txs, s.gas, s.clients[i], commit);
  }

  function RunLimits(s: Sys, steps: seq<(nat, bool)>): Sys
    decreases |steps|
  {
    if steps == [] then s
    else RunLimits(if steps[0].0 < |s.clients| then Step(s, steps[0].0, steps[0].1) else s, steps[1..])
  }

  lemma {:induction false} RunKeepsInv(s: Sys, steps: seq<(nat, bool)>, txs: int, gas: int)
    requires Inv(s, txs, gas)
    ensures Inv(RunLimits(s, steps), txs, gas)
    decreases |steps|
  {
    if steps != [] {
      if steps[0].0 < |s.clients| {
        StepKeepsInv(s, steps[0].0, steps[0].1, txs, gas);
        RunKeepsInv(Step(s, steps[0].0, steps[0].1), steps[1..], txs, gas);
      } else {
        RunKeepsInv(s, steps[1..], txs, gas);
      }
    }
  }

  lemma {:induction false} NothingDrawn(m: Measure, cs: seq<Client>)
    requires forall i :: 0 <= i < |cs| ==> cs[i].pc.Start?
    ensures Total(m, cs) == 0
  {
    if cs != [] {
      NothingDrawn(m, cs[1..]);
    }
  }

  /** Under every interleaving of reservations, commits and drops: no more
      transactions are live or committed than the initial limit, and their gas
      exceeds the initial gas by less than one transaction's limit. */
  lemma LimitsHold(txs: int, gas: int, clients: seq<Client>, steps: seq<(nat, bool)>)
    requires forall i :: 0 <= i < |clients| ==> clients[i].pc.Start?
    ensures var cs := RunLimits(Sys(txs, gas, clients), steps).clients;
      && Total(Admitted, cs) <= Max(txs, 0)
      && (gas > 0 ==> Total(AdmittedGas, cs) < gas + GAS_LIMIT_PER_TX)
      && (gas <= 0 ==> Total(AdmittedGas, cs) == 0)
  {
    var s := Sys(txs, gas, clients);
    forall m { NothingDrawn(m, clients); }
    RunKeepsInv(s, steps, txs, gas);
    TotalsNest(RunLimits(s, steps).clients);
  }

  // ---- what comes back ----

  /** No call and no destructor of the client is in progress. */
  predicate AtRest(c: Client) {
    c.pc.Start? || c.pc.Refused? || c.pc.OutOfGas? || c.pc.Live? || c.pc.Committed? || c.pc.Dropped? || c.pc.Kept?
  }

  lemma {:induction false} RestingTotals(cs: seq<Client>)
    requires forall i :: 0 <= i < |cs| ==> AtRest(cs[i]) && ClientOk(cs[i])
    ensures Total(TxDrawn, cs) == Total(Admitted, cs) + Total(Leaked, cs)
    ensures Total(GasDrawn, cs) == Total(AdmittedGas, cs)
    ensures Total(Leaked, cs) == 0 <==> forall i :: 0 <= i < |cs| ==> !Leaks(cs[i])
  {
    if cs != [] {
      RestingTotals(cs[1..]);
      assert forall i :: 0 < i < |cs| ==> cs[i] == cs[1..][i - 1];
    }
  }

  /** Whenever all clients are at rest, the gas that is not admitted is all
      back, and the transaction slots are all back but for the leaked ones: the
      count is right exactly when no client was refused for gas, having seen
      none left, and none was dropped with zero gas. */
  lemma SlotsComeBackUnlessLeaked(txs: int, gas: int, clients: seq<Client>, steps: seq<(nat, bool)>)
    requires forall i :: 0 <= i < |clients| ==> clients[i].pc.Start?
    ensures var r := RunLimits(Sys(txs, gas, clients), steps);
      (forall i :: 0 <= i < |r.clients| ==> AtRest(r.clients[i])) ==>
        && r.gas == gas - Total(AdmittedGas, r.clients)
        && r.txs == txs - Total(Admitted, r.clients) - Total(Leaked, r.clients)
        && (r.txs == txs - Total(Admitted, r.clients) <==> forall i :: 0 <= i < |r.clients| ==> !Leaks(r.clients[i]))
    ensures var r := RunLimits(Sys(txs, gas, clients), steps);
      forall i :: 0 <= i < |r.clients| && Leaks(r.clients[i]) ==>
        (r.clients[i].pc.OutOfGas? && r.clients[i].pc.seen <= 0) || (r.clients[i].pc.Kept? && r.clients[i].gas == 0)
  {
    var s := Sys(txs, gas, clients);
    forall m { NothingDrawn(m, clients); }
    RunKeepsInv(s, steps, txs, gas);
    var r := RunLimits(s, steps);
    forall i | 0 <= i < |r.clients|
      ensures ClientOk(r.clients[i])
    {
    }
    if forall i :: 0 <= i < |r.clients| ==> AtRest(r.clients[i]) {
      RestingTotals(r.clients);
    }
  }

  /** Both leaks happen: one transaction that asks for gas when there is none,
      and one that asks for none and is dropped, each end with no slot left. */
  lemma BothLeaksHappen()
    ensures var four: seq<(nat, bool)> := [(0, false), (0, false), (0, false), (0, false)];
      && RunLimits(Sys(1, 0, [Client(1, Start)]), four) == Sys(0, 0, [Client(1, OutOfGas(0))])
      && RunLimits(Sys(1, 5, [Client(0, Start)]), four) == Sys(0, 5, [Client(0, Kept)])
  {
    FourSteps(Sys(1, 0, [Client(1, Start)]));
    FourSteps(Sys(1, 5, [Client(0, Start)]));
  }

  lemma FourSteps(s: Sys)
    requires |s.clients| == 1
    ensures RunLimits(s, [(0, false), (0, false), (0, false), (0, false)]) ==
      Step(Step(Step(Step(s, 0, false), 0, false), 0, false), 0, false)
  {
    var t: (nat, bool) := (0, false);
    var s1 := Step(s, 0, false);
    var s2 := Step(s1, 0, false);
    var s3 := Step(s2, 0, false);
    var s4 := Step(s3, 0, false);
    assert [t, t, t, t][1..] == [t, t, t] && [t, t, t][1..] == [t, t] && [t, t][1..] == [t] && [t][1..] == [];
    assert RunLimits(s4, []) == s4;
    assert RunLimits(s3, [t]) == s4;
    assert RunLimits(s2, [t, t]) == s4;
    assert RunLimits(s1, [t, t, t]) == s4;
  }
}
