/** The 128-bit counter kept in two 64-bit words that are updated one after the
    other. An operation is an addition or a subtraction; each takes one atomic
    step on the low word and, on overflow, one on the high word. */
module SplitCounter {
  import opened StorageTypes
  import Objects

  const TWO_128: int := TWO_64 * TWO_64

  datatype Pc = Ready | Carrying | Done

  datatype Op = Op(adds: bool, amount: uint64, pc: Pc)

  /** `total` is the running sum that the two words stand for. */
  datatype Counter = Counter(low: uint64, high: uint64, total: int, ops: seq<Op>)

  function Signed(op: Op): int { if op.adds then op.amount else 0 - op.amount }

  function Step(c: Counter, i: nat): Counter
    requires i < |c.ops|
  {
    var op := c.ops[i];
    match op.pc
    case Ready =>
      var signed := Signed(op);
      c.(low := (c.low + signed) % TWO_64, total := c.total + signed,
         ops := c.ops[i := op.(pc := if InUint64(c.low + signed) then Done else Carrying)])
    case Carrying =>
      c.(high := (c.high + if op.adds then 1 else -1) % TWO_64, ops := c.ops[i := op.(pc := Done)])
    case Done => c
  }

  function FetchCap(c: Counter): uint64 { if c.high > 0 then UINT64_MAX else c.low }

  /** Carries less borrows that have not reached the high word. */
  function Pending(ops: seq<Op>): int {
    if ops == [] then 0
    else (if !ops[0].pc.Carrying? then 0 else if ops[0].adds then 1 else -1) + Pending(ops[1..])
  }

  lemma {:induction false} PendingUpdate(ops: seq<Op>, i: nat, op: Op)
    requires i < |ops| && op.adds == ops[i].adds
    ensures var unit := if op.adds then 1 else -1;
      Pending(ops[i := op]) == Pending(ops)
        - (if ops[i].pc.Carrying? then unit else 0) + (if op.pc.Carrying? then unit else 0)
  {
    if i == 0 {
      assert ops[0 := op] == [op] + ops[1..];
    } else {
      PendingUpdate(ops[1..], i - 1, op);
      assert ops[i := op] == [ops[0]] + ops[1..][i - 1 := op];
    }
  }

  function Words(c: Counter): int { c.high * TWO_64 + c.low }

  function Residue(c: Counter): int { c.total - Words(c) - Pending(c.ops) * TWO_64 }

  /** The words and what is pending make up the sum, modulo 2^128. */
  predicate Exact(c: Counter) { Residue(c) % TWO_128 == 0 }

  lemma ShiftByTurn(x: int)
    ensures (x + TWO_128) % TWO_128 == x % TWO_128 && (x - TWO_128) % TWO_128 == x % TWO_128
  {
  }

  /** A step leaves the residue alone or turns the high word over. */
  lemma StepResidue(c: Counter, i: nat)
    requires i < |c.ops|
    ensures var r := Residue(Step(c, i));
      r == Residue(c) || r == Residue(c) + TWO_128 || r == Residue(c) - TWO_128
  {
    var op := c.ops[i];
    PendingUpdate(c.ops, i, Step(c, i).ops[i]);
  }

  lemma StepKeepsExact(c: Counter, i: nat)
    requires i < |c.ops| && Exact(c)
    ensures Exact(Step(c, i))
  {
    StepResidue(c, i);
    ShiftByTurn(Residue(c));
  }

  function RunCounter(c: Counter, steps: seq<nat>): Counter
    decreases |steps|
  {
    if steps == [] then c
    else RunCounter(if steps[0] < |c.ops| then Step(c, steps[0]) else c, steps[1..])
  }

  lemma {:induction false} RunKeepsExact(c: Counter, steps: seq<nat>)
    requires Exact(c)
    ensures Exact(RunCounter(c, steps))
    decreases |steps|
  {
    if steps != [] {
      if steps[0] < |c.ops| {
        StepKeepsExact(c, steps[0]);
      }
      RunKeepsExact(if steps[0] < |c.ops| then Step(c, steps[0]) else c, steps[1..]);
    }
  }

  lemma {:induction false} NothingPending(ops: seq<Op>)
    requires forall i :: 0 <= i < |ops| ==> !ops[i].pc.Carrying?
    ensures Pending(ops) == 0
  {
    if ops != [] {
      NothingPending(ops[1..]);
    }
  }

  /** After any interleaving, once no carry is pending and the true sum is a
      128-bit number, the capped read returns it cut off at 2^64 - 1. The sum
      may have been out of range in between. */
  lemma CappedReadIsExact(ops: seq<Op>, steps: seq<nat>)
    requires forall i :: 0 <= i < |ops| ==> ops[i].pc.Ready?
    ensures var c := RunCounter(Counter(0, 0, 0, ops), steps);
      (forall i :: 0 <= i < |c.ops| ==> !c.ops[i].pc.Carrying?) && 0 <= c.total < TWO_128 ==>
        FetchCap(c) == Objects.FetchCap(c.total)
  {
    var start := Counter(0, 0, 0, ops);
    NothingPending(ops);
    RunKeepsExact(start, steps);
    var c := RunCounter(start, steps);
    if (forall i :: 0 <= i < |c.ops| ==> !c.ops[i].pc.Carrying?) && 0 <= c.total < TWO_128 {
      NothingPending(c.ops);
      assert c.total == Words(c);
    }
  }
}
