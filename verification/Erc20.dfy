/** The token contract on top of the ledger: transfers and mints, each a few
    additions to integer keys, and what one transaction's worth of them adds up
    to. */
module Erc20 {
  import opened StorageTypes
  import opened HashSets
  import opened Folds
  import opened Proxies

  /** Balance keys of the accounts in use, all different from each other and
      from the supply's: the hash that computes them does not collide. */
  datatype Token = Token(accounts: seq<Key>, supply: Key)

  predicate WellFormed(t: Token) { NoDuplicates(t.accounts) && t.supply !in t.accounts }

  datatype Call = Transfer(from: Key, to: Key, amount: int64) | Mint(to: Key, amount: int64)

  predicate Uses(t: Token, c: Call) { c.to in t.accounts && (c.Transfer? ==> c.from in t.accounts) }

  type Cache = map<Key, Proxy>

  /** One addition through the storage proxy; `None` aborts the transaction. */
  function AddAt(c: Cache, k: Key, amount: int64): Option<Cache> {
    if k !in c then None
    else
      var q := AddInt(c[k], amount);
      if q.None? then None else Some(c[k := q.value])
  }

  function CallStep(c: Cache, supply: Key, call: Call): Option<Cache> {
    if call.amount < 0 then None
    else
      match call
      case Transfer(from, to, amount) =>
        var debited := AddAt(c, from, -amount);
        if debited.None? then None else AddAt(debited.value, to, amount)
      case Mint(to, amount) =>
        var credited := AddAt(c, to, amount);
        if credited.None? then None else AddAt(credited.value, supply, amount)
  }

  function RunCalls(c: Cache, supply: Key, calls: seq<Call>): Option<Cache>
    decreases |calls|
  {
    if calls == [] then Some(c)
    else
      var d := CallStep(c, supply, calls[0]);
      if d.None? then None else RunCalls(d.value, supply, calls[1..])
  }

  function Minted(calls: seq<Call>): int {
    if calls == [] then 0
    else (if calls[0].Mint? then calls[0].amount else 0) + Minted(calls[1..])
  }

  // ---- one key ----

  function Recorded(p: Proxy): int64 { if p.intDelta.Some? then p.intDelta.value.amount else 0 }

  /** A proxy that saw nothing but additions to the value it opened. */
  predicate AddsTo(base: Option<StorageObject>, p: Proxy) {
    && p == Open(base).(intDelta := p.intDelta, current := p.current)
    && (p.intDelta.None? ==> p.current == base)
    && (p.intDelta.Some? ==>
          && p.intDelta.value.setValue == IntOf(base)
          && p.current.Some?
          && (base.Some? ==> base.value.Int64?)
          && (p.intDelta.value.amount < 0 ==> IntOf(base) + p.intDelta.value.amount >= 0))
  }

  /** An accepted debit is exact and covered; a credit saturates. */
  lemma AddIntAdds(base: Option<StorageObject>, p: Proxy, amount: int64)
    requires AddsTo(base, p) && AddInt(p, amount).Some?
    ensures var q := AddInt(p, amount).value;
      && AddsTo(base, q)
      && Recorded(q) == Min(INT64_MAX, Recorded(p) + amount)
  {
    CombineKeepsNonnegative(IntOf(base), Recorded(p), amount);
  }

  lemma AddsDeltas(base: Option<StorageObject>, p: Proxy)
    requires AddsTo(base, p)
    ensures GetDeltas(p) == if p.intDelta.None? then [] else [Int64SetAdd(IntOf(base), Recorded(p))]
    ensures Sum(Subtracted, GetDeltas(p)) + Sum(Added, GetDeltas(p)) == Recorded(p)
  {
    assert forall d: Delta :: [d][1..] == [];
  }

  // ---- all keys of one transaction ----

  ghost predicate AllAdd(c0: Cache, c: Cache) {
    c.Keys == c0.Keys && forall k :: k in c ==> AddsTo(c0[k].current, c[k])
  }

  function Net(c: Cache, ks: seq<Key>): int
    requires forall k :: k in ks ==> k in c
  {
    if ks == [] then 0 else Recorded(c[ks[0]]) + Net(c, ks[1..])
  }

  function Held(c: Cache, ks: seq<Key>): int
    requires forall k :: k in ks ==> k in c
  {
    if ks == [] then 0 else IntOf(c[ks[0]].current) + Held(c, ks[1..])
  }

  lemma {:induction false} NetUpdate(c: Cache, ks: seq<Key>, k: Key, q: Proxy)
    requires NoDuplicates(ks) && k in c && forall x :: x in ks ==> x in c
    ensures Net(c[k := q], ks) == Net(c, ks) + if k in ks then Recorded(q) - Recorded(c[k]) else 0
  {
    if ks != [] {
      NetUpdate(c, ks[1..], k, q);
      assert ks == [ks[0]] + ks[1..];
    }
  }

  /** No account can have gained more than everyone holds and was minted. */
  lemma {:induction false} GainIsBounded(c0: Cache, c: Cache, ks: seq<Key>)
    requires AllAdd(c0, c) && (forall k :: k in ks ==> k in c && IntOf(c0[k].current) >= 0)
    ensures Net(c, ks) + Held(c0, ks) >= 0
    ensures forall k :: k in ks ==> Recorded(c[k]) <= Net(c, ks) + Held(c0, ks)
  {
    if ks != [] {
      GainIsBounded(c0, c, ks[1..]);
      assert AddsTo(c0[ks[0]].current, c[ks[0]]);
      forall k | k in ks
        ensures Recorded(c[k]) <= Net(c, ks) + Held(c0, ks)
      {
        if k != ks[0] {
          assert k in ks[1..];
        }
      }
    }
  }

  /** The books of a transaction in progress. */
  ghost predicate Books(t: Token, c0: Cache, c: Cache, net: int, supplied: int) {
    && AllAdd(c0, c) && t.supply in c
    && (forall k :: k in t.accounts ==> k in c && IntOf(c0[k].current) >= 0)
    && Net(c, t.accounts) == net && Recorded(c[t.supply]) == supplied
  }

  lemma AddAtAdds(c0: Cache, c: Cache, k: Key, amount: int64)
    requires AllAdd(c0, c) && AddAt(c, k, amount).Some?
    ensures AllAdd(c0, AddAt(c, k, amount).value)
    ensures Recorded(AddAt(c, k, amount).value[k]) == Min(INT64_MAX, Recorded(c[k]) + amount)
  {
    AddIntAdds(c0[k].current, c[k], amount);
  }

  lemma AddAtNet(t: Token, c0: Cache, c: Cache, k: Key, amount: int64)
    requires WellFormed(t) && AllAdd(c0, c) && AddAt(c, k, amount).Some?
    requires forall x :: x in t.accounts ==> x in c
    ensures var d := AddAt(c, k, amount).value;
      && AllAdd(c0, d) && (k != t.supply && t.supply in c ==> d[t.supply] == c[t.supply])
      && Recorded(d[k]) == Min(INT64_MAX, Recorded(c[k]) + amount)
      && (k in t.accounts ==> Net(d, t.accounts) == Net(c, t.accounts) + Recorded(d[k]) - Recorded(c[k]))
      && (k !in t.accounts ==> Net(d, t.accounts) == Net(c, t.accounts))
  {
    AddAtAdds(c0, c, k, amount);
    NetUpdate(c, t.accounts, k, AddInt(c[k], amount).value);
  }

  lemma DebitBooks(t: Token, c0: Cache, c: Cache, net: int, supplied: int, k: Key, amount: int64)
    requires WellFormed(t) && Books(t, c0, c, net, supplied) && k in t.accounts && amount <= 0
    requires AddAt(c, k, amount).Some?
    ensures Books(t, c0, AddAt(c, k, amount).value, net + amount, supplied)
  {
    AddAtNet(t, c0, c, k, amount);
  }

  lemma CreditBooks(t: Token, c0: Cache, c: Cache, net: int, supplied: int, k: Key, amount: int64)
    requires WellFormed(t) && Books(t, c0, c, net, supplied) && k in t.accounts
    requires AddAt(c, k, amount).Some? && Held(c0, t.accounts) + net + amount <= INT64_MAX
    ensures Books(t, c0, AddAt(c, k, amount).value, net + amount, supplied)
  {
    GainIsBounded(c0, c, t.accounts);
    AddAtNet(t, c0, c, k, amount);
  }

  lemma SupplyBooks(t: Token, c0: Cache, c: Cache, net: int, supplied: int, amount: int64)
    requires WellFormed(t) && Books(t, c0, c, net, supplied)
    requires AddAt(c, t.supply, amount).Some? && supplied + amount <= INT64_MAX
    ensures Books(t, c0, AddAt(c, t.supply, amount).value, net, supplied + amount)
  {
    AddAtNet(t, c0, c, t.supply, amount);
  }

  lemma TransferBooks(t: Token, c0: Cache, c: Cache, d: Cache, e: Cache, minted: int, from: Key, to: Key, amount: int64)
    requires WellFormed(t) && Books(t, c0, c, minted, minted) && from in t.accounts && to in t.accounts && amount >= 0
    requires AddAt(c, from, -amount) == Some(d) && AddAt(d, to, amount) == Some(e)
    requires Held(c0, t.accounts) + minted <= INT64_MAX
    ensures Books(t, c0, e, minted, minted)
  {
    DebitBooks(t, c0, c, minted, minted, from, -amount);
    CreditBooks(t, c0, d, minted - amount, minted, to, amount);
  }

  lemma MintBooks(t: Token, c0: Cache, c: Cache, d: Cache, e: Cache, minted: int, to: Key, amount: int64)
    requires WellFormed(t) && Books(t, c0, c, minted, minted) && to in t.accounts
    requires AddAt(c, to, amount) == Some(d) && AddAt(d, t.supply, amount) == Some(e)
    requires Held(c0, t.accounts) + minted + amount <= INT64_MAX && 0 <= Held(c0, t.accounts)
    ensures Books(t, c0, e, minted + amount, minted + amount)
  {
    CreditBooks(t, c0, c, minted, minted, to, amount);
    SupplyBooks(t, c0, d, minted + amount, minted, amount);
  }

  /** A transfer moves, a mint creates; no other amount changes. */
  lemma CallBooks(t: Token, c0: Cache, c: Cache, e: Cache, minted: int, call: Call)
    requires WellFormed(t) && Books(t, c0, c, minted, minted) && Uses(t, call)
    requires CallStep(c, t.supply, call) == Some(e) && 0 <= Held(c0, t.accounts)
    requires Held(c0, t.accounts) + minted + Minted([call]) <= INT64_MAX
    ensures Books(t, c0, e, minted + Minted([call]), minted + Minted([call]))
  {
    assert Minted([call]) == if call.Mint? then call.amount else 0;
    match call
    case Transfer(from, to, amount) =>
      var d := AddAt(c, from, -amount);
      TransferBooks(t, c0, c, d.value, e, minted, from, to, amount);
    case Mint(to, amount) =>
      var d := AddAt(c, to, amount);
      MintBooks(t, c0, c, d.value, e, minted, to, amount);
  }

  lemma {:induction false} HeldNonnegative(c: Cache, ks: seq<Key>)
    requires forall k :: k in ks ==> k in c && IntOf(c[k].current) >= 0
    ensures Held(c, ks) >= 0
  {
    if ks != [] {
      HeldNonnegative(c, ks[1..]);
    }
  }

  lemma {:induction false} MintedNonnegative(c: Cache, supply: Key, calls: seq<Call>)
    requires RunCalls(c, supply, calls).Some?
    ensures Minted(calls) >= 0
    decreases |calls|
  {
    if calls != [] {
      MintedNonnegative(CallStep(c, supply, calls[0]).value, supply, calls[1..]);
    }
  }

  /** What a transaction adds to all balances together, and to the supply, is
      exactly what it mints. */
  lemma {:induction false} CallsBalance(t: Token, c0: Cache, c: Cache, minted: int, calls: seq<Call>)
    requires WellFormed(t) && Books(t, c0, c, minted, minted) && RunCalls(c, t.supply, calls).Some?
    requires forall x :: x in calls ==> Uses(t, x)
    requires Held(c0, t.accounts) + minted + Minted(calls) <= INT64_MAX
    ensures Books(t, c0, RunCalls(c, t.supply, calls).value, minted + Minted(calls), minted + Minted(calls))
    decreases |calls|
  {
    if calls != [] {
      var d := CallStep(c, t.supply, calls[0]).value;
      assert calls[0] in calls && Minted([calls[0]]) == if calls[0].Mint? then calls[0].amount else 0;
      MintedNonnegative(d, t.supply, calls[1..]);
      HeldNonnegative(c0, t.accounts);
      CallBooks(t, c0, c, d, minted, calls[0]);
      CallsBalance(t, c0, d, minted + Minted([calls[0]]), calls[1..]);
    }
  }

  lemma TwoAdds(c0: Cache, c: Cache, d: Cache, e: Cache, k: Key, amount: int64, k2: Key, amount2: int64)
    requires AllAdd(c0, c) && AddAt(c, k, amount) == Some(d) && AddAt(d, k2, amount2) == Some(e)
    ensures AllAdd(c0, e)
  {
    AddAtAdds(c0, c, k, amount);
    AddAtAdds(c0, d, k2, amount2);
  }

  /** Additions never take a covered balance below zero, saturated or not. */
  lemma {:induction false} CallsAdd(c0: Cache, c: Cache, supply: Key, calls: seq<Call>)
    requires AllAdd(c0, c) && RunCalls(c, supply, calls).Some?
    ensures AllAdd(c0, RunCalls(c, supply, calls).value)
    decreases |calls|
  {
    if calls != [] {
      var e := CallStep(c, supply, calls[0]).value;
      match calls[0] {
        case Transfer(from, to, amount) => TwoAdds(c0, c, AddAt(c, from, -amount).value, e, from, -amount, to, amount);
        case Mint(to, amount) => TwoAdds(c0, c, AddAt(c, to, amount).value, e, to, amount, supply, amount);
      }
      CallsAdd(c0, e, supply, calls[1..]);
    }
  }
}
