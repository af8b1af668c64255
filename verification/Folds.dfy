/** The meaning of a set of committed deltas, said without reference to the
    accounting: which deltas fit together, and what value they fold to. Both
    depend on the deltas only as a multiset. */
module Folds {
  import opened StorageTypes
  import opened HashSets

  /** `Slots` counts the deltas that reserve the slot: all but deletions. */
  datatype Part = Subtracted | Added | Inserts | Limit | AssetNet | AssetDown | AssetUp | Slots

  function PartOf(p: Part, d: Delta): int {
    match p
    case Subtracted => if d.Int64SetAdd? then Min(d.amount, 0) else 0
    case Added => if d.Int64SetAdd? then Max(d.amount, 0) else 0
    case Inserts => if d.HashSetInsert? then 1 else 0
    case Limit => if d.HashSetIncreaseLimit? then d.increase else 0
    case AssetNet => if d.AssetAdd? then d.assetAmount else 0
    case AssetDown => if d.AssetAdd? then Min(d.assetAmount, 0) else 0
    case AssetUp => if d.AssetAdd? then Max(d.assetAmount, 0) else 0
    case Slots => if d.DeleteLast? then 0 else 1
  }

  function Sum(p: Part, ds: seq<Delta>): int {
    if ds == [] then 0 else PartOf(p, ds[0]) + Sum(p, ds[1..])
  }

  function Without<T>(s: seq<T>, i: nat): seq<T>
    requires i < |s|
  {
    s[..i] + s[i + 1..]
  }

  lemma {:induction false} SumWithout(p: Part, ds: seq<Delta>, i: nat)
    requires i < |ds|
    ensures Sum(p, ds) == PartOf(p, ds[i]) + Sum(p, Without(ds, i))
  {
    if i == 0 {
      assert Without(ds, 0) == ds[1..];
    } else {
      SumWithout(p, ds[1..], i - 1);
      assert Without(ds, i) == [ds[0]] + Without(ds[1..], i - 1);
    }
  }

  lemma {:induction false} SumAppend(p: Part, a: seq<Delta>, b: seq<Delta>)
    ensures Sum(p, a + b) == Sum(p, a) + Sum(p, b)
  {
    if a == [] {
      assert a + b == b;
    } else {
      SumAppend(p, a[1..], b);
      assert a + b == [a[0]] + (a[1..] + b);
    }
  }

  lemma WithoutMultiset<T>(s: seq<T>, i: nat)
    requires i < |s|
    ensures multiset(Without(s, i)) == multiset(s) - multiset{s[i]}
  {
    assert s == s[..i] + [s[i]] + s[i + 1..];
  }

  lemma PermutedMembers(a: seq<Delta>, b: seq<Delta>)
    requires multiset(a) == multiset(b)
    ensures forall d :: d in a <==> d in b
    ensures |a| == |b|
  {
    assert forall d :: d in a <==> d in multiset(a);
    assert forall d :: d in b <==> d in multiset(b);
    assert |multiset(a)| == |a| && |multiset(b)| == |b|;
  }

  lemma PermutedTails(a: seq<Delta>, b: seq<Delta>, i: nat)
    requires multiset(a) == multiset(b) && a != [] && i < |b| && b[i] == a[0]
    ensures multiset(a[1..]) == multiset(Without(b, i))
  {
    WithoutMultiset(b, i);
    WithoutMultiset(a, 0);
    assert Without(a, 0) == a[1..];
  }

  /** Sums do not depend on the order in which deltas arrive. */
  lemma {:induction false} SumPermutes(p: Part, a: seq<Delta>, b: seq<Delta>)
    requires multiset(a) == multiset(b)
    ensures Sum(p, a) == Sum(p, b)
  {
    PermutedMembers(a, b);
    if a != [] {
      assert a[0] in b;
      var i :| 0 <= i < |b| && b[i] == a[0];
      SumWithout(p, b, i);
      PermutedTails(a, b, i);
      SumPermutes(p, a[1..], Without(b, i));
    }
  }

  lemma {:induction false} SumSign(p: Part, ds: seq<Delta>)
    ensures p.Added? || p.Inserts? || p.Limit? || p.AssetUp? || p.Slots? ==> Sum(p, ds) >= 0
    ensures p.Subtracted? || p.AssetDown? ==> Sum(p, ds) <= 0
  {
    if ds != [] {
      SumSign(p, ds[1..]);
    }
  }

  /** Distinct inserted entries are no more than the inserts. */
  lemma {:induction false} ListedInserts(l: seq<Entry>, ds: seq<Delta>)
    requires NoDuplicates(l) && forall e :: e in l ==> HashSetInsert(e) in ds
    ensures |l| <= Sum(Inserts, ds)
  {
    if l == [] {
      SumSign(Inserts, ds);
    } else {
      assert HashSetInsert(l[0]) in ds;
      var i :| 0 <= i < |ds| && ds[i] == HashSetInsert(l[0]);
      var rest := Without(ds, i);
      SumWithout(Inserts, ds, i);
      forall e | e in l[1..]
        ensures HashSetInsert(e) in rest
      {
        assert e in l && e != l[0];
        var j :| 0 <= j < |ds| && ds[j] == HashSetInsert(e);
        assert rest[if j < i then j else j - 1] == ds[j];
      }
      ListedInserts(l[1..], rest);
    }
  }

  /** And inserts that all differ are no more than the entries they insert. */
  lemma {:induction false} InsertsWithin(ds: seq<Delta>, s: set<Entry>)
    requires DistinctInserts(ds) && forall e :: HashSetInsert(e) in ds ==> e in s
    ensures Sum(Inserts, ds) <= |s|
  {
    if ds != [] {
      if ds[0].HashSetInsert? {
        var rest := s - {ds[0].entry};
        assert ds[0] in ds && |rest| == |s| - 1;
        forall e | HashSetInsert(e) in ds[1..]
          ensures e in rest
        {
          var j :| 1 <= j < |ds| && ds[j] == HashSetInsert(e);
          assert ds[0] != ds[j];
        }
        InsertsWithin(ds[1..], rest);
      } else {
        InsertsWithin(ds[1..], s);
      }
    }
  }

  lemma {:induction false} SomeInsert(ds: seq<Delta>)
    ensures Sum(Inserts, ds) > 0 ==> exists e :: HashSetInsert(e) in ds
  {
    if ds != [] {
      SomeInsert(ds[1..]);
      if ds[0].HashSetInsert? {
        assert HashSetInsert(ds[0].entry) in ds;
      }
    }
  }

  /** An entry outlives every clear of the round. */
  ghost predicate Survives(e: Entry, ds: seq<Delta>) {
    forall t :: HashSetClear(t) in ds ==> e.index > t
  }

  ghost predicate FoldsToHashSet(base: Option<StorageObject>, ds: seq<Delta>, r: StorageObject) {
    && r.HashSet?
    && r.maxSize == Min(MAX_HASH_SET_SIZE, MaxSizeOf(base) + Sum(Limit, ds))
    && Descending(r.hashes)
    && forall e :: e in r.hashes <==>
         (e in HashesOf(base) || HashSetInsert(e) in ds) && Survives(e, ds)
  }

  /** `r` is what the deltas make of `base`. */
  ghost predicate FoldsTo(base: Option<StorageObject>, ds: seq<Delta>, r: Option<StorageObject>) {
    if DeleteLast in ds then r.None?
    else if ds == [] then r == base
    else
      r.Some? &&
      match ds[0].Class()
      case RawMemoryClass(data) => r.value == RawMemory(data)
      case Int64Class(v) =>
        r.value.Int64? && r.value.value == Min(INT64_MAX, v + Sum(Subtracted, ds) + Sum(Added, ds))
      case HashSetClass => FoldsToHashSet(base, ds, r.value)
      case AssetClass => r.value.Asset? && r.value.amount == AmountOf(base) + Sum(AssetNet, ds)
  }

  ghost predicate OneClass(ds: seq<Delta>) {
    forall a, b :: a in ds && b in ds && !a.DeleteLast? && !b.DeleteLast? ==> a.Class() == b.Class()
  }

  lemma FoldPermutes(base: Option<StorageObject>, a: seq<Delta>, b: seq<Delta>, r: Option<StorageObject>)
    requires multiset(a) == multiset(b) && OneClass(a) && FoldsTo(base, a, r)
    ensures FoldsTo(base, b, r)
  {
    PermutedMembers(a, b);
    if DeleteLast !in a && a != [] {
      assert a[0] in a && b[0] in b;
      forall p { SumPermutes(p, a, b); }
      assert forall e :: Survives(e, a) <==> Survives(e, b);
    }
  }

  /** The fold is a function: deltas in another order give the same value. */
  lemma FoldIsUnique(base: Option<StorageObject>, a: seq<Delta>, b: seq<Delta>,
                     r: Option<StorageObject>, s: Option<StorageObject>)
    requires multiset(a) == multiset(b) && OneClass(a)
    requires FoldsTo(base, a, r) && FoldsTo(base, b, s)
    ensures r == s
  {
    PermutedMembers(a, b);
    if DeleteLast !in a && a != [] {
      assert a[0] in a && b[0] in b;
      forall p { SumPermutes(p, a, b); }
      if a[0].Class().HashSetClass? {
        assert forall e :: Survives(e, a) <==> Survives(e, b);
        DescendingIsUnique(r.value.hashes, s.value.hashes);
      }
    }
  }

  /** A stored value as every round leaves it. */
  predicate ValidBase(base: Option<StorageObject>) {
    base.Some? && base.value.HashSet? ==>
      Descending(base.value.hashes) && |base.value.hashes| <= base.value.maxSize <= MAX_HASH_SET_SIZE
  }

  ghost predicate DistinctInserts(ds: seq<Delta>) {
    forall i, j :: 0 <= i < j < |ds| && ds[i].HashSetInsert? ==> ds[i] != ds[j]
  }

  /** All debits together are covered and all credits together fit, so neither
      depends on what commits first. */
  predicate AssetsFit(base: Option<StorageObject>, ds: seq<Delta>) {
    AmountOf(base) + Sum(AssetDown, ds) >= 0 && AmountOf(base) + Sum(AssetUp, ds) <= UINT64_MAX
  }

  /** The deltas fit the object in every order of arrival. */
  ghost predicate Feasible(base: Option<StorageObject>, ds: seq<Delta>) {
    && OneClass(ds)
    && (forall d :: d in ds && !d.DeleteLast? && base.Some? ==> d.Class().Type() == base.value.Type())
    && (forall d :: d in ds && d.Int64SetAdd? && Sum(Subtracted, ds) < 0 ==> d.setValue + Sum(Subtracted, ds) >= 0)
    && DistinctInserts(ds)
    && (forall e :: HashSetInsert(e) in ds ==> e !in HashesOf(base))
    && (Sum(Inserts, ds) > 0 ==> |HashesOf(base)| + Sum(Inserts, ds) <= MaxSizeOf(base))
    && AssetsFit(base, ds)
  }

  lemma {:induction false} DistinctInsertsPermute(a: seq<Delta>, b: seq<Delta>)
    requires multiset(a) == multiset(b) && DistinctInserts(a)
    ensures DistinctInserts(b)
  {
    forall i, j | 0 <= i < j < |b| && b[i].HashSetInsert?
      ensures b[i] != b[j]
    {
      MultiplicityTwo(b, i, j);
      MultiplicityOne(a, b[i]);
    }
  }

  lemma MultiplicityTwo(b: seq<Delta>, i: nat, j: nat)
    requires i < j < |b|
    ensures b[i] == b[j] ==> multiset(b)[b[i]] >= 2
  {
    assert b == b[..j] + b[j..];
    assert b[..j][i] == b[i] && b[j..][0] == b[j];
    assert b[i] in b[..j] && b[j] in b[j..];
  }

  lemma {:induction false} MultiplicityOne(a: seq<Delta>, d: Delta)
    requires DistinctInserts(a) && d.HashSetInsert?
    ensures multiset(a)[d] <= 1
  {
    if a != [] {
      MultiplicityOne(a[1..], d);
      assert a == [a[0]] + a[1..];
      if a[0] == d {
        assert d !in a[1..];
      }
    }
  }

  lemma FeasiblePermutes(base: Option<StorageObject>, a: seq<Delta>, b: seq<Delta>)
    requires multiset(a) == multiset(b) && Feasible(base, a)
    ensures Feasible(base, b)
  {
    PermutedMembers(a, b);
    forall p { SumPermutes(p, a, b); }
    DistinctInsertsPermute(a, b);
  }
}
