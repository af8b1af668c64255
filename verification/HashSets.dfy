/** The list form of a stored hash set: its order, its normalisation and the
    binary-search truncation that clears expired entries. */
module HashSets {
  import opened StorageTypes

  predicate Above(a: Entry, b: Entry) {
    a.index > b.index || (a.index == b.index && a.hash > b.hash)
  }

  predicate Descending(s: seq<Entry>) {
    forall i, j :: 0 <= i < j < |s| ==> Above(s[i], s[j])
  }

  predicate WeaklyDescending(s: seq<Entry>) {
    forall i, j :: 0 <= i < j < |s| ==> s[i] == s[j] || Above(s[i], s[j])
  }

  predicate NoDuplicates<T(==)>(s: seq<T>) {
    forall i, j :: 0 <= i < j < |s| ==> s[i] != s[j]
  }

  lemma AboveIsStrictTotal(a: Entry, b: Entry, c: Entry)
    ensures !(Above(a, b) && Above(b, a))
    ensures a == b || Above(a, b) || Above(b, a)
    ensures Above(a, b) && Above(b, c) ==> Above(a, c)
  {
  }

  function InsertDescending(e: Entry, s: seq<Entry>): seq<Entry> {
    if s == [] || !Above(s[0], e) then [e] + s else [s[0]] + InsertDescending(e, s[1..])
  }

  /** The greatest-first order that normalisation puts a list in. */
  function SortDescending(s: seq<Entry>): seq<Entry> {
    if s == [] then [] else InsertDescending(s[0], SortDescending(s[1..]))
  }

  lemma {:induction false} InsertDescendingSorts(e: Entry, s: seq<Entry>)
    requires Descending(s) && e !in s
    ensures Descending(InsertDescending(e, s))
    ensures forall x :: x in InsertDescending(e, s) <==> x == e || x in s
    ensures |InsertDescending(e, s)| == |s| + 1
  {
    if s == [] || !Above(s[0], e) {
    } else {
      InsertDescendingSorts(e, s[1..]);
      assert s == [s[0]] + s[1..];
      assert forall x :: x in InsertDescending(e, s[1..]) ==> Above(s[0], x);
    }
  }

  /** Normalising a duplicate-free list orders it strictly and permutes it. */
  lemma {:induction false} SortDistinct(s: seq<Entry>)
    requires NoDuplicates(s)
    ensures Descending(SortDescending(s))
    ensures forall e :: e in SortDescending(s) <==> e in s
    ensures |SortDescending(s)| == |s|
  {
    if s != [] {
      SortDistinct(s[1..]);
      InsertDescendingSorts(s[0], SortDescending(s[1..]));
      assert s == [s[0]] + s[1..];
    }
  }

  lemma HeadIsMember(a: seq<Entry>)
    ensures a != [] ==> a[0] in a
  {
  }

  /** A strictly descending list is determined by the entries it holds. */
  lemma {:induction false} DescendingIsUnique(a: seq<Entry>, b: seq<Entry>)
    requires Descending(a) && Descending(b)
    requires forall e :: e in a <==> e in b
    ensures a == b
  {
    if a == [] || b == [] {
      HeadIsMember(a);
      HeadIsMember(b);
    } else {
      HeadIsMember(a);
      HeadIsMember(b);
      forall e
        ensures e in a[1..] <==> e in b[1..]
      {
        TailMembership(a, e);
        TailMembership(b, e);
      }
      DescendingIsUnique(a[1..], b[1..]);
      assert a == [a[0]] + a[1..] && b == [b[0]] + b[1..];
    }
  }

  lemma TailMembership(a: seq<Entry>, e: Entry)
    requires a != [] && Descending(a)
    ensures e in a[1..] <==> e in a && e != a[0]
  {
    if e in a && e != a[0] {
      var i :| 0 <= i < |a| && a[i] == e;
      assert a[1..][i - 1] == e;
    }
  }

  /** The linear filter that the source keeps in a comment as the meaning of a clear. */
  function KeepAbove(s: seq<Entry>, threshold: uint64): seq<Entry> {
    if s == [] then []
    else if s[0].index <= threshold then KeepAbove(s[1..], threshold)
    else [s[0]] + KeepAbove(s[1..], threshold)
  }

  /** In a descending list the entries that survive form a prefix. */
  lemma {:induction false} KeepAboveIsPrefix(s: seq<Entry>, threshold: uint64, n: nat)
    requires WeaklyDescending(s) && n <= |s|
    requires forall i :: 0 <= i < n ==> s[i].index > threshold
    requires n < |s| ==> s[n].index <= threshold
    ensures KeepAbove(s, threshold) == s[..n]
  {
    if s == [] {
    } else if n == 0 {
      assert s[0].index <= threshold;
      if |s| > 1 {
        assert s[0] == s[1] || Above(s[0], s[1]);
        KeepAboveIsPrefix(s[1..], threshold, 0);
      }
    } else {
      KeepAboveIsPrefix(s[1..], threshold, n - 1);
      assert s[..n] == [s[0]] + s[1..][..n - 1];
    }
  }

  lemma {:induction false} KeepAboveMembers(s: seq<Entry>, threshold: uint64)
    ensures forall e :: e in KeepAbove(s, threshold) <==> e in s && e.index > threshold
    ensures |KeepAbove(s, threshold)| <= |s|
  {
    if s != [] {
      KeepAboveMembers(s[1..], threshold);
      assert s == [s[0]] + s[1..];
    }
  }

  lemma {:induction false} KeepAboveDescending(s: seq<Entry>, threshold: uint64)
    requires Descending(s)
    ensures Descending(KeepAbove(s, threshold))
  {
    if s != [] {
      KeepAboveDescending(s[1..], threshold);
      KeepAboveMembers(s[1..], threshold);
    }
  }

  /** Truncates a descending list by binary search for the first entry that is
      not above the threshold; the outcome is that of the linear filter. */
  method ClearHashes(hashes: seq<Entry>, threshold: uint64) returns (kept: seq<Entry>)
    requires WeaklyDescending(hashes)
    ensures kept == KeepAbove(hashes, threshold)
  {
    var low, high := 0, |hashes|;
    var mid := (high + low) / 2;
    while high != low
      invariant 0 <= low <= high <= |hashes|
      invariant mid == (high + low) / 2
      invariant forall i :: 0 <= i < low ==> hashes[i].index > threshold
      invariant forall i :: high <= i < |hashes| ==> hashes[i].index <= threshold
      decreases high - low
    {
      if hashes[mid].index > threshold {
        low := mid + 1;
      } else {
        high := mid;
      }
      mid := (high + low) / 2;
    }
    kept := hashes[..mid];
    KeepAboveIsPrefix(hashes, threshold, mid);
  }
}
