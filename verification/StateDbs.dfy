/** The two-tier store as the program updates it: lookups that fall through to
    the new-key cache, and the loops over the modified keys that end a block. */
module StateDbs {
  import opened StorageTypes
  import opened Objects
  import opened Database
  import Reservations

  /** The store's part of the database state, with the keys finished so far. */
  function Store(main: map<Key, Obj>, cache: map<Key, Obj>, done: set<Key>): Db {
    Db(main, cache, [], [], done, 0)
  }

  lemma NothingFinished(main: map<Key, Obj>, cache: map<Key, Obj>, listings: map<Key, seq<Entry>>)
    ensures FinishedMain(Store(main, cache, {}), listings) == main
    ensures RewoundMain(Store(main, cache, {})) == main
  {
  }

  /** The store after one more key was finished. */
  function FinishOne(m: map<Key, Obj>, main: map<Key, Obj>, cache: map<Key, Obj>, k: Key, listing: seq<Entry>): map<Key, Obj> {
    if k in main then
      var o := CommitRound(main[k], listing);
      if o.base.Some? then m[k := o] else m - {k}
    else if k in cache then
      var o := CommitRound(cache[k], listing);
      if o.base.Some? then m[k := Fresh(o.base)] else m
    else m
  }

  lemma FinishedOneMore(main: map<Key, Obj>, cache: map<Key, Obj>, done: set<Key>, k: Key, listings: map<Key, seq<Entry>>)
    requires k !in done
    ensures FinishOne(FinishedMain(Store(main, cache, done), listings), main, cache, k, Listing(listings, k))
         == FinishedMain(Store(main, cache, done + {k}), listings)
  {
    var m := FinishedMain(Store(main, cache, done), listings);
    var a := FinishOne(m, main, cache, k, Listing(listings, k));
    var b := FinishedMain(Store(main, cache, done + {k}), listings);
    forall x
      ensures x in a <==> x in b
      ensures x in a ==> a[x] == b[x]
    {
      if x == k {
      } else {
        assert (x in a <==> x in m) && (x in a ==> a[x] == m[x]);
      }
    }
  }

  class StateDb {
    var main: map<Key, Obj>
    var cache: map<Key, Obj>
    var reserving: bool
    var uncommitted: bool

    function View(modified: set<Key>): Db
      reads this
    {
      Store(main, cache, modified)
    }

    constructor ()
      ensures main == map[] && cache == map[] && reserving && !uncommitted
    {
      main, cache, reserving, uncommitted := map[], map[], true, false;
    }

    /** Reserves on the stored object, or on the block's new object for the key,
        which is created on first use. Only legal while reserving. */
    method TryApplyDelta(k: Key, d: Delta) returns (h: Reservations.Outcome)
      requires reserving
      modifies this
      ensures reserving && uncommitted
      ensures var (o, r) := Reservations.Reserve(ObjectAt(old(View({})), k), d);
        h == r && View({}) == WithObject(old(View({})), k, o)
    {
      uncommitted := true;
      if k in main {
        var (o, r) := Reservations.Reserve(main[k], d);
        main := main[k := o];
        return r;
      }
      if k !in cache {
        cache := cache[k := Fresh(None)];
      }
      var (o, r) := Reservations.Reserve(cache[k], d);
      cache := cache[k := o];
      return r;
    }

    /** Folds every modified key; a value that is gone loses its node, a new
        value gets one, and the new-key cache is emptied. */
    method CommitModifications(modified: set<Key>, listings: map<Key, seq<Entry>>)
      requires reserving
      modifies this
      ensures main == FinishedMain(old(View(modified)), listings)
      ensures cache == map[] && reserving && !uncommitted
    {
      reserving := false;
      ghost var main0, cache0 := main, cache;
      NothingFinished(main0, cache0, listings);
      var rest := modified;
      ghost var done: set<Key> := {};
      while rest != {}
        invariant done + rest == modified && done !! rest
        invariant main == FinishedMain(Store(main0, cache0, done), listings) && cache == cache0
        invariant forall x :: x in rest ==> (x in main <==> x in main0) && (x in main ==> main[x] == main0[x])
      {
        var k :| k in rest;
        FinishedOneMore(main0, cache0, done, k, listings);
        if k in main {
          var o := CommitRound(main[k], Listing(listings, k));
          if o.base.Some? {
            main := main[k := o];
          } else {
            main := main - {k};
          }
        } else if k in cache {
          var o := CommitRound(cache[k], Listing(listings, k));
          if o.base.Some? {
            main := main[k := Fresh(o.base)];
          }
        }
        rest, done := rest - {k}, done + {k};
      }
      assert done == modified;
      cache, reserving, uncommitted := map[], true, false;
    }

    /** Rewinds every modified key that is stored; new keys just go away. */
    method RewindModifications(modified: set<Key>)
      modifies this
      ensures main == RewoundMain(old(View(modified)))
      ensures cache == map[] && reserving && !uncommitted
    {
      ghost var main0, cache0 := main, cache;
      cache, reserving := map[], true;
      NothingFinished(main0, cache0, map[]);
      var rest := modified;
      ghost var done: set<Key> := {};
      while rest != {}
        invariant done + rest == modified && done !! rest
        invariant main == RewoundMain(Store(main0, cache0, done)) && cache == map[] && reserving
        invariant forall x :: x in rest && x in main ==> main[x] == main0[x]
      {
        var k :| k in rest;
        if k in main {
          main := main[k := RewindRound(main[k])];
        }
        rest, done := rest - {k}, done + {k};
      }
      assert done == modified;
      uncommitted := false;
    }
  }
}
