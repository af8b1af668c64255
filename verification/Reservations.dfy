/** Whole operations on one object: reserving a delta, committing or reverting
    it, and the object as the program updates its fields. An operation that runs
    undisturbed is exactly the sequence of its atomic steps. */
module Reservations {
  import opened StorageTypes
  import opened HashSets
  import opened Objects

  /** A rewind handle: the delta and the slot handle's do-revert flag. */
  datatype Handle = Handle(delta: Delta, live: bool)

  /** How a call to add a delta ends: with a handle, without one, or not at all
      while the slot's count stays wrapped. */
  datatype Outcome = Handed(handle: Handle) | Denied | Spinning

  predicate Admissible(o: Obj, d: Delta)
    requires !d.DeleteLast?
  {
    o.requiredType.None? || o.requiredType.value == d.Class().Type()
  }

  /** The accounting check for a delta whose slot is held. */
  function Account(o: Obj, d: Delta): Option<Obj> {
    match d
    case Int64SetAdd(v, a) =>
      if a >= 0 then Some(o.(added := o.added + a))
      else if !InInt64(o.subtracted + a) || v < 0 || v + (o.subtracted + a) < 0 then None
      else Some(o.(subtracted := o.subtracted + a))
    case HashSetIncreaseLimit(n) => Some(o.(sizeIncrease := o.sizeIncrease + n))
    case HashSetInsert(e) =>
      if e in HashesOf(o.base) || |HashesOf(o.base)| + o.newElements + 1 > MaxSizeOf(o.base) || TableRefuses(o.table, e)
      then None
      else Some(o.(newElements := o.newElements + 1, table := TableInsert(o.table, e)))
    case AssetAdd(a) =>
      if a < 0 then if !InUint64(o.available + a) then None else Some(o.(available := o.available + a))
      else if !InUint64(o.upperBound + a) then None
      else Some(o.(upperBound := o.upperBound + a))
    case _ => Some(o)
  }

  /** A refusal after the slot was reserved has to give the slot back, and
      spins if its own reservation was the one that wrapped the count. */
  function Reserve(o: Obj, d: Delta): (Obj, Outcome) {
    if d.DeleteLast? then (o, Handed(Handle(d, false)))
    else if Wrapped(o.slot) && Admissible(o, d) then (o, Spinning)
    else
      var r := TrySet(o.slot, o.requiredType, d.Class());
      if r.None? then (o, Denied)
      else
        var a := Account(o, d);
        if a.Some? then (a.value.(slot := r.value.0), Handed(Handle(d, r.value.1)))
        else Release(o.(slot := r.value.0), r.value.1)
  }

  function Release(o: Obj, live: bool): (Obj, Outcome) {
    if live && Wrapped(o.slot) then (o, Spinning) else (o.(slot := RevertSlotOf(o.slot, live)), Denied)
  }

  /** Gives the accounting of a delta back. */
  function Unaccount(o: Obj, d: Delta): Obj {
    match d
    case Int64SetAdd(_, a) => if a < 0 then o.(subtracted := o.subtracted - a) else o.(added := o.added - a)
    case HashSetIncreaseLimit(n) => o.(sizeIncrease := o.sizeIncrease - n)
    case HashSetInsert(e) => o.(newElements := o.newElements - 1, table := TableErase(o.table, e))
    case AssetAdd(a) => if a < 0 then o.(available := o.available - a) else o.(upperBound := o.upperBound - a)
    case _ => o
  }

  /** A live handle cannot leave a slot whose count has wrapped. */
  predicate RevertSpins(o: Obj, h: Handle) { h.live && Wrapped(o.slot) }

  function RevertHandle(o: Obj, h: Handle): Obj {
    Unaccount(o, h.delta).(slot := if RevertSpins(o, h) then o.slot else RevertSlotOf(o.slot, h.live))
  }

  function CommitHandle(o: Obj, h: Handle): Obj {
    var slot := CommitSlotOf(o.slot, h.live);
    match h.delta
    case DeleteLast => o.(deleteCommitted := true, slot := slot)
    case HashSetClear(t) => o.(clearCommitted := true, maxClear := Max(o.maxClear, t), slot := slot)
    case AssetAdd(a) =>
      if a < 0 then o.(upperBound := o.upperBound + a, slot := slot) else o.(available := o.available + a, slot := slot)
    case _ => o.(slot := slot)
  }

  // ---- the operations are their steps ----

  predicate Resting(c: Client) {
    c.phase.Reserved? || c.phase.Refused? || c.phase.Committed? || c.phase.Reverted?
  }

  /** At most `n` steps of one client, up to its next resting point. */
  function Solo(o: Obj, c: Client, choice: Choice, n: nat): (Obj, Client)
    decreases n
  {
    if n == 0 || Resting(c) then (o, c)
    else
      var r := Next(o, c, choice);
      Solo(r.0, r.1, choice, n - 1)
  }

  lemma SoloStep(o: Obj, c: Client, choice: Choice, n: nat, o2: Obj, c2: Client)
    requires n > 0 && !Resting(c) && Next(o, c, choice) == (o2, c2)
    ensures Solo(o, c, choice, n) == Solo(o2, c2, choice, n - 1)
  {
  }

  lemma SoloRests(o: Obj, c: Client, choice: Choice, n: nat)
    requires Resting(c)
    ensures Solo(o, c, choice, n) == (o, c)
  {
  }

  lemma SoloRelease(o: Obj, c: Client, n: nat)
    requires n >= 1 && c.phase.Releasing?
    ensures Solo(o, c, Commit, n) == Let(o, c)
  {
    if Waits(o, c) {
      SoloWaits(o, c, Commit, n);
    } else {
      SoloRests(o.(slot := RevertSlotOf(o.slot, c.live)), c.(phase := Refused), Commit, n - 1);
    }
  }

  /** What becomes of a call that has to give its slot back. */
  function Let(o: Obj, c: Client): (Obj, Client) {
    var (o2, outcome) := Release(o, c.live);
    (o2, c.(phase := if outcome.Denied? then Refused else Releasing))
  }

  lemma {:induction false} SoloWaits(o: Obj, c: Client, choice: Choice, n: nat)
    requires Waits(o, c)
    ensures Solo(o, c, choice, n) == (o, c)
    decreases n
  {
    if n > 0 {
      SoloWaits(o, c, choice, n - 1);
    }
  }

  /** An overfull or duplicate insert gives back its count, then its slot. */
  lemma SoloOverflow(o: Obj, c: Client, n: nat)
    requires n >= 2 && c.phase.Overflowed?
    ensures Solo(o, c, Commit, n) == Let(o.(newElements := o.newElements - 1), c)
  {
    var o2, c2 := o.(newElements := o.newElements - 1), c.(phase := Releasing);
    SoloStep(o, c, Commit, n, o2, c2);
    SoloRelease(o2, c2, n - 1);
  }

  /** An insert within the limit ends at the table. */
  lemma SoloCounted(o: Obj, c: Client, n: nat)
    requires n >= 3 && c.phase.Counted? && c.delta.HashSetInsert?
    ensures Solo(o, c, Commit, n) ==
      if TableRefuses(o.table, c.delta.entry)
      then Let(o.(newElements := o.newElements - 1), c)
      else (o.(table := TableInsert(o.table, c.delta.entry)), c.(phase := Reserved))
  {
    var q := Next(o, c, Commit);
    SoloStep(o, c, Commit, n, q.0, q.1);
    if TableRefuses(o.table, c.delta.entry) {
      SoloOverflow(o, c.(phase := Overflowed), n - 1);
    } else {
      SoloRests(q.0, q.1, Commit, n - 1);
    }
  }

  /** A counted insert meets the table. */
  function Placed(o: Obj, e: Entry): Option<Obj> {
    if TableRefuses(o.table, e) then None else Some(o.(table := TableInsert(o.table, e)))
  }

  lemma CountsInsert(o: Obj, c: Client)
    requires c.delta.HashSetInsert?
    ensures var (o2, c2) := CountStep(o, c);
      && (c2.phase.Releasing? || c2.phase.Overflowed? || c2.phase.Counted?) && c2 == c.(phase := c2.phase)
      && (c2.phase.Releasing? ==> o2 == o && Account(o, c.delta).None?)
      && (c2.phase.Overflowed? ==> o2 == o.(newElements := o.newElements + 1) && Account(o, c.delta).None?)
      && (c2.phase.Counted? ==> o2 == o.(newElements := o.newElements + 1) && Account(o, c.delta) == Placed(o2, c.delta.entry))
  {
  }

  lemma SoloInsert(o: Obj, c: Client)
    requires c.phase.SlotHeld? && c.delta.HashSetInsert?
    ensures var a := Account(o, c.delta);
      Solo(o, c, Commit, 4) ==
        if a.Some? then (a.value, c.(phase := Reserved)) else Let(o, c)
  {
    var r := CountStep(o, c);
    SoloStep(o, c, Commit, 4, r.0, r.1);
    CountsInsert(o, c);
    if r.1.phase.Releasing? {
      SoloRelease(r.0, r.1, 3);
    } else if r.1.phase.Overflowed? {
      SoloOverflow(r.0, r.1, 3);
    } else {
      SoloCounted(r.0, r.1, 3);
    }
  }

  lemma SoloCount(o: Obj, c: Client)
    requires c.phase.SlotHeld? && !c.delta.HashSetInsert? && !c.delta.DeleteLast?
    ensures var a := Account(o, c.delta);
      Solo(o, c, Commit, 4) ==
        if a.Some? then (a.value, c.(phase := Reserved)) else Let(o, c)
  {
    var r := CountStep(o, c);
    SoloStep(o, c, Commit, 4, r.0, r.1);
    if r.1.phase.Releasing? {
      SoloRelease(r.0, r.1, 3);
    } else {
      SoloRests(r.0, r.1, Commit, 3);
    }
  }

  /** A reservation that runs undisturbed, or spins for want of others. */
  lemma ReserveIsSolo(o: Obj, k: Key, owner: nat, d: Delta)
    ensures var c := Client(k, owner, d, false, Trying);
      var (o2, h) := Reserve(o, d);
      var (o3, c3) := Solo(o, c, Commit, 5);
      && o3 == o2
      && (h.Handed? ==> c3 == c.(phase := Reserved, live := h.handle.live))
      && (h.Denied? ==> c3 == c.(phase := Refused, live := c3.live))
      && (h.Spinning? ==> Waits(o2, c3) && (c3 == c || c3 == c.(phase := Releasing, live := true)))
  {
    var c := Client(k, owner, d, false, Trying);
    if Waits(o, c) {
      SoloWaits(o, c, Commit, 5);
      return;
    }
    var r := TryStep(o, c);
    SoloStep(o, c, Commit, 5, r.0, r.1);
    if r.1.phase.SlotHeld? {
      AccountIgnoresSlot(o, d, r.0.slot);
      if d.HashSetInsert? {
        SoloInsert(r.0, r.1);
      } else {
        SoloCount(r.0, r.1);
      }
    } else {
      SoloRests(r.0, r.1, Commit, 4);
    }
  }

  lemma AccountIgnoresSlot(o: Obj, d: Delta, slot: Slot)
    ensures var a, b := Account(o, d), Account(o.(slot := slot), d);
      a.Some? == b.Some? && (a.Some? ==> b.value == a.value.(slot := slot))
  {
  }

  lemma SoloRevertSlot(o: Obj, c: Client, n: nat)
    requires n >= 1 && c.phase.RevertSlot?
    ensures Solo(o, c, Revert, n) ==
      if Waits(o, c) then (o, c) else (o.(slot := RevertSlotOf(o.slot, c.live)), c.(phase := Reverted))
  {
    if Waits(o, c) {
      SoloWaits(o, c, Revert, n);
      return;
    }
    var r := Next(o, c, Revert);
    SoloStep(o, c, Revert, n, r.0, r.1);
    SoloRests(r.0, r.1, Revert, n - 1);
  }

  lemma RevertStepUnaccounts(o: Obj, c: Client)
    ensures Unaccount(o, c.delta).slot == o.slot
    ensures var r := RevertStep(o, c);
      if c.delta.HashSetInsert? then Next(r.0, r.1, Revert) == (Unaccount(o, c.delta), c.(phase := RevertSlot)) && r.1.phase.RevertMid?
      else r == (Unaccount(o, c.delta), c.(phase := RevertSlot))
  {
  }

  lemma RevertIsSolo(o: Obj, c: Client)
    requires c.phase.Reserved?
    ensures var r := RevertStep(o, c);
      var h := Handle(c.delta, c.live);
      Solo(r.0, r.1, Revert, 2) ==
        (RevertHandle(o, h), c.(phase := if RevertSpins(o, h) then RevertSlot else Reverted))
  {
    var r := RevertStep(o, c);
    RevertStepUnaccounts(o, c);
    if c.delta.HashSetInsert? {
      SoloStep(r.0, r.1, Revert, 2, Unaccount(o, c.delta), c.(phase := RevertSlot));
      SoloRevertSlot(Unaccount(o, c.delta), c.(phase := RevertSlot), 1);
    } else {
      SoloRevertSlot(r.0, r.1, 2);
    }
  }

  lemma CommitIsSolo(o: Obj, c: Client)
    requires c.phase.Reserved?
    ensures var r := CommitStep(o, c);
      Solo(r.0, r.1, Commit, 2) == (CommitHandle(o, Handle(c.delta, c.live)), c.(phase := Committed))
  {
    var r := CommitStep(o, c);
    var q := Next(r.0, r.1, Commit);
    SoloStep(r.0, r.1, Commit, 2, q.0, q.1);
    if c.delta.HashSetClear? {
      var p := Next(q.0, q.1, Commit);
      SoloStep(q.0, q.1, Commit, 1, p.0, p.1);
    } else {
      SoloRests(q.0, q.1, Commit, 1);
    }
  }

  // ---- what one operation undoes ----

  predicate SlotOk(s: Slot) {
    if s.value.None? then s == EMPTY_SLOT else s.finalized || s.inflight > 0
  }

  /** A refused delta changes nothing, and a call spins exactly when the count
      has wrapped, or when it would wrap with a reservation that then fails. */
  lemma RefusedChangesNothing(o: Obj, d: Delta)
    requires SlotOk(o.slot)
    ensures Reserve(o, d).1.Denied? ==> Reserve(o, d).0 == o
    ensures Reserve(o, d).1.Spinning? <==>
      && !d.DeleteLast? && Admissible(o, d) && !o.slot.finalized
      && (o.slot.inflight >= MAX_INFLIGHT
          || (o.slot.inflight == MAX_INFLIGHT - 1 && o.slot.value == Some(d.Class()) && Account(o, d).None?))
  {
    SlotRestored(o.slot, o.requiredType, d);
  }

  /** The object as an erased insert leaves it: one more dead table cell. */
  function Buried(o: Obj, d: Delta): Obj {
    if d.HashSetInsert? then o.(table := o.table.(tombstones := o.table.tombstones + 1)) else o
  }

  lemma UnaccountUndoes(o: Obj, d: Delta, o2: Obj)
    requires Account(o, d) == Some(o2)
    ensures Unaccount(o2, d) == Buried(o, d)
  {
    if d.HashSetInsert? {
      assert o.table.contents + {d.entry} - {d.entry} == o.table.contents;
    }
  }

  lemma UnaccountIgnoresSlot(o: Obj, d: Delta, slot: Slot)
    ensures Unaccount(o.(slot := slot), d) == Unaccount(o, d).(slot := slot)
  {
  }

  /** Reverting a reservation restores the object, but for a dead table cell,
      unless it was the 256th of a slot that is not final. */
  lemma RevertUndoesReserve(o: Obj, d: Delta)
    requires SlotOk(o.slot) && Reserve(o, d).1.Handed?
    ensures var (o2, h) := Reserve(o, d);
      if RevertSpins(o2, h.handle)
      then !o.slot.finalized && o.slot.inflight == MAX_INFLIGHT - 1
           && RevertHandle(o2, h.handle) == Buried(o, d).(slot := o2.slot)
      else RevertHandle(o2, h.handle) == Buried(o, d)
  {
    SlotRestored(o.slot, o.requiredType, d);
    if !d.DeleteLast? {
      var a := Account(o, d).value;
      UnaccountUndoes(o, d, a);
      UnaccountIgnoresSlot(a, d, Reserve(o, d).0.slot);
    }
  }

  lemma SlotRestored(s: Slot, required: Option<ObjectType>, d: Delta)
    requires SlotOk(s)
    ensures d.DeleteLast? ==> RevertSlotOf(s, false) == s
    ensures !d.DeleteLast? ==>
      var r := TrySet(s, required, d.Class());
      r.Some? ==> RevertSlotOf(r.value.0, r.value.1) == s
  {
  }

  // ---- the object as the program updates it ----

  lemma {:induction false} InsertWeakly(e: Entry, s: seq<Entry>)
    requires WeaklyDescending(s)
    ensures WeaklyDescending(InsertDescending(e, s))
    ensures forall x :: x in InsertDescending(e, s) ==> x == e || x in s
  {
    if s != [] && Above(s[0], e) {
      InsertWeakly(e, s[1..]);
      assert forall x :: x in s[1..] ==> s[0] == x || Above(s[0], x);
    } else {
      assert forall x :: x in s ==> e == x || Above(e, x) by {
        forall x | x in s
          ensures e == x || Above(e, x)
        {
          assert s[0] == x || Above(s[0], x);
        }
      }
    }
  }

  lemma {:induction false} SortWeakly(s: seq<Entry>)
    ensures WeaklyDescending(SortDescending(s))
  {
    if s != [] {
      SortWeakly(s[1..]);
      InsertWeakly(s[0], SortDescending(s[1..]));
    }
  }

  class RevertableObject {
    var slot: Slot
    var requiredType: Option<ObjectType>
    var subtracted: int
    var added: int
    var sizeIncrease: int
    var table: Table
    var newElements: int
    var clearCommitted: bool
    var maxClear: uint64
    var deleteCommitted: bool
    var available: int
    var upperBound: int
    var base: Option<StorageObject>

    function View(): Obj
      reads this
    {
      Obj(slot, requiredType, subtracted, added, sizeIncrease, table, newElements,
          clearCommitted, maxClear, deleteCommitted, available, upperBound, base)
    }

    constructor (committed: Option<StorageObject>)
      ensures View() == Fresh(committed)
    {
      slot, requiredType := EMPTY_SLOT, TypeOf(committed);
      subtracted, added, sizeIncrease, newElements := 0, 0, 0, 0;
      table := Table({}, 0, if committed.None? then Alloc(START_HASH_SET_SIZE)
                            else if committed.value.HashSet? then Alloc(committed.value.maxSize) else 0);
      clearCommitted, maxClear, deleteCommitted := false, 0, false;
      available, upperBound := AmountOf(committed), AmountOf(committed);
      base := committed;
    }

    /** The accounting of a delta whose slot is held. */
    method TryCount(d: Delta) returns (ok: bool)
      requires !d.DeleteLast?
      modifies this
      ensures ok == Account(old(View()), d).Some?
      ensures View() == if ok then Account(old(View()), d).value else old(View())
    {
      ok := true;
      match d
      case Int64SetAdd(v, a) =>
        if a < 0 {
          if !InInt64(subtracted + a) {
            return false;
          }
          var value := subtracted + a;
          if v < 0 || v + value < 0 {
            return false;
          }
          subtracted := value;
        } else {
          added := added + a;
        }
      case HashSetIncreaseLimit(n) => sizeIncrease := sizeIncrease + n;
      case HashSetInsert(e) =>
        if e in HashesOf(base) {
          return false;
        }
        newElements := newElements + 1;
        if |HashesOf(base)| + newElements > MaxSizeOf(base) || TableRefuses(table, e) {
          newElements := newElements - 1;
          return false;
        }
        table := TableInsert(table, e);
      case AssetAdd(a) =>
        if a < 0 {
          if !InUint64(available + a) {
            return false;
          }
          available := available + a;
        } else {
          if !InUint64(upperBound + a) {
            return false;
          }
          upperBound := upperBound + a;
        }
      case _ =>
    }

    method TryAddDelta(d: Delta) returns (h: Outcome)
      modifies this
      ensures (View(), h) == Reserve(old(View()), d)
    {
      if d.DeleteLast? {
        return Handed(Handle(d, false));
      }
      if Wrapped(slot) && Admissible(View(), d) {
        return Spinning;
      }
      var r := TrySet(slot, requiredType, d.Class());
      if r.None? {
        return Denied;
      }
      AccountIgnoresSlot(View(), d, r.value.0);
      slot := r.value.0;
      var ok := TryCount(d);
      if !ok {
        if r.value.1 && Wrapped(slot) {
          return Spinning;
        }
        slot := RevertSlotOf(slot, r.value.1);
        return Denied;
      }
      return Handed(Handle(d, r.value.1));
    }

    method CommitDelta(h: Handle)
      modifies this
      ensures View() == CommitHandle(old(View()), h)
    {
      match h.delta {
        case DeleteLast => deleteCommitted := true;
        case HashSetClear(t) =>
          clearCommitted := true;
          if t > maxClear {
            maxClear := t;
          }
        case AssetAdd(a) =>
          if a < 0 {
            upperBound := upperBound + a;
          } else {
            available := available + a;
          }
        case _ =>
      }
      slot := CommitSlotOf(slot, h.live);
    }

    method RevertDelta(h: Handle) returns (returned: bool)
      modifies this
      ensures View() == RevertHandle(old(View()), h)
      ensures returned <==> !RevertSpins(old(View()), h)
    {
      match h.delta {
        case Int64SetAdd(_, a) =>
          if a < 0 {
            subtracted := subtracted - a;
          } else {
            added := added - a;
          }
        case HashSetIncreaseLimit(n) => sizeIncrease := sizeIncrease - n;
        case HashSetInsert(e) =>
          newElements := newElements - 1;
          table := TableErase(table, e);
        case AssetAdd(a) =>
          if a < 0 {
            available := available - a;
          } else {
            upperBound := upperBound - a;
          }
        case _ =>
      }
      returned := !h.live || !Wrapped(slot);
      if returned {
        slot := RevertSlotOf(slot, h.live);
      }
    }

    method ClearAll()
      modifies this
      ensures View() == ClearMods(old(View()))
    {
      subtracted, added, sizeIncrease, newElements := 0, 0, 0, 0;
      table := Table({}, 0, table.capacity);
      clearCommitted, maxClear, deleteCommitted := false, 0, false;
      available, upperBound := AmountOf(base), AmountOf(base);
    }

    /** Folds a hash set: append, sort, and truncate by binary search. */
    method FoldSet(listing: seq<Entry>)
      requires base.Some? && base.value.HashSet?
      modifies this
      ensures var size := ToUint64(old(sizeIncrease) + old(base).value.maxSize);
        View() == old(View()).(
          table := Table({}, 0, if old(sizeIncrease) > 0 then Resize(old(table).capacity, size) else old(table).capacity),
          base := Some(HashSet(FoldHashes(old(base).value.hashes, listing, old(clearCommitted), old(maxClear)),
                               Min(MAX_HASH_SET_SIZE, size))))
    {
      var size := ToUint64(sizeIncrease + base.value.maxSize);
      table := Table({}, 0, if sizeIncrease > 0 then Resize(table.capacity, size) else table.capacity);
      var hashes := SortDescending(base.value.hashes + listing);
      if clearCommitted {
        SortWeakly(base.value.hashes + listing);
        hashes := ClearHashes(hashes, maxClear);
      }
      base := Some(HashSet(hashes, Min(MAX_HASH_SET_SIZE, size)));
    }

    method FinishRound(listing: seq<Entry>)
      modifies this
      ensures View() == CommitRound(old(View()), listing)
    {
      if slot.value.Some? {
        base := Some(ObjectFromClass(slot.value.value, base));
        requiredType := Some(slot.value.value.Type());
      }
      slot := EMPTY_SLOT;
      if base.None? {
        ClearAll();
        return;
      }
      if deleteCommitted {
        ClearAll();
        base, requiredType := None, None;
        return;
      }
      match base.value
      case RawMemory(_) => ClearAll();
      case Int64(v) =>
        base := Some(Int64(ToInt64(FoldInt(v, subtracted, added))));
        ClearAll();
      case HashSet(_, _) =>
        FoldSet(listing);
        ClearAll();
      case Asset(_) =>
        base := Some(Asset(ToUint64(available)));
        ClearAll();
    }

    method Rewind()
      modifies this
      ensures View() == RewindRound(old(View()))
    {
      slot := EMPTY_SLOT;
      ClearAll();
    }
  }
}
