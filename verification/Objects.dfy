/** One shared object: its reservation accounting, and the atomic steps by
    which a delta is reserved, refused, committed or reverted on it.

    A `Client` is the life of one delta: the call that tries to add it and, if
    that succeeds, the rewind handle it leaves behind. `Next` performs the next
    atomic operation of one client, so an interleaving of clients is a sequence
    of `Next` steps in any order. */
module Objects {
  import opened StorageTypes
  import opened HashSets

  /** The slot all deltas of a block have to agree on. `inflight` counts the
      rewinds that can still give their reservation back. */
  datatype Slot = Slot(value: Option<DeltaClass>, inflight: nat, finalized: bool)

  const EMPTY_SLOT := Slot(None, 0, false)

  /** One reservation more than the eight-bit count can hold. */
  const MAX_INFLIGHT: nat := 256

  /** The count has wrapped around: whoever needs the slot spins until one of
      its holders commits. */
  predicate Wrapped(s: Slot) { s.value.Some? && !s.finalized && s.inflight >= MAX_INFLIGHT }

  /** The new-entry table: what it holds, its dead cells and its cells in all. */
  datatype Table = Table(contents: set<Entry>, tombstones: nat, capacity: nat)

  datatype Obj = Obj(
    slot: Slot,
    requiredType: Option<ObjectType>,
    subtracted: int,
    added: int,
    sizeIncrease: int,
    table: Table,
    newElements: int,
    clearCommitted: bool,
    maxClear: uint64,
    deleteCommitted: bool,
    available: int,
    upperBound: int,
    base: Option<StorageObject>)

  datatype Phase =
    | Trying      // the call has not touched the object yet
    | SlotHeld    // the slot is reserved, the accounting is not
    | Counted     // an insert that raised the element count within the limit
    | Overflowed  // an insert that has to lower the element count again
    | Releasing   // the call failed and gives the slot back
    | Refused     // the call returned without a handle
    | Reserved    // the handle is alive
    | CommitMid   // a clear that published its flag, not yet its threshold
    | CommitSlot  // the accounting is committed, the slot is not
    | Committed
    | RevertMid   // an insert that lowered the count and still sits in the table
    | RevertSlot  // the accounting is reverted, the slot is not
    | Reverted

  /** `live` is the do-revert flag of the slot's own handle. */
  datatype Client = Client(key: Key, owner: nat, delta: Delta, live: bool, phase: Phase)

  /** What the holder of a reserved handle does with it. */
  datatype Choice = Commit | Revert

  function TrySet(s: Slot, required: Option<ObjectType>, c: DeltaClass): Option<(Slot, bool)> {
    if required.Some? && required.value != c.Type() then None
    else if s.value.None? then Some((Slot(Some(c), 1, false), true))
    else if s.value.value != c then None
    else if s.finalized then Some((s, false))
    else Some((s.(inflight := s.inflight + 1), true))
  }

  function CommitSlotOf(s: Slot, live: bool): Slot {
    if live then s.(finalized := true) else s
  }

  function RevertSlotOf(s: Slot, live: bool): Slot {
    if !live || s.finalized then s
    else if s.inflight <= 1 then EMPTY_SLOT
    else s.(inflight := s.inflight - 1)
  }

  predicate TableRefuses(t: Table, e: Entry) {
    e in t.contents || |t.contents| + t.tombstones >= t.capacity
  }

  function TableInsert(t: Table, e: Entry): Table {
    t.(contents := t.contents + {e})
  }

  function TableErase(t: Table, e: Entry): Table {
    t.(contents := t.contents - {e}, tombstones := t.tombstones + 1)
  }

  /** Cells allocated for a requested number of elements. */
  function Alloc(n: nat): nat { n + n / 5 }

  /** A request is cut down to 32 bits, and one for less than there is ignored. */
  function Resize(capacity: nat, n: nat): nat {
    if Alloc(n % TWO_32) < capacity then capacity else Alloc(n % TWO_32)
  }

  /** The client needs a slot whose count has wrapped: to reserve it, if its
      type is admissible, or to give its reservation back. */
  predicate Waits(o: Obj, c: Client) {
    && Wrapped(o.slot)
    && if c.phase.Trying? then !c.delta.DeleteLast? && (o.requiredType.None? || o.requiredType.value == c.delta.Class().Type())
       else c.live && (c.phase.Releasing? || c.phase.RevertSlot?)
  }

  /** The next atomic operation; a client that has to wait spins. */
  function Next(o: Obj, c: Client, choice: Choice): (Obj, Client) {
    if Waits(o, c) then (o, c) else Move(o, c, choice)
  }

  function Move(o: Obj, c: Client, choice: Choice): (Obj, Client) {
    match c.phase
    case Trying => TryStep(o, c)
    case SlotHeld => CountStep(o, c)
    case Counted =>
      if !c.delta.HashSetInsert? then (o, c)
      else if TableRefuses(o.table, c.delta.entry) then (o, c.(phase := Overflowed))
      else (o.(table := TableInsert(o.table, c.delta.entry)), c.(phase := Reserved))
    case Overflowed => (o.(newElements := o.newElements - 1), c.(phase := Releasing))
    case Releasing => (o.(slot := RevertSlotOf(o.slot, c.live)), c.(phase := Refused))
    case Reserved => if choice.Commit? then CommitStep(o, c) else RevertStep(o, c)
    case CommitMid =>
      if !c.delta.HashSetClear? then (o, c)
      else (o.(maxClear := Max(o.maxClear, c.delta.threshold)), c.(phase := CommitSlot))
    case CommitSlot => (o.(slot := CommitSlotOf(o.slot, c.live)), c.(phase := Committed))
    case RevertMid =>
      if !c.delta.HashSetInsert? then (o, c)
      else (o.(table := TableErase(o.table, c.delta.entry)), c.(phase := RevertSlot))
    case RevertSlot => (o.(slot := RevertSlotOf(o.slot, c.live)), c.(phase := Reverted))
    case _ => (o, c)
  }

  /** Reserving the slot; a deletion reserves nothing. */
  function TryStep(o: Obj, c: Client): (Obj, Client) {
    if c.delta.DeleteLast? then (o, c.(phase := Reserved, live := false))
    else
      var r := TrySet(o.slot, o.requiredType, c.delta.Class());
      if r.None? then (o, c.(phase := Refused))
      else (o.(slot := r.value.0), c.(phase := SlotHeld, live := r.value.1))
  }

  /** The accounting check that follows a successful slot reservation. */
  function CountStep(o: Obj, c: Client): (Obj, Client) {
    var held := c.(phase := Reserved);
    var failed := c.(phase := Releasing);
    match c.delta
    case Int64SetAdd(v, d) =>
      if d < 0 then
        if !InInt64(o.subtracted + d) || v < 0 || v + (o.subtracted + d) < 0 then (o, failed)
        else (o.(subtracted := o.subtracted + d), held)
      else (o.(added := o.added + d), held)
    case HashSetIncreaseLimit(n) => (o.(sizeIncrease := o.sizeIncrease + n), held)
    case HashSetInsert(e) =>
      if e in HashesOf(o.base) then (o, failed)
      else
        var o2 := o.(newElements := o.newElements + 1);
        if |HashesOf(o.base)| + o2.newElements > MaxSizeOf(o.base) then (o2, c.(phase := Overflowed))
        else (o2, c.(phase := Counted))
    case AssetAdd(d) =>
      if d < 0 then
        if !InUint64(o.available + d) then (o, failed)
        else (o.(available := o.available + d), held)
      else if !InUint64(o.upperBound + d) then (o, failed)
      else (o.(upperBound := o.upperBound + d), held)
    case _ => (o, held)
  }

  function CommitStep(o: Obj, c: Client): (Obj, Client) {
    var done := c.(phase := CommitSlot);
    match c.delta
    case DeleteLast => (o.(deleteCommitted := true), done)
    case HashSetClear(_) => (o.(clearCommitted := true), c.(phase := CommitMid))
    case AssetAdd(d) =>
      if d < 0 then (o.(upperBound := o.upperBound + d), done)
      else (o.(available := o.available + d), done)
    case _ => (o, done)
  }

  function RevertStep(o: Obj, c: Client): (Obj, Client) {
    var done := c.(phase := RevertSlot);
    match c.delta
    case Int64SetAdd(_, d) =>
      if d < 0 then (o.(subtracted := o.subtracted - d), done)
      else (o.(added := o.added - d), done)
    case HashSetIncreaseLimit(n) => (o.(sizeIncrease := o.sizeIncrease - n), done)
    case HashSetInsert(_) => (o.(newElements := o.newElements - 1), c.(phase := RevertMid))
    case AssetAdd(d) =>
      if d < 0 then (o.(available := o.available - d), done)
      else (o.(upperBound := o.upperBound - d), done)
    case _ => (o, done)
  }

  /** A listing of the table, in whatever order its cells happen to hold it. */
  predicate Lists(listing: seq<Entry>, contents: set<Entry>) {
    NoDuplicates(listing) && (forall e :: e in listing ==> e in contents)
    && (forall e :: e in contents ==> e in listing)
  }

  function ObjectFromClass(c: DeltaClass, prev: Option<StorageObject>): StorageObject {
    match c
    case RawMemoryClass(data) => RawMemory(data)
    case Int64Class(v) => Int64(v)
    case HashSetClass => HashSet(HashesOf(prev), MaxSizeOf(prev))
    case AssetClass => Asset(AmountOf(prev))
  }

  function ClearMods(o: Obj): Obj {
    o.(subtracted := 0, added := 0, sizeIncrease := 0, newElements := 0,
       table := Table({}, 0, o.table.capacity),
       clearCommitted := false, maxClear := 0, deleteCommitted := false,
       available := AmountOf(o.base), upperBound := AmountOf(o.base))
  }

  function SaturatingAdd(value: int, addend: int): int {
    if value + addend > INT64_MAX then INT64_MAX else value + addend
  }

  /** The capped read of the 128-bit counter. */
  function FetchCap(added: int): int { Min(added, UINT64_MAX) }

  /** The integer fold; the result leaves the int64 range only if the
      subtracted total was allowed below the base. */
  function FoldInt(base: int64, subtracted: int, added: int): int {
    SaturatingAdd(base + subtracted, FetchCap(added))
  }

  function FoldHashes(hashes: seq<Entry>, listing: seq<Entry>, cleared: bool, threshold: uint64): seq<Entry> {
    var sorted := SortDescending(hashes + listing);
    if cleared then KeepAbove(sorted, threshold) else sorted
  }

  /** Conversions of the machine: two's complement and modulo 2^64. */
  function ToInt64(x: int): int64 {
    (x - INT64_MIN) % TWO_64 + INT64_MIN
  }

  function ToUint64(x: int): uint64 { x % TWO_64 }

  /** The end of an accepted round: the committed deltas become the new value. */
  function CommitRound(o: Obj, listing: seq<Entry>): Obj {
    var base := if o.slot.value.Some? then Some(ObjectFromClass(o.slot.value.value, o.base)) else o.base;
    var required := if o.slot.value.Some? then Some(o.slot.value.value.Type()) else o.requiredType;
    var p := o.(slot := EMPTY_SLOT, requiredType := required, base := base);
    if base.None? then ClearMods(p)
    else if o.deleteCommitted then ClearMods(p).(base := None, requiredType := None)
    else
      match base.value
      case RawMemory(_) => ClearMods(p)
      case Int64(v) =>
        ClearMods(p.(base := Some(Int64(ToInt64(FoldInt(v, o.subtracted, o.added))))))
      case HashSet(hashes, size) =>
        var newSize := ToUint64(o.sizeIncrease + size);
        var capacity := if o.sizeIncrease > 0 then Resize(o.table.capacity, newSize) else o.table.capacity;
        ClearMods(p.(table := Table({}, 0, capacity),
                     base := Some(HashSet(FoldHashes(hashes, listing, o.clearCommitted, o.maxClear),
                                          Min(MAX_HASH_SET_SIZE, newSize)))))
      case Asset(_) => ClearMods(p.(base := Some(Asset(ToUint64(o.available)))))
  }

  /** The end of a rejected round. */
  function RewindRound(o: Obj): Obj {
    ClearMods(o.(slot := EMPTY_SLOT))
  }

  /** A newly constructed object around a committed value, or around none. */
  function Fresh(base: Option<StorageObject>): Obj {
    Obj(EMPTY_SLOT, TypeOf(base), 0, 0, 0,
        Table({}, 0, if base.None? then Alloc(START_HASH_SET_SIZE)
                     else if base.value.HashSet? then Alloc(base.value.maxSize) else 0),
        0, false, 0, false, AmountOf(base), AmountOf(base), base)
  }
}
