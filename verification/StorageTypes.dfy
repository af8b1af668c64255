/** The values that travel through the ledger: stored objects, the typed deltas
    a transaction produces, and the machine-integer ranges of the program. */
module StorageTypes {

  const INT64_MAX: int := 0x7FFF_FFFF_FFFF_FFFF
  const INT64_MIN: int := -0x8000_0000_0000_0000
  const UINT64_MAX: int := 0xFFFF_FFFF_FFFF_FFFF
  const TWO_32: int := 0x1_0000_0000
  const TWO_64: int := 0x1_0000_0000_0000_0000
  const MAX_HASH_SET_SIZE: int := 65535
  const START_HASH_SET_SIZE: int := 64

  type int64 = x: int | INT64_MIN <= x <= INT64_MAX
  type uint64 = x: int | 0 <= x <= UINT64_MAX
  type uint32 = x: int | 0 <= x <= 0xFFFF_FFFF
  type byte = x: int | 0 <= x < 256

  /** An address-and-key pair; only its identity matters. */
  type Key = nat

  datatype Option<+T> = None | Some(value: T)

  function Min(a: int, b: int): int { if a <= b then a else b }

  function Max(a: int, b: int): int { if a <= b then b else a }

  predicate InInt64(x: int) { INT64_MIN <= x <= INT64_MAX }

  predicate InUint64(x: int) { 0 <= x <= UINT64_MAX }

  /** A hash is read as one big-endian number, so `<` is its byte order. */
  datatype Entry = Entry(hash: nat, index: uint64)

  datatype ObjectType = RawMemoryType | Int64Type | HashSetType | AssetType

  datatype StorageObject =
    | RawMemory(data: seq<byte>)
    | Int64(value: int64)
    | HashSet(hashes: seq<Entry>, maxSize: uint32)
    | Asset(amount: uint64)
  {
    function Type(): ObjectType {
      match this
      case RawMemory(_) => RawMemoryType
      case Int64(_) => Int64Type
      case HashSet(_, _) => HashSetType
      case Asset(_) => AssetType
    }
  }

  /** What all deltas applied to one object in one block have to agree on. */
  datatype DeltaClass =
    | RawMemoryClass(data: seq<byte>)
    | Int64Class(setValue: int64)
    | HashSetClass
    | AssetClass
  {
    function Type(): ObjectType {
      match this
      case RawMemoryClass(_) => RawMemoryType
      case Int64Class(_) => Int64Type
      case HashSetClass => HashSetType
      case AssetClass => AssetType
    }
  }

  datatype Delta =
    | DeleteLast
    | RawMemoryWrite(data: seq<byte>)
    | Int64SetAdd(setValue: int64, amount: int64)
    | HashSetInsert(entry: Entry)
    | HashSetIncreaseLimit(increase: uint32)
    | HashSetClear(threshold: uint64)
    | AssetAdd(assetAmount: int64)
  {
    function Class(): DeltaClass
      requires !DeleteLast?
    {
      match this
      case RawMemoryWrite(data) => RawMemoryClass(data)
      case Int64SetAdd(v, _) => Int64Class(v)
      case HashSetInsert(_) => HashSetClass
      case HashSetIncreaseLimit(_) => HashSetClass
      case HashSetClear(_) => HashSetClass
      case AssetAdd(_) => AssetClass
    }
  }

  /** The entries of a stored hash set; none when there is no such object. */
  function HashesOf(base: Option<StorageObject>): seq<Entry> {
    if base.Some? && base.value.HashSet? then base.value.hashes else []
  }

  function MaxSizeOf(base: Option<StorageObject>): uint32 {
    if base.Some? && base.value.HashSet? then base.value.maxSize else START_HASH_SET_SIZE
  }

  function AmountOf(base: Option<StorageObject>): uint64 {
    if base.Some? && base.value.Asset? then base.value.amount else 0
  }

  /** The stored integer; an absent key reads as zero. */
  function IntOf(base: Option<StorageObject>): int64 {
    if base.Some? && base.value.Int64? then base.value.value else 0
  }

  function TypeOf(base: Option<StorageObject>): Option<ObjectType> {
    if base.Some? then Some(base.value.Type()) else None
  }
}
