/** The per-thread allocator whose packed indices the table's cells hold: nine
    bits of thread above 23 bits of offset. Zero and the tombstone are reserved. */
module HashAllocators {
  import opened StorageTypes
  import opened TableProtocol

  const ALLOC_SIZE: nat := 1_000_000
  const TWO_23: nat := 0x80_0000
  const THREADS: nat := 512
  const TOMBSTONE: uint32 := 0xFFFF_FFFF

  function Pack(thread: nat, offset: nat): nat { offset + thread * TWO_23 }

  function ThreadOf(index: nat): nat { index / TWO_23 }

  function OffsetOf(index: nat): nat { index % TWO_23 }

  /** Packing loses nothing and never collides with the reserved words. */
  lemma PackRoundTrips(thread: nat, offset: nat)
    requires thread < THREADS && 1 <= offset <= ALLOC_SIZE
    ensures ThreadOf(Pack(thread, offset)) == thread && OffsetOf(Pack(thread, offset)) == offset
    ensures 0 < Pack(thread, offset) < TOMBSTONE
  {
  }

  class HashAllocator {
    var buffers: seq<seq<Entry>>

    ghost predicate Valid()
      reads this
    {
      |buffers| == THREADS && forall t :: 0 <= t < THREADS ==> |buffers[t]| <= ALLOC_SIZE
    }

    /** The index was handed out and not reset since. */
    predicate Allocated(index: nat)
      reads this
    {
      ThreadOf(index) < |buffers| && 1 <= OffsetOf(index) <= |buffers[ThreadOf(index)]|
    }

    function Get(index: nat): Entry
      requires Allocated(index)
      reads this
    {
      buffers[ThreadOf(index)][OffsetOf(index) - 1]
    }

    /** What a table cell that holds `word` means. */
    function CellOf(word: nat): Cell
      requires word == 0 || word == TOMBSTONE || Allocated(word)
      reads this
    {
      if word == 0 then Empty else if word == TOMBSTONE then Tomb else Live(Get(word))
    }

    constructor ()
      ensures Valid() && forall index :: !Allocated(index)
    {
      buffers := seq(THREADS, _ => []);
    }

    /** `None` stands for the exception of a full buffer. A new index is live,
        was not in use, and disturbs no index in use by any thread. */
    method Allocate(thread: nat, e: Entry) returns (index: Option<nat>)
      requires Valid() && thread < THREADS
      modifies this
      ensures Valid()
      ensures index.None? <==> |old(buffers)[thread]| == ALLOC_SIZE
      ensures index.None? ==> buffers == old(buffers)
      ensures index.Some? ==>
        && 0 < index.value < TOMBSTONE && !old(Allocated(index.value))
        && Allocated(index.value) && CellOf(index.value) == Live(e)
      ensures forall i :: old(Allocated(i)) ==> Allocated(i) && Get(i) == old(Get(i))
    {
      if |buffers[thread]| >= ALLOC_SIZE {
        return None;
      }
      var offset := |buffers[thread]| + 1;
      PackRoundTrips(thread, offset);
      buffers := buffers[thread := buffers[thread] + [e]];
      return Some(Pack(thread, offset));
    }

    /** Forgets every index of every thread. */
    method Reset()
      requires Valid()
      modifies this
      ensures Valid() && forall index :: !Allocated(index)
    {
      for t := 0 to THREADS
        invariant Valid() && forall j :: 0 <= j < t ==> buffers[j] == []
      {
        buffers := buffers[t := []];
      }
    }
  }
}
