/** The tag word of the lock-free slot: a 48-bit unique id, an 8-bit count of
    reservations, seven unused bits and a finalized bit. */
module SlotTags {
  import opened StorageTypes

  const TWO_16: int := 0x1_0000
  const TWO_39: int := 0x80_0000_0000
  const TWO_48: int := 0x1_0000_0000_0000

  function SwapId(tag: nat, id: nat): nat { (id + tag % TWO_16) % TWO_64 }

  function AddInflight(tag: nat): nat { (tag + 256) % TWO_64 }

  function RemoveInflight(tag: nat): nat { (tag + TWO_64 - 256) % TWO_64 }

  predicate HasInflight(tag: nat) { tag / 256 % 256 != 0 }

  predicate IsFinalized(tag: nat) { tag % 2 == 1 }

  predicate ExpectNonnull(tag: nat) { tag % TWO_16 != 0 }

  function Count(tag: nat): nat { tag / 256 % 256 }

  /** The machine id with number `u`: 48 bits above sixteen zeros. */
  function Id(u: nat): nat { u * TWO_16 }

  function UidOf(tag: nat): nat { tag / TWO_16 }

  /** Only the finalized bit of the low byte is in use. */
  predicate TagOk(tag: nat) { tag % 256 <= 1 && tag < TWO_64 }

  lemma ByteSplit(q: nat, r: nat)
    requires r < 256
    ensures (q * 256 + r) / 256 == q && (q * 256 + r) % 256 == r
  {
  }

  lemma WordSplit(u: nat, low: nat)
    requires low < TWO_16
    ensures (u * TWO_16 + low) / TWO_16 == u && (u * TWO_16 + low) % TWO_16 == low
  {
  }

  /** A tag and its three parts determine each other. */
  lemma Packed(u: nat, count: nat, low: nat)
    requires u < TWO_48 && count < 256 && low < 256
    ensures var t := u * TWO_16 + count * 256 + low;
      t < TWO_64 && UidOf(t) == u && Count(t) == count && t % 256 == low && t % TWO_16 == count * 256 + low
  {
    var t := u * TWO_16 + count * 256 + low;
    WordSplit(u, count * 256 + low);
    assert t == (u * 256 + count) * 256 + low;
    ByteSplit(u * 256 + count, low);
    ByteSplit(u, count);
  }

  lemma Unpacked(tag: nat)
    ensures tag == UidOf(tag) * TWO_16 + Count(tag) * 256 + tag % 256
    ensures tag % TWO_16 == Count(tag) * 256 + tag % 256
  {
  }

  lemma UidBelow(tag: nat)
    requires tag < TWO_64
    ensures UidOf(tag) < TWO_48
  {
  }

  lemma LowBits(tag: nat)
    requires TagOk(tag)
    ensures ExpectNonnull(tag) <==> Count(tag) > 0 || IsFinalized(tag)
    ensures HasInflight(tag) <==> Count(tag) > 0
    ensures IsFinalized(tag) <==> tag % 256 == 1
  {
    Unpacked(tag);
  }

  lemma SwapIdIs(tag: nat, u: nat)
    requires TagOk(tag) && u < TWO_48
    ensures SwapId(tag, Id(u)) == u * TWO_16 + Count(tag) * 256 + tag % 256
  {
    Unpacked(tag);
    Packed(u, Count(tag), tag % 256);
  }

  lemma AddTag(tag: nat, u: nat)
    requires TagOk(tag) && u < TWO_48 && Count(tag) < 255
    ensures var n := AddInflight(SwapId(tag, Id(u)));
      TagOk(n) && UidOf(n) == u && Count(n) == Count(tag) + 1 && n % 256 == tag % 256
  {
    SwapIdIs(tag, u);
    Packed(u, Count(tag) + 1, tag % 256);
  }

  lemma RemoveTag(tag: nat, u: nat)
    requires TagOk(tag) && u < TWO_48 && Count(tag) > 0
    ensures var n := RemoveInflight(SwapId(tag, Id(u)));
      TagOk(n) && UidOf(n) == u && Count(n) == Count(tag) - 1 && n % 256 == tag % 256
  {
    SwapIdIs(tag, u);
    Packed(u, Count(tag) - 1, tag % 256);
  }

  lemma FinalizeTag(tag: nat)
    requires TagOk(tag) && !IsFinalized(tag)
    ensures TagOk(tag + 1) && IsFinalized(tag + 1) && UidOf(tag + 1) == UidOf(tag) && Count(tag + 1) == Count(tag)
  {
    LowBits(tag);
    Unpacked(tag);
    UidBelow(tag);
    Packed(UidOf(tag), Count(tag), 1);
    LowBits(tag + 1);
  }

  lemma FullTag(tag: nat, u: nat)
    requires TagOk(tag) && u < TWO_48 - 1 && !IsFinalized(tag) && Count(tag) == 255
    ensures AddInflight(SwapId(tag, Id(u))) == Id(u + 1)
  {
    SwapIdIs(tag, u);
    LowBits(tag);
  }

  lemma IdLooksEmpty(u: nat)
    ensures !ExpectNonnull(Id(u))
  {
  }

  /** The reservation after 255 spills out of the count: the slot then looks
      empty although it is held. */
  lemma ReservationOverflows(tag: nat, u: nat)
    requires TagOk(tag) && u < TWO_48 - 1 && !IsFinalized(tag)
    ensures ExpectNonnull(AddInflight(SwapId(tag, Id(u)))) <==> Count(tag) != 255
  {
    if Count(tag) < 255 {
      AddTag(tag, u);
      LowBits(AddInflight(SwapId(tag, Id(u))));
    } else {
      FullTag(tag, u);
      IdLooksEmpty(u + 1);
    }
  }
}
