/** The slot past its 255th reservation. The eight-bit count wraps to zero, so
    that the tag looks empty while the pointer is set: every call then takes the
    read for a torn one and tries again, until a holder commits. */
module SlotWraps {
  import opened StorageTypes
  import opened SlotTags
  import opened SlotProtocol

  /** What a client knows of a slot whose count has wrapped. */
  predicate WideClient(mem: Mem, c: Client) {
    && !c.pc.Storing?
    && (c.pc.TagRead? || c.pc.BothRead? ==> c.pc.t == mem.tag || !IsFinalized(c.pc.t))
    && (c.pc.BothRead? && c.pc.t == mem.tag ==> c.pc.current == mem.ptr)
    && (IsLive(c) ==> mem.ptr == Some(c.want))
    && ((c.pc.Holding? && !c.pc.live) || c.pc.Committed? ==> mem.ptr == Some(c.want) && IsFinalized(mem.tag))
  }

  /** The count has wrapped: 256 reservations are outstanding or the slot is final. */
  ghost predicate Wide(s: Sys) {
    && TagOk(s.mem.tag) && Count(s.mem.tag) == 0 && s.mem.ptr.Some? && s.mem.tag !in s.mem.past
    && (forall t :: t in s.mem.past ==> !IsFinalized(t))
    && (forall i :: 0 <= i < |s.clients| ==> WideClient(s.mem, s.clients[i]))
    && (!IsFinalized(s.mem.tag) ==> Live(s.clients) == 256)
  }

  lemma NextIdUnseen(mem: Mem, c: Client)
    requires MemOk(mem) && ClientOk(mem, c) && HasId(c)
    ensures c.pc.u + 1 < TWO_48 && !Seen(mem, Id(c.pc.u + 1))
  {
    var n := mem.next[c.thread];
    var v := Uid(c.thread, n + 1);
    assert v / TWO_39 == c.thread && v % TWO_39 == n + 1;
    assert !Issued(mem.next, v);
    WordSplit(v, 0);
    assert UidOf(Id(v)) == v;
  }

  lemma IdParts(u: nat)
    requires u < TWO_48
    ensures TagOk(Id(u)) && Count(Id(u)) == 0 && !IsFinalized(Id(u)) && !ExpectNonnull(Id(u))
  {
    Packed(u, 0, 0);
  }

  lemma WrapKeepsOther(mem: Mem, tag: nat, d: Client)
    requires MemOk(mem) && ClientOk(mem, d) && !d.pc.Storing? && !IsFinalized(mem.tag) && !Seen(mem, tag)
    ensures WideClient(Exchange(mem, tag), d)
  {
  }

  /** The 256th reservation leads to a wrapped slot. */
  lemma WrapStep(s: Sys, i: nat, choice: Choice)
    requires Inv(s) && i < |s.clients| && Wraps(s, i, choice)
    ensures Wide(Step(s, i, choice)) && !IsFinalized(Step(s, i, choice).mem.tag)
  {
    var s2 := Step(s, i, choice);
    var c, c2 := s.clients[i], s2.clients[i];
    assert ClientOk(s.mem, c);
    LowBits(s.mem.tag);
    NextIdUnseen(s.mem, c);
    FullTag(c.pc.t, c.pc.u);
    IdParts(c.pc.u + 1);
    LiveUpdate(s.clients, i, c2);
    forall j | 0 <= j < |s.clients|
      ensures WideClient(s2.mem, s2.clients[j])
    {
      assert ClientOk(s.mem, s.clients[j]);
      if j != i {
        SettledHasNoStore(s.mem, s.clients[j]);
        WrapKeepsOther(s.mem, s2.mem.tag, s.clients[j]);
      }
    }
  }

  // ---- every step afterwards ----

  predicate Commits(s: Sys, i: nat, choice: Choice)
    requires i < |s.clients|
  {
    s.clients[i].pc == Holding(true) && !choice.Drop?
  }

  lemma WideLocal(s: Sys, i: nat, choice: Choice)
    requires Wide(s) && i < |s.clients| && !Commits(s, i, choice)
    ensures var s2 := Step(s, i, choice);
      && s2.mem.(next := s.mem.next) == s.mem && WideClient(s.mem, s2.clients[i])
      && (!IsFinalized(s.mem.tag) ==> IsLive(s2.clients[i]) == IsLive(s.clients[i]))
      && (!IsFinalized(s.mem.tag) && HasId(s.clients[i]) ==> HasId(s2.clients[i]) || s2.clients[i].pc.Refused?)
  {
    LowBits(s.mem.tag);
    assert WideClient(s.mem, s.clients[i]);
  }

  lemma WideFinalize(s: Sys, i: nat, choice: Choice)
    requires Wide(s) && i < |s.clients| && Commits(s, i, choice)
    ensures Wide(Step(s, i, choice)) && IsFinalized(Step(s, i, choice).mem.tag)
    ensures Step(s, i, choice).mem.ptr == s.mem.ptr && Count(Step(s, i, choice).mem.tag) == 0
  {
    var s2 := Step(s, i, choice);
    LowBits(s.mem.tag);
    if !IsFinalized(s.mem.tag) {
      FinalizeTag(s.mem.tag);
    }
    forall j | 0 <= j < |s.clients|
      ensures WideClient(s2.mem, s2.clients[j])
    {
      assert WideClient(s.mem, s.clients[j]);
    }
  }

  /** A wrapped slot stays wrapped, or becomes final and stays that. */
  lemma StepKeepsWide(s: Sys, i: nat, choice: Choice)
    requires Wide(s) && i < |s.clients|
    ensures Wide(Step(s, i, choice))
  {
    var s2 := Step(s, i, choice);
    if Commits(s, i, choice) {
      WideFinalize(s, i, choice);
    } else {
      WideLocal(s, i, choice);
      LiveUpdate(s.clients, i, s2.clients[i]);
      forall j | 0 <= j < |s2.clients|
        ensures WideClient(s2.mem, s2.clients[j])
      {
        assert WideClient(s.mem, s.clients[j]);
      }
    }
  }
}
