/** What the lock-free slot guarantees over whole runs, and the simple slot that
    it implements. */
module SlotRuns {
  import opened StorageTypes
  import opened SlotTags
  import opened SlotProtocol
  import opened SlotWraps
  import Objects

  // ---- the simple slot ----

  function PendingValue(cs: seq<Client>): Option<DeltaClass> {
    if cs == [] then None
    else if cs[0].pc.Storing? then Some(cs[0].want)
    else PendingValue(cs[1..])
  }

  /** The abstract slot: a pending first store already counts as its value, and
      a count of zero beside a pointer that nobody is about to clear has wrapped. */
  function SlotOf(s: Sys): Objects.Slot {
    if Count(s.mem.tag) == 0 && s.mem.ptr.Some? && PendingValue(s.clients).None? then
      Objects.Slot(s.mem.ptr, Objects.MAX_INFLIGHT, IsFinalized(s.mem.tag))
    else CountedSlot(s)
  }

  function CountedSlot(s: Sys): Objects.Slot {
    Objects.Slot(
      if !ExpectNonnull(s.mem.tag) then None
      else if s.mem.ptr.Some? then s.mem.ptr
      else PendingValue(s.clients),
      Count(s.mem.tag), IsFinalized(s.mem.tag))
  }

  lemma {:induction false} NothingPending(cs: seq<Client>)
    requires PendingValue(cs).None?
    ensures forall i :: 0 <= i < |cs| ==> !cs[i].pc.Storing?
  {
    if cs != [] {
      NothingPending(cs[1..]);
    }
  }

  /** Up to 255 reservations the count is right. */
  lemma SlotIsCounted(s: Sys)
    requires Inv(s)
    ensures SlotOf(s) == CountedSlot(s) && !Objects.Wrapped(SlotOf(s))
  {
    LowBits(s.mem.tag);
    if PendingValue(s.clients).None? {
      NothingPending(s.clients);
    }
  }

  lemma {:induction false} NoStoreNoPending(cs: seq<Client>)
    requires forall i :: 0 <= i < |cs| ==> !cs[i].pc.Storing?
    ensures PendingValue(cs).None?
  {
    if cs != [] {
      NoStoreNoPending(cs[1..]);
    }
  }

  lemma SlotIsWide(s: Sys)
    requires Wide(s)
    ensures SlotOf(s) == Objects.Slot(s.mem.ptr, Objects.MAX_INFLIGHT, IsFinalized(s.mem.tag))
  {
    forall i | 0 <= i < |s.clients|
      ensures !s.clients[i].pc.Storing?
    {
      assert WideClient(s.mem, s.clients[i]);
    }
    NoStoreNoPending(s.clients);
  }

  /** The slot is consistent, its count wrapped or not. */
  ghost predicate Good(s: Sys) { Inv(s) || Wide(s) }

  lemma StepKeepsGood(s: Sys, i: nat, choice: Choice)
    requires Good(s) && i < |s.clients|
    ensures Good(Step(s, i, choice))
  {
    if Wide(s) {
      StepKeepsWide(s, i, choice);
    } else if Wraps(s, i, choice) {
      WrapStep(s, i, choice);
    } else {
      StepKeepsInv(s, i, choice);
    }
  }

  lemma {:induction false} PendingIs(cs: seq<Client>, i: nat)
    requires i < |cs| && cs[i].pc.Storing? && forall j :: 0 <= j < i ==> !cs[j].pc.Storing?
    ensures PendingValue(cs) == Some(cs[i].want)
  {
    if i > 0 {
      PendingIs(cs[1..], i - 1);
    }
  }

  lemma {:induction false} PendingUnchanged(cs: seq<Client>, i: nat, c: Client)
    requires i < |cs| && !cs[i].pc.Storing? && !c.pc.Storing?
    ensures PendingValue(cs[i := c]) == PendingValue(cs)
  {
    if i == 0 {
      assert cs[0 := c] == [c] + cs[1..];
    } else {
      PendingUnchanged(cs[1..], i - 1, c);
      assert cs[i := c] == [cs[0]] + cs[1..][i - 1 := c];
    }
  }

  /** Clients past the type check asked for an admissible type. */
  ghost predicate Admitted(s: Sys) {
    forall i :: 0 <= i < |s.clients| && !s.clients[i].pc.Start? && !s.clients[i].pc.Refused? && s.required.Some? ==>
      s.required.value == s.clients[i].want.Type()
  }

  lemma StepAdmits(s: Sys, i: nat, choice: Choice)
    requires Admitted(s) && i < |s.clients|
    ensures Admitted(Step(s, i, choice))
  {
  }

  /** The moment at which a call takes effect on the simple slot. */
  ghost predicate Refines(s: Sys, i: nat, s2: Sys)
    requires i < |s.clients| == |s2.clients|
  {
    var a, b, c, p := SlotOf(s), SlotOf(s2), s.clients[i], s2.clients[i].pc;
    if c.pc.BothRead? && c.pc.mode.Setting? && (p.Storing? || p.Holding?) then
      !Objects.Wrapped(a) && Objects.TrySet(a, s.required, c.want) == Some((b, p != Holding(false)))
    else if c.pc.Holding? && p.Committed? then b == Objects.CommitSlotOf(a, c.pc.live)
    else if c.pc.BothRead? && c.pc.mode.Reverting? && !p.Loop? then
      !Objects.Wrapped(a) && b == Objects.RevertSlotOf(a, true)
    else b == a
  }

  /** A reservation that is counted. */
  lemma CountedSetRefines(s: Sys, i: nat, choice: Choice)
    requires Inv(s) && Admitted(s) && i < |s.clients|
    requires s.clients[i].pc.BothRead? && s.clients[i].pc.mode.Setting? && !Wraps(s, i, choice)
    requires var pc := Step(s, i, choice).clients[i].pc; pc.Storing? || pc == Holding(true)
    requires SlotOf(s) == CountedSlot(s) && !Objects.Wrapped(SlotOf(s)) && SlotOf(Step(s, i, choice)) == CountedSlot(Step(s, i, choice))
    ensures Refines(s, i, Step(s, i, choice))
  {
    var s2 := Step(s, i, choice);
    var t, u := s.clients[i].pc.t, s.clients[i].pc.u;
    assert ClientOk(s.mem, s.clients[i]);
    LowBits(t);
    assert Count(t) < 255;
    AddTag(t, u);
    LowBits(s2.mem.tag);
    if s2.clients[i].pc.Storing? {
      forall j | 0 <= j < i
        ensures !s2.clients[j].pc.Storing?
      {
        assert ClientOk(s.mem, s.clients[j]);
        SettledHasNoStore(s.mem, s.clients[j]);
      }
      PendingIs(s2.clients, i);
    }
  }

  lemma SetRefines(s: Sys, i: nat, choice: Choice)
    requires Inv(s) && Admitted(s) && i < |s.clients|
    requires s.clients[i].pc.BothRead? && s.clients[i].pc.mode.Setting? && !Wraps(s, i, choice)
    ensures Refines(s, i, Step(s, i, choice))
  {
    var s2 := Step(s, i, choice);
    SlotIsCounted(s);
    SetStep(s, i, s.clients[i].pc.u, s.clients[i].pc.t, s.clients[i].pc.current, choice);
    SlotIsCounted(s2);
    if s2.clients[i].pc.Storing? || s2.clients[i].pc == Holding(true) {
      CountedSetRefines(s, i, choice);
    } else {
      assert ClientOk(s.mem, s.clients[i]);
      LowBits(s.clients[i].pc.t);
      LowBits(s.mem.tag);
      PendingUnchanged(s.clients, i, s2.clients[i]);
    }
  }

  lemma RevertRefines(s: Sys, i: nat, choice: Choice)
    requires Inv(s) && i < |s.clients|
    requires s.clients[i].pc.BothRead? && s.clients[i].pc.mode.Reverting?
    ensures Refines(s, i, Step(s, i, choice))
  {
    var s2 := Step(s, i, choice);
    SlotIsCounted(s);
    StepKeepsInv(s, i, choice);
    SlotIsCounted(s2);
    var c := s2.clients[i];
    var t, u := s.clients[i].pc.t, s.clients[i].pc.u;
    assert ClientOk(s.mem, s.clients[i]);
    LowBits(t);
    LowBits(s.mem.tag);
    LiveAtLeast(s.clients, i, i);
    if c.pc.Loop? || IsFinalized(t) {
      PendingUnchanged(s.clients, i, c);
    } else {
      RemoveTag(t, u);
      LowBits(s2.mem.tag);
    }
  }

  lemma StoreRefines(s: Sys, i: nat, choice: Choice)
    requires Inv(s) && i < |s.clients| && s.clients[i].pc.Storing?
    ensures Refines(s, i, Step(s, i, choice))
  {
    SlotIsCounted(s);
    StepKeepsInv(s, i, choice);
    SlotIsCounted(Step(s, i, choice));
    assert ClientOk(s.mem, s.clients[i]);
    LowBits(s.mem.tag);
    PendingIs(s.clients, i);
  }

  lemma CommitRefines(s: Sys, i: nat)
    requires Inv(s) && i < |s.clients| && s.clients[i].pc.Holding?
    ensures Refines(s, i, Step(s, i, Go))
  {
    SlotIsCounted(s);
    StepKeepsInv(s, i, Go);
    SlotIsCounted(Step(s, i, Go));
    assert ClientOk(s.mem, s.clients[i]);
    PendingUnchanged(s.clients, i, s.clients[i].(pc := Committed));
    LiveAtLeast(s.clients, i, i);
    LowBits(s.mem.tag);
    if !IsFinalized(s.mem.tag) {
      FinalizeTag(s.mem.tag);
      LowBits(s.mem.tag + 1);
    }
  }

  /** The 256th reservation is one of the simple slot. */
  lemma WrapRefines(s: Sys, i: nat, choice: Choice)
    requires Inv(s) && Admitted(s) && i < |s.clients| && Wraps(s, i, choice)
    ensures Refines(s, i, Step(s, i, choice))
  {
    WrapStep(s, i, choice);
    SlotIsCounted(s);
    SlotIsWide(Step(s, i, choice));
    assert ClientOk(s.mem, s.clients[i]);
    LowBits(s.mem.tag);
  }

  lemma WideRefines(s: Sys, i: nat, choice: Choice)
    requires Wide(s) && Admitted(s) && i < |s.clients|
    ensures Refines(s, i, Step(s, i, choice))
  {
    StepKeepsWide(s, i, choice);
    SlotIsWide(s);
    SlotIsWide(Step(s, i, choice));
    assert WideClient(s.mem, s.clients[i]);
    LowBits(s.mem.tag);
    if Commits(s, i, choice) {
      WideFinalize(s, i, choice);
    } else {
      WideLocal(s, i, choice);
    }
  }

  lemma QuietRefines(s: Sys, i: nat, choice: Choice)
    requires Inv(s) && i < |s.clients| && !Wraps(s, i, choice)
    requires var c := s.clients[i]; !c.pc.BothRead? && !c.pc.Storing? && !(c.pc.Holding? && !choice.Drop?)
    ensures Refines(s, i, Step(s, i, choice))
  {
    SlotIsCounted(s);
    StepKeepsInv(s, i, choice);
    SlotIsCounted(Step(s, i, choice));
    PendingUnchanged(s.clients, i, Step(s, i, choice).clients[i]);
  }

  /** The lock-free slot implements the simple one: every step is one operation
      of the simple slot, with the result that its caller gets, or none. No call
      gets a result from a slot whose count has wrapped. */
  lemma StepRefines(s: Sys, i: nat, choice: Choice)
    requires Good(s) && Admitted(s) && i < |s.clients|
    ensures Refines(s, i, Step(s, i, choice))
  {
    var c := s.clients[i];
    if Wide(s) {
      WideRefines(s, i, choice);
    } else if Wraps(s, i, choice) {
      WrapRefines(s, i, choice);
    } else if c.pc.BothRead? {
      if c.pc.mode.Setting? {
        SetRefines(s, i, choice);
      } else {
        RevertRefines(s, i, choice);
      }
    } else if c.pc.Storing? {
      StoreRefines(s, i, choice);
    } else if c.pc.Holding? && !choice.Drop? {
      CommitRefines(s, i);
    } else {
      QuietRefines(s, i, choice);
    }
  }

  // ---- refusals ----

  ghost predicate Wanted(cs: seq<Client>, v: DeltaClass) { exists j :: 0 <= j < |cs| && cs[j].want == v }

  /** What a client read or was refused for was asked for by some client. */
  ghost predicate ClientPublished(cs: seq<Client>, required: Option<ObjectType>, c: Client) {
    && (c.pc.BothRead? && c.pc.current.Some? ==> Wanted(cs, c.pc.current.value))
    && (c.pc.Refused? && c.pc.conflict.Some? ==> c.pc.conflict.value != c.want && Wanted(cs, c.pc.conflict.value))
    && (c.pc.Refused? && c.pc.conflict.None? ==> required.Some? && required.value != c.want.Type())
  }

  ghost predicate PublishedByClients(s: Sys) {
    && (s.mem.ptr.Some? ==> Wanted(s.clients, s.mem.ptr.value))
    && forall i :: 0 <= i < |s.clients| ==> ClientPublished(s.clients, s.required, s.clients[i])
  }

  lemma StillWanted(cs: seq<Client>, i: nat, c: Client)
    requires i < |cs| && c.want == cs[i].want
    ensures forall v :: Wanted(cs, v) ==> Wanted(cs[i := c], v)
    ensures Wanted(cs[i := c], c.want)
  {
    forall v | Wanted(cs, v)
      ensures Wanted(cs[i := c], v)
    {
      var j :| 0 <= j < |cs| && cs[j].want == v;
      assert cs[i := c][j].want == v;
    }
    assert cs[i := c][i].want == c.want;
  }

  lemma StepPublishes(s: Sys, i: nat, choice: Choice)
    requires PublishedByClients(s) && i < |s.clients|
    ensures PublishedByClients(Step(s, i, choice))
  {
    var s2 := Step(s, i, choice);
    StillWanted(s.clients, i, s2.clients[i]);
    forall j | 0 <= j < |s.clients|
      ensures ClientPublished(s2.clients, s.required, s2.clients[j])
    {
      assert ClientPublished(s.clients, s.required, s.clients[j]);
    }
  }

  // ---- runs ----

  /** A step of one of the slot's clients, or an id drawn for another slot by a
      thread whose counter serves them all. */
  datatype Event = ClientStep(i: nat, choice: Choice) | ForeignDraw(thread: nat)

  function Happens(s: Sys, event: Event): Sys {
    match event
    case ClientStep(i, choice) => if i < |s.clients| then Step(s, i, choice) else s
    case ForeignDraw(thread) =>
      if CanIssue(s.mem.next, thread) && !Busy(s.clients, thread) then s.(mem := Draw(s.mem, thread)) else s
  }

  function RunSlot(s: Sys, events: seq<Event>): Sys {
    if events == [] then s else Happens(RunSlot(s, events[..|events| - 1]), events[|events| - 1])
  }

  /** An empty slot that nobody has approached. */
  predicate Initial(s: Sys) {
    && s.mem == Mem(0, None, {}, s.mem.next) && |s.mem.next| <= 512
    && forall i :: 0 <= i < |s.clients| ==> s.clients[i].pc.Start?
  }

  lemma {:induction false} NoneLive(cs: seq<Client>)
    requires forall i :: 0 <= i < |cs| ==> cs[i].pc.Start?
    ensures Live(cs) == 0
  {
    if cs != [] {
      NoneLive(cs[1..]);
    }
  }

  lemma InitialInv(s: Sys)
    requires Initial(s)
    ensures Inv(s) && Admitted(s) && PublishedByClients(s)
  {
    NoneLive(s.clients);
  }

  lemma ForeignDrawKeeps(s: Sys, thread: nat)
    requires Inv(s) && CanIssue(s.mem.next, thread) && !Busy(s.clients, thread)
    ensures Inv(s.(mem := Draw(s.mem, thread)))
  {
    var mem := Draw(s.mem, thread);
    forall i | 0 <= i < |s.clients|
      ensures ClientOk(mem, s.clients[i])
    {
      DrawKeeps(s.mem, thread, s.clients[i]);
    }
    DrawMem(s.mem, thread);
  }

  lemma DrawMem(mem: Mem, thread: nat)
    requires MemOk(mem) && CanIssue(mem.next, thread)
    ensures MemOk(Draw(mem, thread))
  {
    DrawnIsNew(mem.next, thread);
    assert forall t :: SlotProtocol.Seen(Draw(mem, thread), t) <==> SlotProtocol.Seen(mem, t);
  }

  lemma DrawPublishes(s: Sys, thread: nat)
    requires PublishedByClients(s) && Admitted(s) && CanIssue(s.mem.next, thread)
    ensures PublishedByClients(s.(mem := Draw(s.mem, thread))) && Admitted(s.(mem := Draw(s.mem, thread)))
  {
    forall i | 0 <= i < |s.clients|
      ensures ClientPublished(s.clients, s.required, s.clients[i])
    {
    }
  }

  lemma DrawKeepsWide(s: Sys, thread: nat)
    requires Wide(s) && CanIssue(s.mem.next, thread)
    ensures Wide(s.(mem := Draw(s.mem, thread)))
  {
    forall i | 0 <= i < |s.clients|
      ensures WideClient(Draw(s.mem, thread), s.clients[i])
    {
      assert WideClient(s.mem, s.clients[i]);
    }
  }

  lemma EventKeepsGood(s: Sys, event: Event)
    requires Good(s) && Admitted(s) && PublishedByClients(s)
    ensures Good(Happens(s, event)) && Admitted(Happens(s, event)) && PublishedByClients(Happens(s, event))
  {
    match event
    case ClientStep(i, choice) =>
      if i < |s.clients| {
        StepKeepsGood(s, i, choice);
        StepAdmits(s, i, choice);
        StepPublishes(s, i, choice);
      }
    case ForeignDraw(thread) =>
      if CanIssue(s.mem.next, thread) && !Busy(s.clients, thread) {
        DrawPublishes(s, thread);
        if Wide(s) {
          DrawKeepsWide(s, thread);
        } else {
          ForeignDrawKeeps(s, thread);
        }
      }
  }

  lemma {:induction false} RunKeepsGood(s: Sys, events: seq<Event>)
    requires Good(s) && Admitted(s) && PublishedByClients(s)
    ensures var r := RunSlot(s, events); Good(r) && Admitted(r) && PublishedByClients(r)
  {
    if events != [] {
      RunKeepsGood(s, events[..|events| - 1]);
      EventKeepsGood(RunSlot(s, events[..|events| - 1]), events[|events| - 1]);
    }
  }

  // ---- what a reader of the run may rely on ----

  /** Holds the value, whether it can still give it back or not. */
  predicate IsHolder(c: Client) { c.pc.Committed? || c.pc.Holding? || (IsLive(c) && !c.pc.Storing?) }

  /** Exactly 256 reservations are outstanding and none was committed. */
  predicate IsWrapped(s: Sys) { !IsFinalized(s.mem.tag) && Live(s.clients) == 256 }

  lemma LowByteCounts(s: Sys)
    requires Good(s) && !IsFinalized(s.mem.tag)
    ensures Live(s.clients) <= 256 && Count(s.mem.tag) == Live(s.clients) % 256
    ensures IsWrapped(s) <==> Wide(s)
    ensures IsWrapped(s) <==> Objects.Wrapped(SlotOf(s))
  {
    if Wide(s) {
      SlotIsWide(s);
    } else {
      SlotIsCounted(s);
    }
  }

  lemma HoldersSeePointer(s: Sys, i: nat)
    requires Good(s) && i < |s.clients| && IsHolder(s.clients[i])
    ensures s.mem.ptr == Some(s.clients[i].want)
  {
    if Wide(s) {
      assert WideClient(s.mem, s.clients[i]);
    } else {
      assert ClientOk(s.mem, s.clients[i]);
    }
  }

  /** Under every interleaving: the tag counts the live handles modulo 256, of
      which there are never more than that; the pointer is null exactly when the
      tag's low bits are zero, unless one store is pending or the count has
      wrapped; no tag value returns, all holders agree, and a refusal names a
      value that another client asked for. */
  lemma SlotIsSafe(s: Sys, events: seq<Event>)
    requires Initial(s)
    ensures var r := RunSlot(s, events);
      && (!IsFinalized(r.mem.tag) ==> Live(r.clients) <= 256 && Count(r.mem.tag) == Live(r.clients) % 256)
      && ((forall i :: 0 <= i < |r.clients| ==> !r.clients[i].pc.Storing?) ==> (Settled(r.mem) <==> !IsWrapped(r)))
      && (forall i, j :: 0 <= i < j < |r.clients| ==> !(r.clients[i].pc.Storing? && r.clients[j].pc.Storing?))
      && r.mem.tag !in r.mem.past
      && (forall i, j :: 0 <= i < j < |r.clients| && IsHolder(r.clients[i]) && IsHolder(r.clients[j]) ==>
            r.clients[i].want == r.clients[j].want)
      && (forall i :: 0 <= i < |r.clients| && r.clients[i].pc.Refused? && r.clients[i].pc.conflict.Some? ==>
            r.clients[i].pc.conflict.value != r.clients[i].want && Wanted(r.clients, r.clients[i].pc.conflict.value))
  {
    InitialInv(s);
    RunKeepsGood(s, events);
    var r := RunSlot(s, events);
    forall i | 0 <= i < |r.clients|
      ensures IsHolder(r.clients[i]) ==> r.mem.ptr == Some(r.clients[i].want)
      ensures ClientPublished(r.clients, r.required, r.clients[i])
      ensures Wide(r) ==> !r.clients[i].pc.Storing?
    {
      if IsHolder(r.clients[i]) {
        HoldersSeePointer(r, i);
      }
      assert Wide(r) ==> WideClient(r.mem, r.clients[i]);
    }
    if !IsFinalized(r.mem.tag) {
      LowByteCounts(r);
    }
    WideIsUnsettled(r);
  }

  lemma WideIsUnsettled(s: Sys)
    ensures Wide(s) ==> (Settled(s.mem) <==> IsFinalized(s.mem.tag))
  {
    if Wide(s) {
      LowBits(s.mem.tag);
    }
  }

  /** Once final, the slot is frozen; and while a store is pending no other
      client changes tag or pointer. */
  lemma FrozenOnceFinal(s: Sys, i: nat, choice: Choice)
    requires Good(s) && i < |s.clients|
    ensures IsFinalized(s.mem.tag) ==> Step(s, i, choice).mem.(next := s.mem.next) == s.mem
    ensures forall j :: 0 <= j < |s.clients| && j != i && s.clients[j].pc.Storing? ==>
      Step(s, i, choice).mem.(next := s.mem.next) == s.mem
  {
    var c := s.clients[i];
    if Wide(s) {
      assert WideClient(s.mem, c);
      if !Commits(s, i, choice) {
        WideLocal(s, i, choice);
      }
      assert forall j :: 0 <= j < |s.clients| && s.clients[j].pc.Storing? ==> WideClient(s.mem, s.clients[j]);
    } else {
      assert ClientOk(s.mem, c);
      LowBits(s.mem.tag);
      forall j | 0 <= j < |s.clients| && j != i && s.clients[j].pc.Storing?
        ensures Step(s, i, choice).mem.(next := s.mem.next) == s.mem
      {
        assert ClientOk(s.mem, s.clients[j]);
        LiveAtLeast(s.clients, i, j);
      }
    }
  }

  // ---- when a call returns ----

  predicate IsCommit(s: Sys, event: Event) {
    event.ClientStep? && event.i < |s.clients| && Commits(s, event.i, event.choice)
  }

  /** The client is in a loop, and has not read the tag, has read it as it is
      now, or wants to give its reservation back. */
  predicate Looks(s: Sys, c: Client) { HasId(c) && (c.pc.Loop? || c.pc.t == s.mem.tag || c.pc.mode.Reverting?) }

  /** Whatever happens to a wrapped slot, short of a commit by a holder, leaves
      tag and pointer alone; whoever looks at it goes round its loop again, and
      only a client that read the tag before it wrapped can still be refused. */
  lemma SpinsUntilCommit(s: Sys, event: Event)
    requires Good(s) && IsWrapped(s) && !IsCommit(s, event)
    ensures var s2 := Happens(s, event);
      && Good(s2) && IsWrapped(s2) && s2.mem.(next := s.mem.next) == s.mem
      && (forall i :: 0 <= i < |s.clients| && HasId(s.clients[i]) ==> HasId(s2.clients[i]) || s2.clients[i].pc.Refused?)
      && (forall i :: 0 <= i < |s.clients| && Looks(s, s.clients[i]) ==> HasId(s2.clients[i]))
  {
    LowByteCounts(s);
    LowBits(s.mem.tag);
    match event
    case ClientStep(i, choice) =>
      if i < |s.clients| {
        WideLocal(s, i, choice);
        StepKeepsWide(s, i, choice);
        LiveUpdate(s.clients, i, Step(s, i, choice).clients[i]);
        assert WideClient(s.mem, s.clients[i]);
      }
    case ForeignDraw(thread) =>
      if CanIssue(s.mem.next, thread) && !Busy(s.clients, thread) {
        DrawKeepsWide(s, thread);
      }
  }

  function OwnSteps(s: Sys, i: nat): Sys
    requires i < |s.clients|
  {
    Step(Step(Step(s, i, Go), i, Go), i, Go)
  }

  /** A call that is left alone at the top of its loop returns from it, or goes
      on to its store, if and only if the slot is final or has fewer than 256
      reservations outstanding. */
  lemma ReturnsUnlessWrapped(s: Sys, i: nat)
    requires Good(s) && i < |s.clients| && s.clients[i].pc.Loop?
    requires forall j :: 0 <= j < |s.clients| ==> !s.clients[j].pc.Storing?
    ensures HasId(OwnSteps(s, i).clients[i]) <==> IsWrapped(s)
  {
    if !IsFinalized(s.mem.tag) {
      LowByteCounts(s);
    }
    WideIsUnsettled(s);
    var c := s.clients[i];
    var m, u := c.pc.mode, c.pc.u;
    var s1 := Step(s, i, Go);
    assert s1.clients[i].pc == TagRead(m, u, s.mem.tag) && s1.mem == s.mem;
    var s2 := Step(s1, i, Go);
    assert s2.clients[i].pc == BothRead(m, u, s.mem.tag, s.mem.ptr) && s2.mem == s.mem;
    assert Shorn(s.mem.tag, s.mem.ptr) <==> !Settled(s.mem);
  }

  /** Clients that all ask for the same admissible class are never refused. */
  lemma AgreeingClientsAreServed(s: Sys, events: seq<Event>, v: DeltaClass)
    requires Initial(s) && (s.required.None? || s.required.value == v.Type())
    requires forall i :: 0 <= i < |RunSlot(s, events).clients| ==> RunSlot(s, events).clients[i].want == v
    ensures forall i :: 0 <= i < |RunSlot(s, events).clients| ==> !RunSlot(s, events).clients[i].pc.Refused?
  {
    InitialInv(s);
    RunKeepsGood(s, events);
    RequiredStays(s, events);
    var r := RunSlot(s, events);
    forall i | 0 <= i < |r.clients|
      ensures !r.clients[i].pc.Refused?
    {
      assert ClientPublished(r.clients, r.required, r.clients[i]);
    }
  }

  lemma {:induction false} RequiredStays(s: Sys, events: seq<Event>)
    ensures RunSlot(s, events).required == s.required && |RunSlot(s, events).clients| == |s.clients|
  {
    if events != [] {
      RequiredStays(s, events[..|events| - 1]);
    }
  }

  // ---- every refusal is one of the simple slot ----

  /** How many events had happened when client `j` last loaded the tag. */
  function LoadedAt(s: Sys, events: seq<Event>, j: nat): nat {
    if events == [] then 0
    else
      var prev, last := events[..|events| - 1], events[|events| - 1];
      if last.ClientStep? && last.i == j && j < |RunSlot(s, prev).clients| && RunSlot(s, prev).clients[j].pc.Loop?
      then |events|
      else LoadedAt(s, prev, j)
  }

  /** The simple slot shows `v` to a caller. */
  predicate Shows(s: Sys, v: Option<DeltaClass>) { SlotOf(s).value == v && !Objects.Wrapped(SlotOf(s)) }

  /** The simple slot showed `v` after `m` events. */
  predicate ShownAt(s: Sys, events: seq<Event>, m: nat, v: Option<DeltaClass>) {
    m <= |events| && Shows(RunSlot(s, events[..m]), v)
  }

  ghost predicate ShownSince(s: Sys, events: seq<Event>, from: nat, v: Option<DeltaClass>) {
    exists m :: from <= m && ShownAt(s, events, m, v)
  }

  lemma ShownLater(s: Sys, prev: seq<Event>, last: Event, from: nat, v: Option<DeltaClass>)
    requires ShownSince(s, prev, from, v)
    ensures ShownSince(s, prev + [last], from, v)
  {
    var m :| from <= m && ShownAt(s, prev, m, v);
    assert (prev + [last])[..m] == prev[..m];
    assert ShownAt(s, prev + [last], m, v);
  }

  lemma ShownNow(s: Sys, events: seq<Event>, from: nat, v: Option<DeltaClass>)
    requires from <= |events| && Shows(RunSlot(s, events), v)
    ensures ShownSince(s, events, from, v)
  {
    assert events[..|events|] == events;
    assert ShownAt(s, events, |events|, v);
  }

  lemma {:induction false} LoadedBefore(s: Sys, events: seq<Event>, j: nat)
    ensures LoadedAt(s, events, j) <= |events|
  {
    if events != [] {
      LoadedBefore(s, events[..|events| - 1], j);
    }
  }

  /** A client that loaded a nonzero tag can only read a class that the simple
      slot has shown since. */
  ghost predicate ReadsShown(s: Sys, events: seq<Event>, j: nat) {
    var r := RunSlot(s, events);
    j < |r.clients| ==>
      var pc := r.clients[j].pc;
      && (pc.TagRead? && ExpectNonnull(pc.t) && r.mem.ptr.Some? ==>
            ShownSince(s, events, LoadedAt(s, events, j), r.mem.ptr))
      && (pc.BothRead? && ExpectNonnull(pc.t) && pc.current.Some? ==>
            ShownSince(s, events, LoadedAt(s, events, j), pc.current))
  }

  /** A class that an event puts behind the pointer is shown from then on. */
  lemma NewClassIsShown(s: Sys, event: Event)
    requires Good(s) && Happens(s, event).mem.ptr != s.mem.ptr && Happens(s, event).mem.ptr.Some?
    ensures Shows(Happens(s, event), Happens(s, event).mem.ptr)
  {
    var i := event.i;
    assert event.ClientStep? && i < |s.clients| && s.clients[i].pc.Storing?;
    WideHasNoStore(s);
    assert ClientOk(s.mem, s.clients[i]);
    StepKeepsInv(s, i, event.choice);
    SlotIsCounted(Happens(s, event));
    LowBits(s.mem.tag);
  }

  lemma WideHasNoStore(s: Sys)
    ensures Wide(s) ==> forall i :: 0 <= i < |s.clients| ==> !s.clients[i].pc.Storing?
  {
  }

  /** A nonzero tag beside a class shows it. */
  lemma NonzeroTagShows(s: Sys)
    requires Good(s) && ExpectNonnull(s.mem.tag) && s.mem.ptr.Some?
    ensures Shows(s, s.mem.ptr)
  {
    LowBits(s.mem.tag);
    if Wide(s) {
      SlotIsWide(s);
    } else {
      SlotIsCounted(s);
    }
  }

  /** How a client comes to hold what it read. */
  lemma StepReads(s: Sys, j: nat, choice: Choice)
    requires j < |s.clients|
    ensures var pc, s2 := s.clients[j].pc, Step(s, j, choice);
      var pc2 := s2.clients[j].pc;
      && (pc.Loop? ==> pc2 == TagRead(pc.mode, pc.u, s.mem.tag) && s2.mem == s.mem)
      && (pc.TagRead? ==> pc2 == BothRead(pc.mode, pc.u, pc.t, s.mem.ptr) && s2.mem == s.mem)
      && (!pc.Loop? && !pc.TagRead? ==> !pc2.TagRead? && !pc2.BothRead?)
  {
    var c := s.clients[j];
    match c.pc
    case BothRead(Setting, u, t, current) => assert !TrySet(s.mem, c, u, t, current, choice).1.pc.TagRead?;
    case BothRead(Reverting, u, t, current) => assert !TryRevert(s.mem, c, u, t, current, choice).1.pc.TagRead?;
    case _ =>
  }

  lemma OwnStepReads(s: Sys, prev: seq<Event>, last: Event, j: nat)
    requires ReadsShown(s, prev, j) && j < |RunSlot(s, prev).clients| && last.ClientStep? && last.i == j
    requires Good(RunSlot(s, prev))
    ensures ReadsShown(s, prev + [last], j)
  {
    var events := prev + [last];
    assert events[..|events| - 1] == prev && events[|events| - 1] == last;
    var p := RunSlot(s, prev);
    assert RunSlot(s, events) == Step(p, j, last.choice);
    StepReads(p, j, last.choice);
    if p.clients[j].pc.Loop? {
      if ExpectNonnull(p.mem.tag) && p.mem.ptr.Some? {
        StepKeepsGood(p, j, last.choice);
        NonzeroTagShows(RunSlot(s, events));
        ShownNow(s, events, LoadedAt(s, events, j), p.mem.ptr);
      }
    } else if p.clients[j].pc.TagRead? && ExpectNonnull(p.clients[j].pc.t) && p.mem.ptr.Some? {
      ShownLater(s, prev, last, LoadedAt(s, prev, j), p.mem.ptr);
    }
  }

  lemma OtherEventReads(s: Sys, prev: seq<Event>, last: Event, j: nat)
    requires ReadsShown(s, prev, j) && j < |RunSlot(s, prev).clients| && Good(RunSlot(s, prev))
    requires !(last.ClientStep? && last.i == j)
    ensures ReadsShown(s, prev + [last], j)
  {
    var events := prev + [last];
    assert events[..|events| - 1] == prev;
    var p, r := RunSlot(s, prev), RunSlot(s, events);
    LoadedBefore(s, prev, j);
    assert r.clients[j] == p.clients[j];
    var pc := p.clients[j].pc;
    if pc.TagRead? && ExpectNonnull(pc.t) && r.mem.ptr.Some? {
      if r.mem.ptr == p.mem.ptr {
        ShownLater(s, prev, last, LoadedAt(s, prev, j), p.mem.ptr);
      } else {
        NewClassIsShown(p, last);
        ShownNow(s, events, LoadedAt(s, events, j), r.mem.ptr);
      }
    }
    if pc.BothRead? && ExpectNonnull(pc.t) && pc.current.Some? {
      ShownLater(s, prev, last, LoadedAt(s, prev, j), pc.current);
    }
  }

  lemma {:induction false} RunReadsShown(s: Sys, events: seq<Event>, j: nat)
    requires Initial(s)
    ensures ReadsShown(s, events, j)
  {
    if events != [] {
      var prev, last := events[..|events| - 1], events[|events| - 1];
      assert events == prev + [last];
      RunReadsShown(s, prev, j);
      RequiredStays(s, prev);
      RequiredStays(s, events);
      InitialInv(s);
      RunKeepsGood(s, prev);
      if j < |s.clients| {
        if last.ClientStep? && last.i == j {
          OwnStepReads(s, prev, last, j);
        } else {
          OtherEventReads(s, prev, last, j);
        }
      }
    }
  }

  /** After `m` events the simple slot would have refused `want`. */
  predicate RefusesAt(s: Sys, events: seq<Event>, m: nat, want: DeltaClass) {
    && m <= |events| && Objects.TrySet(SlotOf(RunSlot(s, events[..m])), s.required, want) == None
    && (Objects.Wrapped(SlotOf(RunSlot(s, events[..m]))) ==> s.required.Some? && s.required.value != want.Type())
  }

  /** Why a step refuses. */
  lemma RefusingStep(s: Sys, i: nat, choice: Choice)
    requires i < |s.clients| && !s.clients[i].pc.Refused? && Step(s, i, choice).clients[i].pc.Refused?
    ensures var c := s.clients[i];
      || (c.pc.Start? && s.required.Some? && s.required.value != c.want.Type())
      || (c.pc.BothRead? && ExpectNonnull(c.pc.t) && c.pc.current.Some? && c.pc.current.value != c.want)
  {
  }

  lemma ShownRefuses(s: Sys, events: seq<Event>, m: nat, v: DeltaClass, want: DeltaClass)
    requires ShownAt(s, events, m, Some(v)) && v != want
    ensures RefusesAt(s, events, m, want)
  {
  }

  lemma WrongTypeRefuses(s: Sys, events: seq<Event>, want: DeltaClass)
    requires s.required.Some? && s.required.value != want.Type()
    ensures RefusesAt(s, events, |events|, want)
  {
  }

  /** A call that is refused is refused rightly: at some moment between its load
      of the tag and its decision, or at any moment if its type is not
      admissible, the simple slot refuses it. */
  lemma RefusalsRefine(s: Sys, events: seq<Event>, i: nat, choice: Choice)
    requires Initial(s) && i < |RunSlot(s, events).clients|
    requires !RunSlot(s, events).clients[i].pc.Refused? && Step(RunSlot(s, events), i, choice).clients[i].pc.Refused?
    ensures exists m :: LoadedAt(s, events, i) <= m && RefusesAt(s, events, m, RunSlot(s, events).clients[i].want)
  {
    var r := RunSlot(s, events);
    var c := r.clients[i];
    RefusingStep(r, i, choice);
    RequiredStays(s, events);
    if c.pc.Start? {
      LoadedBefore(s, events, i);
      WrongTypeRefuses(s, events, c.want);
    } else {
      RunReadsShown(s, events, i);
      assert ShownSince(s, events, LoadedAt(s, events, i), c.pc.current);
      var m :| LoadedAt(s, events, i) <= m && ShownAt(s, events, m, c.pc.current);
      ShownRefuses(s, events, m, c.pc.current.value, c.want);
    }
  }
}
