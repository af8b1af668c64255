/** The lock-free slot at the granularity of its atomic instructions.

    The class that everybody has to agree on sits behind a pointer that is
    written separately from the tag word. Each client runs one call that tries
    to set the slot and, if that succeeds, one commit or revert. A step is one
    atomic load, store, compare-exchange or fetch-or of one client. */
module SlotProtocol {
  import opened StorageTypes
  import opened SlotTags

  datatype Mode = Setting | Reverting

  datatype Pc =
    | Start
    | Loop(mode: Mode, u: nat)                          // about to load the tag
    | TagRead(mode: Mode, u: nat, t: nat)               // about to load the pointer
    | BothRead(mode: Mode, u: nat, t: nat, current: Option<DeltaClass>)
    | Storing(mode: Mode)                               // tag exchanged, pointer not yet stored
    | Refused(conflict: Option<DeltaClass>)
    | Holding(live: bool)                               // the handle, with its do-revert flag
    | Dropping                                          // a live handle is being destroyed
    | Committed
    | Reverted

  datatype Client = Client(thread: nat, want: DeltaClass, pc: Pc)

  /** `past` are all earlier values of the tag; `next` counts the ids that each
      thread has drawn. */
  datatype Mem = Mem(tag: nat, ptr: Option<DeltaClass>, past: set<nat>, next: seq<nat>)

  datatype Sys = Sys(mem: Mem, required: Option<ObjectType>, clients: seq<Client>)

  /** `Go` and `Drop` differ only for a handle; `Fail` is a spurious failure of
      a weak compare-exchange. */
  datatype Choice = Go | Drop | Fail

  predicate Shorn(t: nat, current: Option<DeltaClass>) { ExpectNonnull(t) == current.None? }

  // ---- unique ids ----

  /** Number of the `n`th id of a thread: its thread number sits in the top nine bits. */
  function Uid(thread: nat, n: nat): nat { thread * TWO_39 + n }

  predicate Issued(next: seq<nat>, u: nat) {
    u / TWO_39 < |next| && 1 <= u % TWO_39 <= next[u / TWO_39]
  }

  /** Threads fit in nine bits and none has used up its ids. */
  predicate CanIssue(next: seq<nat>, thread: nat) {
    thread < |next| <= 512 && next[thread] + 2 < TWO_39
  }

  function Draw(mem: Mem, thread: nat): Mem
    requires CanIssue(mem.next, thread)
  {
    mem.(next := mem.next[thread := mem.next[thread] + 1])
  }

  lemma DrawnIsNew(next: seq<nat>, thread: nat)
    requires CanIssue(next, thread)
    ensures var u := Uid(thread, next[thread] + 1);
      && 0 < u < TWO_48 && !Issued(next, u) && Issued(next[thread := next[thread] + 1], u)
    ensures forall v :: Issued(next, v) ==> Issued(next[thread := next[thread] + 1], v)
  {
    var u := Uid(thread, next[thread] + 1);
    assert u / TWO_39 == thread && u % TWO_39 == next[thread] + 1;
  }

  // ---- steps ----

  function Exchange(mem: Mem, tag: nat): Mem { mem.(tag := tag, past := mem.past + {mem.tag}) }

  function TrySet(mem: Mem, c: Client, u: nat, t: nat, current: Option<DeltaClass>, choice: Choice): (Mem, Client) {
    if Shorn(t, current) then (mem, c.(pc := Loop(Setting, u)))
    else if current.Some? && current.value != c.want then (mem, c.(pc := Refused(Some(current.value))))
    else if current.Some? && IsFinalized(t) then (mem, c.(pc := Holding(false)))
    else if mem.tag != t || choice.Fail? then (mem, c.(pc := Loop(Setting, u)))
    else
      (Exchange(mem, AddInflight(SwapId(t, Id(u)))),
       c.(pc := if current.None? then Storing(Setting) else Holding(true)))
  }

  function TryRevert(mem: Mem, c: Client, u: nat, t: nat, current: Option<DeltaClass>, choice: Choice): (Mem, Client) {
    if Shorn(t, current) then (mem, c.(pc := Loop(Reverting, u)))
    else if IsFinalized(t) then (mem, c.(pc := Reverted))
    else if mem.tag != t || choice.Fail? then (mem, c.(pc := Loop(Reverting, u)))
    else
      var tag := RemoveInflight(SwapId(t, Id(u)));
      (Exchange(mem, tag), c.(pc := if HasInflight(tag) then Reverted else Storing(Reverting)))
  }

  function Finalize(mem: Mem): Mem {
    if IsFinalized(mem.tag) then mem else Exchange(mem, mem.tag + 1)
  }

  /** Draws an id and enters a loop; a thread out of ids cannot go on. */
  function Enter(mem: Mem, c: Client, mode: Mode): (Mem, Client) {
    if !CanIssue(mem.next, c.thread) then (mem, c)
    else (Draw(mem, c.thread), c.(pc := Loop(mode, Uid(c.thread, mem.next[c.thread] + 1))))
  }

  function Next(mem: Mem, required: Option<ObjectType>, c: Client, choice: Choice): (Mem, Client) {
    match c.pc
    case Start =>
      if required.Some? && required.value != c.want.Type() then (mem, c.(pc := Refused(None)))
      else Enter(mem, c, Setting)
    case Loop(m, u) => (mem, c.(pc := TagRead(m, u, mem.tag)))
    case TagRead(m, u, t) => (mem, c.(pc := BothRead(m, u, t, mem.ptr)))
    case BothRead(Setting, u, t, current) => TrySet(mem, c, u, t, current, choice)
    case BothRead(Reverting, u, t, current) => TryRevert(mem, c, u, t, current, choice)
    case Storing(Setting) => (mem.(ptr := Some(c.want)), c.(pc := Holding(true)))
    case Storing(Reverting) => (mem.(ptr := None), c.(pc := Reverted))
    case Holding(live) =>
      if choice.Drop? then (mem, c.(pc := if live then Dropping else Reverted))
      else (if live then Finalize(mem) else mem, c.(pc := Committed))
    case Dropping => Enter(mem, c, Reverting)
    case _ => (mem, c)
  }

  // ---- the invariant ----

  /** The reservation is counted in the tag unless it is finalized. */
  predicate IsLive(c: Client) {
    || (c.pc.Storing? && c.pc.mode.Setting?) || (c.pc.Holding? && c.pc.live) || c.pc.Dropping?
    || ((c.pc.Loop? || c.pc.TagRead? || c.pc.BothRead?) && c.pc.mode.Reverting?)
  }

  function Live(cs: seq<Client>): nat {
    if cs == [] then 0 else (if IsLive(cs[0]) then 1 else 0) + Live(cs[1..])
  }

  predicate HasId(c: Client) { c.pc.Loop? || c.pc.TagRead? || c.pc.BothRead? }

  predicate Seen(mem: Mem, t: nat) { t == mem.tag || t in mem.past }

  /** A thread runs one call at a time: it draws no id while it holds one. */
  predicate Busy(cs: seq<Client>, thread: nat) {
    exists j :: 0 <= j < |cs| && HasId(cs[j]) && cs[j].thread == thread
  }

  ghost predicate IdUnused(mem: Mem, u: nat) {
    0 < u < TWO_48 && Issued(mem.next, u) && forall t :: Seen(mem, t) ==> UidOf(t) != u
  }

  /** What a client knows of the slot. */
  ghost predicate ClientOk(mem: Mem, c: Client) {
    && (HasId(c) ==> IdUnused(mem, c.pc.u))
    && (HasId(c) ==> c.thread < |mem.next| && c.pc.u == Uid(c.thread, mem.next[c.thread]) && mem.next[c.thread] + 1 < TWO_39)
    && (c.pc.TagRead? || c.pc.BothRead? ==> Seen(mem, c.pc.t))
    && (c.pc.BothRead? && c.pc.t == mem.tag && !Shorn(c.pc.t, c.pc.current) ==> c.pc.current == mem.ptr)
    && (c.pc.Storing? && c.pc.mode.Setting? ==> mem.ptr.None? && Count(mem.tag) == 1 && !IsFinalized(mem.tag))
    && (c.pc.Storing? && c.pc.mode.Reverting? ==> mem.ptr.Some? && Count(mem.tag) == 0 && !IsFinalized(mem.tag))
    && (IsLive(c) && !c.pc.Storing? ==> mem.ptr == Some(c.want))
    && ((c.pc.Holding? && !c.pc.live) || c.pc.Committed? ==> mem.ptr == Some(c.want) && IsFinalized(mem.tag))
  }

  /** No tag value ever returns, and only the last can be final. */
  ghost predicate MemOk(mem: Mem) {
    && TagOk(mem.tag) && mem.tag !in mem.past && |mem.next| <= 512
    && (forall t :: t in mem.past ==> TagOk(t) && !IsFinalized(t))
    && (forall t :: Seen(mem, t) ==> UidOf(t) == 0 || Issued(mem.next, UidOf(t)))
  }

  /** Pointer and tag tell the same story unless a store is pending. */
  predicate Settled(mem: Mem) { mem.ptr.None? <==> !ExpectNonnull(mem.tag) }

  ghost predicate Apart(cs: seq<Client>) {
    forall i, j :: 0 <= i < j < |cs| ==>
      && !(cs[i].pc.Storing? && cs[j].pc.Storing?)
      && !(HasId(cs[i]) && HasId(cs[j]) && cs[i].pc.u == cs[j].pc.u)
  }

  ghost predicate Inv(s: Sys) {
    && MemOk(s.mem)
    && (forall i :: 0 <= i < |s.clients| ==> ClientOk(s.mem, s.clients[i]))
    && Apart(s.clients)
    && (if IsFinalized(s.mem.tag) then Count(s.mem.tag) > 0 else Count(s.mem.tag) == Live(s.clients))
    && ((forall i :: 0 <= i < |s.clients| ==> !s.clients[i].pc.Storing?) ==> Settled(s.mem))
  }

  lemma {:induction false} LiveUpdate(cs: seq<Client>, i: nat, c: Client)
    requires i < |cs|
    ensures Live(cs[i := c]) == Live(cs) - (if IsLive(cs[i]) then 1 else 0) + (if IsLive(c) then 1 else 0)
  {
    if i == 0 {
      assert cs[0 := c] == [c] + cs[1..];
    } else {
      LiveUpdate(cs[1..], i - 1, c);
      assert cs[i := c] == [cs[0]] + cs[1..][i - 1 := c];
    }
  }

  lemma {:induction false} LiveAtLeast(cs: seq<Client>, i: nat, j: nat)
    requires i < |cs| && j < |cs|
    ensures IsLive(cs[i]) ==> Live(cs) >= 1
    ensures i != j && IsLive(cs[i]) && IsLive(cs[j]) ==> Live(cs) >= 2
  {
    if i > 0 && j > 0 {
      LiveAtLeast(cs[1..], i - 1, j - 1);
    } else if i > 0 {
      LiveAtLeast(cs[1..], i - 1, i - 1);
    } else if j > 0 {
      LiveAtLeast(cs[1..], j - 1, j - 1);
    }
  }

  // ---- what each kind of step leaves intact ----

  lemma DrawKeeps(mem: Mem, thread: nat, d: Client)
    requires MemOk(mem) && CanIssue(mem.next, thread) && ClientOk(mem, d) && (HasId(d) ==> d.thread != thread)
    ensures MemOk(Draw(mem, thread)) && ClientOk(Draw(mem, thread), d)
    ensures IdUnused(Draw(mem, thread), Uid(thread, mem.next[thread] + 1))
    ensures HasId(d) ==> d.pc.u != Uid(thread, mem.next[thread] + 1)
  {
    DrawnIsNew(mem.next, thread);
    assert forall t :: Seen(Draw(mem, thread), t) <==> Seen(mem, t);
  }

  lemma SettledHasNoStore(mem: Mem, d: Client)
    requires TagOk(mem.tag) && ClientOk(mem, d) && Settled(mem)
    ensures !d.pc.Storing?
  {
    LowBits(mem.tag);
  }

  lemma ExchangeMem(mem: Mem, u: nat, tag: nat)
    requires MemOk(mem) && !IsFinalized(mem.tag) && IdUnused(mem, u)
    requires TagOk(tag) && UidOf(tag) == u
    ensures MemOk(Exchange(mem, tag))
    ensures forall t :: Seen(Exchange(mem, tag), t) <==> Seen(mem, t) || t == tag
    ensures !Seen(mem, tag)
  {
  }

  lemma ExchangeKeeps(mem: Mem, u: nat, tag: nat, d: Client)
    requires MemOk(mem) && !IsFinalized(mem.tag) && IdUnused(mem, u) && Settled(mem)
    requires TagOk(tag) && UidOf(tag) == u
    requires ClientOk(mem, d) && (HasId(d) ==> d.pc.u != u)
    ensures ClientOk(Exchange(mem, tag), d)
  {
    ExchangeMem(mem, u, tag);
    SettledHasNoStore(mem, d);
  }

  lemma FinalizeKeeps(mem: Mem, d: Client)
    requires MemOk(mem) && !IsFinalized(mem.tag) && Settled(mem) && ClientOk(mem, d)
    ensures MemOk(Exchange(mem, mem.tag + 1)) && ClientOk(Exchange(mem, mem.tag + 1), d)
  {
    FinalizeTag(mem.tag);
    SettledHasNoStore(mem, d);
    assert forall t :: Seen(Exchange(mem, mem.tag + 1), t) <==> Seen(mem, t) || t == mem.tag + 1;
    assert !Seen(mem, mem.tag + 1);
  }

  lemma StoreMem(mem: Mem, ptr: Option<DeltaClass>)
    requires MemOk(mem) && !IsFinalized(mem.tag) && (if Count(mem.tag) == 0 then ptr.None? else ptr.Some?)
    ensures MemOk(mem.(ptr := ptr)) && Settled(mem.(ptr := ptr))
  {
    LowBits(mem.tag);
    assert forall t :: Seen(mem.(ptr := ptr), t) <==> Seen(mem, t);
  }

  /** A pending store is invisible: nobody else acts on the pointer it replaces. */
  lemma StoreKeeps(mem: Mem, mode: Mode, ptr: Option<DeltaClass>, d: Client)
    requires MemOk(mem) && ClientOk(mem, d) && !d.pc.Storing? && !IsFinalized(mem.tag)
    requires mode.Setting? ==> mem.ptr.None? && Count(mem.tag) == 1 && ptr.Some?
    requires mode.Reverting? ==> mem.ptr.Some? && Count(mem.tag) == 0 && ptr.None? && !IsLive(d)
    ensures ClientOk(mem.(ptr := ptr), d)
  {
    LowBits(mem.tag);
    assert forall t :: Seen(mem.(ptr := ptr), t) <==> Seen(mem, t);
  }

  /** Puts a step together from its effect on the memory, the acting client and
      every other client. */
  lemma Assemble(s: Sys, i: nat, mem: Mem, c: Client)
    requires Apart(s.clients) && i < |s.clients|
    requires MemOk(mem) && ClientOk(mem, c)
    requires forall j :: 0 <= j < |s.clients| && j != i ==> ClientOk(mem, s.clients[j])
    requires forall j :: 0 <= j < |s.clients| && j != i && HasId(c) && HasId(s.clients[j]) ==> s.clients[j].pc.u != c.pc.u
    requires c.pc.Storing? ==> forall j :: 0 <= j < |s.clients| && j != i ==> !s.clients[j].pc.Storing?
    requires if IsFinalized(mem.tag) then Count(mem.tag) > 0 else Count(mem.tag) == Live(s.clients[i := c])
    requires Settled(mem) || c.pc.Storing? || exists j :: 0 <= j < |s.clients| && j != i && s.clients[j].pc.Storing?
    ensures Inv(Sys(mem, s.required, s.clients[i := c]))
  {
    var cs := s.clients[i := c];
    forall j | 0 <= j < |cs|
      ensures ClientOk(mem, cs[j])
    {
      assert j == i || cs[j] == s.clients[j];
    }
    if !Settled(mem) && !c.pc.Storing? {
      var j :| 0 <= j < |s.clients| && j != i && s.clients[j].pc.Storing?;
      assert cs[j] == s.clients[j];
    } else if c.pc.Storing? {
      assert cs[i].pc.Storing?;
    }
  }

  // ---- every step ----

  function Step(s: Sys, i: nat, choice: Choice): Sys
    requires i < |s.clients|
  {
    if (s.clients[i].pc.Start? || s.clients[i].pc.Dropping?) && Busy(s.clients, s.clients[i].thread) then s
    else
      var (mem, c) := Next(s.mem, s.required, s.clients[i], choice);
      Sys(mem, s.required, s.clients[i := c])
  }

  /** The reservation after 255 others has succeeded. */
  predicate Wraps(s: Sys, i: nat, choice: Choice)
    requires i < |s.clients|
  {
    var pc := s.clients[i].pc;
    pc.BothRead? && pc.mode.Setting? && Count(pc.t) == 255 && Step(s, i, choice).clients[i].pc == Holding(true)
  }

  /** A step that changes the client alone. */
  lemma LocalStep(s: Sys, i: nat, c: Client)
    requires Inv(s) && i < |s.clients| && ClientOk(s.mem, c)
    requires HasId(c) ==> HasId(s.clients[i]) && c.pc.u == s.clients[i].pc.u
    requires !c.pc.Storing? && !s.clients[i].pc.Storing?
    requires !IsFinalized(s.mem.tag) ==> IsLive(c) == IsLive(s.clients[i])
    ensures Inv(Sys(s.mem, s.required, s.clients[i := c]))
  {
    LiveUpdate(s.clients, i, c);
    Assemble(s, i, s.mem, c);
  }

  lemma EnterStep(s: Sys, i: nat, mode: Mode)
    requires Inv(s) && i < |s.clients|
    requires s.clients[i].pc == (if mode.Setting? then Start else Dropping) && !Busy(s.clients, s.clients[i].thread)
    ensures var (mem, c) := Enter(s.mem, s.clients[i], mode); Inv(Sys(mem, s.required, s.clients[i := c]))
  {
    var (mem, c) := Enter(s.mem, s.clients[i], mode);
    if CanIssue(s.mem.next, s.clients[i].thread) {
      forall j | 0 <= j < |s.clients|
        ensures ClientOk(mem, s.clients[j]) && MemOk(mem)
        ensures HasId(s.clients[j]) ==> s.clients[j].pc.u != c.pc.u
      {
        DrawKeeps(s.mem, s.clients[i].thread, s.clients[j]);
      }
      DrawKeeps(s.mem, s.clients[i].thread, s.clients[i]);
      LiveUpdate(s.clients, i, c);
      Assemble(s, i, mem, c);
    } else {
      assert s.clients[i := c] == s.clients;
    }
  }

  /** A successful compare-exchange of either loop. */
  lemma ExchangeStep(s: Sys, i: nat, tag: nat, c: Client)
    requires Inv(s) && i < |s.clients| && HasId(s.clients[i]) && !HasId(c)
    requires !IsFinalized(s.mem.tag) && Settled(s.mem)
    requires TagOk(tag) && UidOf(tag) == s.clients[i].pc.u && !IsFinalized(tag)
    requires Count(tag) == Live(s.clients[i := c])
    requires ClientOk(Exchange(s.mem, tag), c) && (c.pc.Storing? || Settled(Exchange(s.mem, tag)))
    ensures Inv(Sys(Exchange(s.mem, tag), s.required, s.clients[i := c]))
  {
    var u := s.clients[i].pc.u;
    ExchangeMem(s.mem, u, tag);
    forall j | 0 <= j < |s.clients| && j != i
      ensures ClientOk(Exchange(s.mem, tag), s.clients[j]) && !s.clients[j].pc.Storing?
    {
      assert HasId(s.clients[j]) ==> s.clients[j].pc.u != u;
      ExchangeKeeps(s.mem, u, tag, s.clients[j]);
      SettledHasNoStore(s.mem, s.clients[j]);
    }
    Assemble(s, i, Exchange(s.mem, tag), c);
  }

  /** A reservation that is counted. */
  lemma ReserveStep(s: Sys, i: nat, u: nat, t: nat, current: Option<DeltaClass>, choice: Choice)
    requires Inv(s) && i < |s.clients| && s.clients[i].pc == BothRead(Setting, u, t, current) && !Wraps(s, i, choice)
    requires var pc := Step(s, i, choice).clients[i].pc; pc.Storing? || pc == Holding(true)
    ensures Inv(Step(s, i, choice))
  {
    var c := Step(s, i, choice).clients[i];
    assert ClientOk(s.mem, s.clients[i]);
    LiveUpdate(s.clients, i, c);
    LowBits(t);
    assert Count(t) < 255;
    AddTag(t, u);
    LowBits(AddInflight(SwapId(t, Id(u))));
    ExchangeStep(s, i, AddInflight(SwapId(t, Id(u))), c);
  }

  lemma SetStep(s: Sys, i: nat, u: nat, t: nat, current: Option<DeltaClass>, choice: Choice)
    requires Inv(s) && i < |s.clients| && s.clients[i].pc == BothRead(Setting, u, t, current)
    requires !Wraps(s, i, choice)
    ensures Inv(Step(s, i, choice))
  {
    var c := Step(s, i, choice).clients[i];
    assert ClientOk(s.mem, s.clients[i]);
    assert TagOk(t) && (IsFinalized(t) ==> t == s.mem.tag);
    if c.pc.Storing? || c.pc == Holding(true) {
      ReserveStep(s, i, u, t, current, choice);
    } else {
      LocalStep(s, i, c);
    }
  }

  lemma RevertStep(s: Sys, i: nat, u: nat, t: nat, current: Option<DeltaClass>, choice: Choice)
    requires Inv(s) && i < |s.clients| && s.clients[i].pc == BothRead(Reverting, u, t, current)
    ensures Inv(Step(s, i, choice))
  {
    var c := Step(s, i, choice).clients[i];
    assert ClientOk(s.mem, s.clients[i]);
    assert TagOk(t) && (IsFinalized(t) ==> t == s.mem.tag);
    if c.pc.Loop? || IsFinalized(t) {
      LocalStep(s, i, c);
    } else {
      LiveUpdate(s.clients, i, c);
      LiveAtLeast(s.clients, i, i);
      LowBits(t);
      RemoveTag(t, u);
      LowBits(RemoveInflight(SwapId(t, Id(u))));
      ExchangeStep(s, i, RemoveInflight(SwapId(t, Id(u))), c);
    }
  }

  /** While a handle is alive no store is pending. */
  lemma LiveIsSettled(s: Sys, i: nat)
    requires Inv(s) && i < |s.clients| && s.clients[i].pc == Holding(true)
    ensures Settled(s.mem)
  {
    forall j | 0 <= j < |s.clients|
      ensures !s.clients[j].pc.Storing?
    {
      LiveAtLeast(s.clients, i, j);
      assert ClientOk(s.mem, s.clients[j]);
    }
  }

  lemma CommitStep(s: Sys, i: nat, live: bool)
    requires Inv(s) && i < |s.clients| && s.clients[i].pc == Holding(live)
    ensures Inv(Step(s, i, Go))
  {
    var c := s.clients[i].(pc := Committed);
    assert ClientOk(s.mem, s.clients[i]);
    if !live || IsFinalized(s.mem.tag) {
      LocalStep(s, i, c);
    } else {
      LiveIsSettled(s, i);
      LiveAtLeast(s.clients, i, i);
      FinalizeTag(s.mem.tag);
      LowBits(s.mem.tag + 1);
      forall j | 0 <= j < |s.clients|
        ensures ClientOk(Exchange(s.mem, s.mem.tag + 1), s.clients[j])
        ensures MemOk(Exchange(s.mem, s.mem.tag + 1))
      {
        FinalizeKeeps(s.mem, s.clients[j]);
      }
      Assemble(s, i, Exchange(s.mem, s.mem.tag + 1), c);
    }
  }

  lemma StoreStep(s: Sys, i: nat, mode: Mode, choice: Choice)
    requires Inv(s) && i < |s.clients| && s.clients[i].pc == Storing(mode)
    ensures Inv(Step(s, i, choice))
  {
    var s2 := Step(s, i, choice);
    var c := s2.clients[i];
    assert ClientOk(s.mem, s.clients[i]);
    LiveUpdate(s.clients, i, c);
    forall j | 0 <= j < |s.clients| && j != i
      ensures ClientOk(s2.mem, s.clients[j])
    {
      LiveAtLeast(s.clients, j, j);
      StoreKeeps(s.mem, mode, s2.mem.ptr, s.clients[j]);
    }
    StoreMem(s.mem, s2.mem.ptr);
    Assemble(s, i, s2.mem, c);
  }

  lemma StartStep(s: Sys, i: nat, choice: Choice)
    requires Inv(s) && i < |s.clients| && (s.clients[i].pc.Start? || s.clients[i].pc.Dropping?)
    ensures Inv(Step(s, i, choice))
  {
    if !Busy(s.clients, s.clients[i].thread) {
      var c := Step(s, i, choice).clients[i];
      if c.pc.Refused? {
        LocalStep(s, i, c);
      } else {
        EnterStep(s, i, if s.clients[i].pc.Start? then Setting else Reverting);
      }
    }
  }

  /** Every step of every client keeps the slot consistent, but for the
      reservation that wraps the count. */
  lemma StepKeepsInv(s: Sys, i: nat, choice: Choice)
    requires Inv(s) && i < |s.clients| && !Wraps(s, i, choice)
    ensures Inv(Step(s, i, choice))
  {
    var c := Step(s, i, choice).clients[i];
    assert ClientOk(s.mem, s.clients[i]);
    match s.clients[i].pc
    case Start => StartStep(s, i, choice);
    case Loop(_, _) => LocalStep(s, i, c);
    case TagRead(_, _, _) => LocalStep(s, i, c);
    case BothRead(Setting, u, t, current) => SetStep(s, i, u, t, current, choice);
    case BothRead(Reverting, u, t, current) => RevertStep(s, i, u, t, current, choice);
    case Storing(mode) => StoreStep(s, i, mode, choice);
    case Holding(live) =>
      if choice.Drop? {
        LocalStep(s, i, c);
      } else {
        CommitStep(s, i, live);
      }
    case Dropping => StartStep(s, i, choice);
    case _ => assert s.clients[i := c] == s.clients;
  }
}
