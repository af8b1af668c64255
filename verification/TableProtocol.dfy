/** The concurrent open-addressing table at the granularity of its atomic
    instructions. Each client inserts one entry and, if that succeeded, may
    later erase it; a step is one load, compare-exchange or counter update. */
module TableProtocol {
  import opened StorageTypes

  datatype Cell = Empty | Tomb | Live(entry: Entry)

  /** `k` counts probed cells from the entry's home; `at` is the cell that the
      client's entry went to, which the program does not remember. */
  datatype Pc =
    | Idle
    | InsertProbe(k: nat)       // about to load a cell
    | InsertCas(k: nat)         // found it empty
    | AddPending(at: nat)       // stored, the filled count not yet raised
    | Failed
    | Inserted(at: nat)
    | EraseProbe(k: nat, at: nat)
    | EraseCas(k: nat, at: nat) // found the entry
    | SubPending                // erased, the filled count not yet lowered
    | Erased
    | Thrown

  datatype Client = Client(entry: Entry, home: nat, pc: Pc)

  datatype Sys = Sys(cells: seq<Cell>, filled: int, clients: seq<Client>)

  /** The cell probed after `k` others. */
  function Probe(home: nat, k: nat, capacity: nat): int {
    if home + k < capacity then home + k else home + k - capacity
  }

  /** How many cells are probed before reaching `x`. */
  function Offset(home: nat, x: int, capacity: nat): int {
    if x >= home then x - home else x + capacity - home
  }

  function StepInsert(cells: seq<Cell>, c: Client, k: nat): Client
    requires c.home < |cells| && k < |cells|
  {
    var cell := cells[Probe(c.home, k, |cells|)];
    if cell.Empty? then c.(pc := InsertCas(k))
    else if cell == Live(c.entry) then c.(pc := Failed)
    else if k + 1 == |cells| then c.(pc := Failed)
    else c.(pc := InsertProbe(k + 1))
  }

  function StepErase(cells: seq<Cell>, c: Client, k: nat, at: nat): Client
    requires c.home < |cells| && k < |cells|
  {
    var cell := cells[Probe(c.home, k, |cells|)];
    if cell == Live(c.entry) then c.(pc := EraseCas(k, at))
    else if cell.Empty? then c.(pc := Thrown)
    else if k + 1 == |cells| then c.(pc := Thrown)
    else c.(pc := EraseProbe(k + 1, at))
  }

  /** The client's next atomic operation; `erase` starts the erasure of an
      inserted entry. */
  function Next(cells: seq<Cell>, filled: int, c: Client, erase: bool): (seq<Cell>, int, Client)
    requires c.home < |cells| || |cells| == 0
    requires c.pc.InsertProbe? || c.pc.InsertCas? || c.pc.EraseProbe? || c.pc.EraseCas? ==> c.pc.k < |cells|
  {
    match c.pc
    case Idle =>
      (cells, filled, c.(pc := if filled >= |cells| || |cells| == 0 then Failed else InsertProbe(0)))
    case InsertProbe(k) => (cells, filled, StepInsert(cells, c, k))
    case InsertCas(k) =>
      var x := Probe(c.home, k, |cells|);
      if cells[x].Empty? then (cells[x := Live(c.entry)], filled, c.(pc := AddPending(x)))
      else (cells, filled, c.(pc := InsertProbe(k)))
    case AddPending(at) => (cells, filled + 1, c.(pc := Inserted(at)))
    case Inserted(at) => (cells, filled, if erase then c.(pc := EraseProbe(0, at)) else c)
    case EraseProbe(k, at) => (cells, filled, StepErase(cells, c, k, at))
    case EraseCas(k, at) =>
      var x := Probe(c.home, k, |cells|);
      if cells[x] == Live(c.entry) then (cells[x := Tomb], filled, c.(pc := SubPending))
      else (cells, filled, c.(pc := EraseProbe(k, at)))
    case SubPending => (cells, filled - 1, c.(pc := Erased))
    case _ => (cells, filled, c)
  }

  // ---- counting ----

  function Lives(cells: seq<Cell>): nat {
    if cells == [] then 0 else (if cells[0].Live? then 1 else 0) + Lives(cells[1..])
  }

  function Tombs(cells: seq<Cell>): nat {
    if cells == [] then 0 else (if cells[0].Tomb? then 1 else 0) + Tombs(cells[1..])
  }

  function Adding(cs: seq<Client>): nat {
    if cs == [] then 0 else (if cs[0].pc.AddPending? then 1 else 0) + Adding(cs[1..])
  }

  function Subtracting(cs: seq<Client>): nat {
    if cs == [] then 0 else (if cs[0].pc.SubPending? then 1 else 0) + Subtracting(cs[1..])
  }

  lemma {:induction false} CellUpdate(cells: seq<Cell>, x: nat, cell: Cell)
    requires x < |cells|
    ensures Lives(cells[x := cell]) == Lives(cells) - (if cells[x].Live? then 1 else 0) + (if cell.Live? then 1 else 0)
    ensures Tombs(cells[x := cell]) == Tombs(cells) - (if cells[x].Tomb? then 1 else 0) + (if cell.Tomb? then 1 else 0)
  {
    if x == 0 {
      assert cells[0 := cell] == [cell] + cells[1..];
    } else {
      CellUpdate(cells[1..], x - 1, cell);
      assert cells[x := cell] == [cells[0]] + cells[1..][x - 1 := cell];
    }
  }

  lemma {:induction false} ClientUpdate(cs: seq<Client>, i: nat, c: Client)
    requires i < |cs|
    ensures Adding(cs[i := c]) ==
      Adding(cs) - (if cs[i].pc.AddPending? then 1 else 0) + (if c.pc.AddPending? then 1 else 0)
    ensures Subtracting(cs[i := c]) ==
      Subtracting(cs) - (if cs[i].pc.SubPending? then 1 else 0) + (if c.pc.SubPending? then 1 else 0)
  {
    if i == 0 {
      assert cs[0 := c] == [c] + cs[1..];
    } else {
      ClientUpdate(cs[1..], i - 1, c);
      assert cs[i := c] == [cs[0]] + cs[1..][i - 1 := c];
    }
  }

  lemma {:induction false} FullHasNoEmpty(cells: seq<Cell>)
    ensures Lives(cells) + Tombs(cells) <= |cells|
    ensures Lives(cells) + Tombs(cells) == |cells| <==> forall x :: 0 <= x < |cells| ==> !cells[x].Empty?
  {
    if cells != [] {
      FullHasNoEmpty(cells[1..]);
      if forall x :: 0 <= x < |cells| ==> !cells[x].Empty? {
        assert !cells[0].Empty?;
        assert forall x :: 0 <= x < |cells[1..]| ==> cells[1..][x] == cells[x + 1];
      } else {
        var x :| 0 <= x < |cells| && cells[x].Empty?;
        if x > 0 {
          assert cells[1..][x - 1].Empty?;
        }
      }
    }
  }

  // ---- the invariant ----

  predicate IsOwner(c: Client) { c.pc.AddPending? || c.pc.Inserted? || c.pc.EraseProbe? || c.pc.EraseCas? }

  predicate Probing(c: Client) { c.pc.InsertProbe? || c.pc.InsertCas? }

  /** The first `k` cells on the way from `home` are in use. */
  predicate PathUsed(cells: seq<Cell>, home: nat, k: int) {
    forall y :: 0 <= y < |cells| && Offset(home, y, |cells|) < k ==> !cells[y].Empty?
  }

  predicate PathWithout(cells: seq<Cell>, home: nat, k: int, e: Entry) {
    forall y :: 0 <= y < |cells| && Offset(home, y, |cells|) < k ==> cells[y] != Live(e)
  }

  predicate ClientOk(cells: seq<Cell>, c: Client) {
    && (c.home < |cells| || |cells| == 0)
    && (Probing(c) ==> c.pc.k < |cells| && PathUsed(cells, c.home, c.pc.k) && PathWithout(cells, c.home, c.pc.k, c.entry))
    && (IsOwner(c) ==>
          && c.pc.at < |cells| && cells[c.pc.at] == Live(c.entry)
          && PathUsed(cells, c.home, Offset(c.home, c.pc.at, |cells|)))
    && (c.pc.EraseProbe? || c.pc.EraseCas? ==> c.pc.k <= Offset(c.home, c.pc.at, |cells|))
    && (c.pc.EraseCas? ==> c.pc.k == Offset(c.home, c.pc.at, |cells|))
    && !c.pc.Thrown?
  }

  /** Owners have different entries; an entry has one home. */
  ghost predicate Apart(cs: seq<Client>) {
    forall i, j :: 0 <= i < j < |cs| ==>
      && (IsOwner(cs[i]) && IsOwner(cs[j]) ==> cs[i].entry != cs[j].entry)
      && (cs[i].entry == cs[j].entry ==> cs[i].home == cs[j].home)
  }

  ghost predicate Owned(cs: seq<Client>, x: int) {
    exists i :: 0 <= i < |cs| && IsOwner(cs[i]) && cs[i].pc.at == x
  }

  ghost predicate Inv(s: Sys) {
    && (forall i :: 0 <= i < |s.clients| ==> ClientOk(s.cells, s.clients[i]))
    && Apart(s.clients)
    && (forall x :: 0 <= x < |s.cells| && s.cells[x].Live? ==> Owned(s.clients, x))
    && s.filled == Lives(s.cells) - Adding(s.clients) + Subtracting(s.clients)
    && Tombs(s.cells) >= Subtracting(s.clients)
  }

  function Step(s: Sys, i: nat, erase: bool): Sys
    requires i < |s.clients| && ClientOk(s.cells, s.clients[i])
  {
    var (cells, filled, c) := Next(s.cells, s.filled, s.clients[i], erase);
    Sys(cells, filled, s.clients[i := c])
  }

  // ---- what a step leaves intact ----

  lemma ProbeOffset(home: nat, k: nat, capacity: nat, y: int)
    requires home < capacity && k < capacity && 0 <= y < capacity
    ensures 0 <= Probe(home, k, capacity) < capacity
    ensures Offset(home, y, capacity) == k <==> y == Probe(home, k, capacity)
  {
  }

  /** Filling an empty cell disturbs nobody: whoever passed it would have seen
      it in use. */
  lemma FillKeeps(cells: seq<Cell>, x: nat, e: Entry, d: Client)
    requires x < |cells| && cells[x].Empty? && ClientOk(cells, d)
    ensures ClientOk(cells[x := Live(e)], d)
  {
  }

  lemma BuryKeeps(cells: seq<Cell>, x: nat, d: Client)
    requires x < |cells| && cells[x].Live? && ClientOk(cells, d)
    requires IsOwner(d) ==> cells[x] != Live(d.entry)
    ensures ClientOk(cells[x := Tomb], d)
  {
  }

  /** An owner's entry is live in its own cell and nowhere else. */
  lemma LiveOnce(s: Sys, i: nat, y: nat)
    requires Inv(s) && i < |s.clients| && IsOwner(s.clients[i]) && y < |s.cells|
    ensures s.cells[y] == Live(s.clients[i].entry) ==> y == s.clients[i].pc.at
  {
    if s.cells[y].Live? {
      assert Owned(s.clients, y);
      var j :| 0 <= j < |s.clients| && IsOwner(s.clients[j]) && s.clients[j].pc.at == y;
      assert ClientOk(s.cells, s.clients[j]);
      assert j == i || s.clients[j].entry != s.clients[i].entry;
    }
  }

  /** A client that reached an empty cell inserts an entry nobody holds. */
  lemma EntryIsNew(s: Sys, i: nat, j: nat)
    requires Inv(s) && i < |s.clients| && j < |s.clients| && s.clients[i].pc.InsertCas?
    requires s.cells[Probe(s.clients[i].home, s.clients[i].pc.k, |s.cells|)].Empty?
    ensures IsOwner(s.clients[j]) ==> s.clients[j].entry != s.clients[i].entry
  {
    var c, d := s.clients[i], s.clients[j];
    assert ClientOk(s.cells, c) && ClientOk(s.cells, d);
    ProbeOffset(c.home, c.pc.k, |s.cells|, Probe(c.home, c.pc.k, |s.cells|));
    assert i != j && c.entry == d.entry ==> c.home == d.home;
  }

  lemma OwnedUpdate(cs: seq<Client>, i: nat, c: Client, x: int)
    requires i < |cs| && Owned(cs, x)
    requires IsOwner(cs[i]) && cs[i].pc.at == x ==> IsOwner(c) && c.pc.at == x
    ensures Owned(cs[i := c], x)
  {
    var j :| 0 <= j < |cs| && IsOwner(cs[j]) && cs[j].pc.at == x;
    assert IsOwner(cs[i := c][j]) && cs[i := c][j].pc.at == x;
  }

  /** A step that changes no cell. */
  lemma QuietStep(s: Sys, i: nat, filled: int, c: Client)
    requires Inv(s) && i < |s.clients| && ClientOk(s.cells, c)
    requires c.entry == s.clients[i].entry && c.home == s.clients[i].home
    requires IsOwner(c) <==> IsOwner(s.clients[i])
    requires IsOwner(c) ==> c.pc.at == s.clients[i].pc.at
    requires filled == s.filled + (if s.clients[i].pc.AddPending? then 1 else 0) - (if s.clients[i].pc.SubPending? then 1 else 0)
    requires !c.pc.AddPending? && !c.pc.SubPending?
    ensures Inv(Sys(s.cells, filled, s.clients[i := c]))
  {
    ClientUpdate(s.clients, i, c);
    forall x | 0 <= x < |s.cells| && s.cells[x].Live?
      ensures Owned(s.clients[i := c], x)
    {
      OwnedUpdate(s.clients, i, c, x);
    }
  }

  lemma ProbeStep(s: Sys, i: nat, erase: bool)
    requires Inv(s) && i < |s.clients| && s.clients[i].pc.InsertProbe?
    ensures Inv(Step(s, i, erase))
  {
    var c := s.clients[i];
    assert ClientOk(s.cells, c);
    forall y | 0 <= y < |s.cells|
      ensures Offset(c.home, y, |s.cells|) < c.pc.k + 1 ==>
        Offset(c.home, y, |s.cells|) < c.pc.k || y == Probe(c.home, c.pc.k, |s.cells|)
    {
      ProbeOffset(c.home, c.pc.k, |s.cells|, y);
    }
    QuietStep(s, i, s.filled, StepInsert(s.cells, c, c.pc.k));
  }

  /** Live cells stay owned when the client moves on with the cell it changes. */
  lemma OwnersStay(cells: seq<Cell>, cs: seq<Client>, i: nat, c: Client, x: nat, cells2: seq<Cell>)
    requires i < |cs| && x < |cells| == |cells2| && cells2 == cells[x := cells2[x]]
    requires forall y :: 0 <= y < |cells| && cells[y].Live? ==> Owned(cs, y)
    requires IsOwner(cs[i]) ==> cs[i].pc.at == x
    requires cells2[x].Live? ==> IsOwner(c) && c.pc.at == x
    ensures forall y :: 0 <= y < |cells2| && cells2[y].Live? ==> Owned(cs[i := c], y)
  {
    forall y | 0 <= y < |cells2| && cells2[y].Live?
      ensures Owned(cs[i := c], y)
    {
      if y == x {
        assert cs[i := c][i] == c;
      } else {
        OwnedUpdate(cs, i, c, y);
      }
    }
  }

  lemma OthersAfterFill(s: Sys, i: nat)
    requires Inv(s) && i < |s.clients| && s.clients[i].pc.InsertCas?
    requires s.cells[Probe(s.clients[i].home, s.clients[i].pc.k, |s.cells|)].Empty?
    ensures var c := s.clients[i];
      forall j :: 0 <= j < |s.clients| && j != i ==>
        && ClientOk(s.cells[Probe(c.home, c.pc.k, |s.cells|) := Live(c.entry)], s.clients[j])
        && (IsOwner(s.clients[j]) ==> s.clients[j].entry != c.entry)
  {
    var c := s.clients[i];
    forall j | 0 <= j < |s.clients| && j != i
      ensures ClientOk(s.cells[Probe(c.home, c.pc.k, |s.cells|) := Live(c.entry)], s.clients[j])
      ensures IsOwner(s.clients[j]) ==> s.clients[j].entry != c.entry
    {
      assert ClientOk(s.cells, s.clients[j]);
      FillKeeps(s.cells, Probe(c.home, c.pc.k, |s.cells|), c.entry, s.clients[j]);
      EntryIsNew(s, i, j);
    }
  }

  lemma FillStep(s: Sys, i: nat, erase: bool)
    requires Inv(s) && i < |s.clients| && s.clients[i].pc.InsertCas?
    requires s.cells[Probe(s.clients[i].home, s.clients[i].pc.k, |s.cells|)].Empty?
    ensures Inv(Step(s, i, erase))
  {
    var c, s2 := s.clients[i], Step(s, i, erase);
    var x := Probe(c.home, c.pc.k, |s.cells|);
    assert ClientOk(s.cells, c);
    ProbeOffset(c.home, c.pc.k, |s.cells|, x);
    CellUpdate(s.cells, x, Live(c.entry));
    ClientUpdate(s.clients, i, s2.clients[i]);
    OthersAfterFill(s, i);
    OwnersStay(s.cells, s.clients, i, s2.clients[i], x, s2.cells);
  }

  lemma EraseProbeStep(s: Sys, i: nat, erase: bool)
    requires Inv(s) && i < |s.clients| && s.clients[i].pc.EraseProbe?
    ensures Inv(Step(s, i, erase))
  {
    var c := s.clients[i];
    assert ClientOk(s.cells, c);
    ProbeOffset(c.home, c.pc.k, |s.cells|, Probe(c.home, c.pc.k, |s.cells|));
    ProbeOffset(c.home, c.pc.k, |s.cells|, c.pc.at);
    LiveOnce(s, i, Probe(c.home, c.pc.k, |s.cells|));
    QuietStep(s, i, s.filled, StepErase(s.cells, c, c.pc.k, c.pc.at));
  }

  lemma OthersAfterBury(s: Sys, i: nat)
    requires Inv(s) && i < |s.clients| && s.clients[i].pc.EraseCas?
    ensures forall j :: 0 <= j < |s.clients| && j != i ==> ClientOk(s.cells[s.clients[i].pc.at := Tomb], s.clients[j])
  {
    var c := s.clients[i];
    assert ClientOk(s.cells, c);
    forall j | 0 <= j < |s.clients| && j != i
      ensures ClientOk(s.cells[c.pc.at := Tomb], s.clients[j])
    {
      assert ClientOk(s.cells, s.clients[j]);
      assert IsOwner(s.clients[j]) ==> s.clients[j].entry != c.entry;
      BuryKeeps(s.cells, c.pc.at, s.clients[j]);
    }
  }

  lemma BuryStep(s: Sys, i: nat, erase: bool)
    requires Inv(s) && i < |s.clients| && s.clients[i].pc.EraseCas?
    ensures Inv(Step(s, i, erase))
  {
    var c, s2 := s.clients[i], Step(s, i, erase);
    var x := Probe(c.home, c.pc.k, |s.cells|);
    assert ClientOk(s.cells, c);
    ProbeOffset(c.home, c.pc.k, |s.cells|, c.pc.at);
    CellUpdate(s.cells, x, Tomb);
    ClientUpdate(s.clients, i, s2.clients[i]);
    OthersAfterBury(s, i);
    OwnersStay(s.cells, s.clients, i, s2.clients[i], x, s2.cells);
  }

  lemma CasStep(s: Sys, i: nat, erase: bool)
    requires Inv(s) && i < |s.clients| && s.clients[i].pc.InsertCas?
    ensures Inv(Step(s, i, erase))
  {
    var c := s.clients[i];
    assert ClientOk(s.cells, c);
    if s.cells[Probe(c.home, c.pc.k, |s.cells|)].Empty? {
      FillStep(s, i, erase);
    } else {
      QuietStep(s, i, s.filled, Step(s, i, erase).clients[i]);
    }
  }

  /** Every step of every client keeps the table consistent; in particular no
      erasure of a live entry ever throws. */
  lemma StepKeepsInv(s: Sys, i: nat, erase: bool)
    requires Inv(s) && i < |s.clients|
    ensures Inv(Step(s, i, erase))
  {
    var c, s2 := s.clients[i], Step(s, i, erase);
    assert ClientOk(s.cells, c);
    match c.pc
    case InsertProbe(_) => ProbeStep(s, i, erase);
    case InsertCas(_) => CasStep(s, i, erase);
    case EraseProbe(_, _) => EraseProbeStep(s, i, erase);
    case EraseCas(_, _) => BuryStep(s, i, erase);
    case Thrown =>
    case _ => QuietStep(s, i, s2.filled, s2.clients[i]);
  }
}
