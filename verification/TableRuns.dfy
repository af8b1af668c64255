/** What the concurrent table guarantees over whole runs, and the set with dead
    cells that it implements. */
module TableRuns {
  import opened StorageTypes
  import opened TableProtocol
  import Objects

  function Contents(cells: seq<Cell>): set<Entry> {
    set x | 0 <= x < |cells| && cells[x].Live? :: cells[x].entry
  }

  predicate Distinct(cells: seq<Cell>) {
    forall x, y :: 0 <= x < y < |cells| && cells[x].Live? ==> cells[x] != cells[y]
  }

  lemma {:induction false} ContentsSize(cells: seq<Cell>)
    requires Distinct(cells)
    ensures |Contents(cells)| == Lives(cells)
  {
    if cells != [] {
      var rest := cells[1..];
      assert forall x :: 0 <= x < |rest| ==> rest[x] == cells[x + 1];
      ContentsSize(rest);
      if cells[0].Live? {
        assert cells[0].entry !in Contents(rest);
        ContentsTail(cells);
        assert Contents(cells) == {cells[0].entry} + Contents(rest);
      } else {
        ContentsTail(cells);
        assert Contents(cells) == Contents(rest);
      }
    }
  }

  lemma ContentsTail(cells: seq<Cell>)
    requires cells != []
    ensures forall e :: e in Contents(cells) <==> cells[0] == Live(e) || e in Contents(cells[1..])
  {
    forall e
      ensures e in Contents(cells) <==> cells[0] == Live(e) || e in Contents(cells[1..])
    {
      if e in Contents(cells) && cells[0] != Live(e) {
        var x :| 0 <= x < |cells| && cells[x].Live? && cells[x].entry == e;
        assert cells[1..][x - 1].entry == e;
      }
      if e in Contents(cells[1..]) {
        var x :| 0 <= x < |cells[1..]| && cells[1..][x].Live? && cells[1..][x].entry == e;
        assert cells[x + 1].entry == e;
      }
    }
  }

  /** No entry is live in two cells. */
  lemma EntriesAreDistinct(s: Sys)
    requires Inv(s)
    ensures Distinct(s.cells)
  {
    forall x, y | 0 <= x < y < |s.cells| && s.cells[x].Live?
      ensures s.cells[x] != s.cells[y]
    {
      assert Owned(s.clients, x);
      var i :| 0 <= i < |s.clients| && IsOwner(s.clients[i]) && s.clients[i].pc.at == x;
      assert ClientOk(s.cells, s.clients[i]);
      LiveOnce(s, i, y);
    }
  }

  function TableOf(s: Sys): Objects.Table {
    Objects.Table(Contents(s.cells), Tombs(s.cells), |s.cells|)
  }

  /** The moment at which a call takes effect on the set, and its answer. */
  ghost predicate Refines(s: Sys, i: nat, s2: Sys)
    requires i < |s.clients| == |s2.clients|
  {
    var a, b, c, p := TableOf(s), TableOf(s2), s.clients[i], s2.clients[i].pc;
    if c.pc.InsertCas? && p.AddPending? then
      !Objects.TableRefuses(a, c.entry) && b == Objects.TableInsert(a, c.entry)
    else if !c.pc.Failed? && p.Failed? then Objects.TableRefuses(a, c.entry) && b == a
    else if c.pc.EraseCas? && p.SubPending? then c.entry in a.contents && b == Objects.TableErase(a, c.entry)
    else b == a
  }

  lemma ContentsUpdate(cells: seq<Cell>, x: nat, cell: Cell)
    requires x < |cells| && Distinct(cells)
    requires cells[x].Empty? || !cell.Live?
    ensures Contents(cells[x := cell]) ==
      Contents(cells) - (if cells[x].Live? then {cells[x].entry} else {}) + (if cell.Live? then {cell.entry} else {})
  {
    var b := cells[x := cell];
    var target := Contents(cells) - (if cells[x].Live? then {cells[x].entry} else {})
                  + (if cell.Live? then {cell.entry} else {});
    forall e | e in target
      ensures e in Contents(b)
    {
      if cell == Live(e) {
        assert b[x].entry == e;
      } else {
        var y :| 0 <= y < |cells| && cells[y].Live? && cells[y].entry == e;
        assert b[y] == cells[y];
      }
    }
    forall e | e in Contents(b)
      ensures e in target
    {
      var y :| 0 <= y < |b| && b[y].Live? && b[y].entry == e;
      if y != x {
        assert cells[y] == b[y];
      }
    }
  }

  lemma FullRefuses(s: Sys, e: Entry)
    requires Inv(s) && (Lives(s.cells) + Tombs(s.cells) >= |s.cells| || e in Contents(s.cells))
    ensures Objects.TableRefuses(TableOf(s), e)
  {
    EntriesAreDistinct(s);
    ContentsSize(s.cells);
  }

  /** A client at an empty cell inserts an entry that is not there yet. */
  lemma EntryIsAbsent(s: Sys, i: nat)
    requires Inv(s) && i < |s.clients| && s.clients[i].pc.InsertCas?
    requires s.cells[Probe(s.clients[i].home, s.clients[i].pc.k, |s.cells|)].Empty?
    ensures s.clients[i].entry !in Contents(s.cells)
  {
    forall y | 0 <= y < |s.cells| && s.cells[y].Live?
      ensures s.cells[y].entry != s.clients[i].entry
    {
      assert Owned(s.clients, y);
      var j :| 0 <= j < |s.clients| && IsOwner(s.clients[j]) && s.clients[j].pc.at == y;
      assert ClientOk(s.cells, s.clients[j]);
      EntryIsNew(s, i, j);
    }
  }

  lemma FilledCells(cells: seq<Cell>, x: nat, e: Entry)
    requires Distinct(cells) && x < |cells| && cells[x].Empty? && e !in Contents(cells)
    ensures Contents(cells[x := Live(e)]) == Contents(cells) + {e} && Tombs(cells[x := Live(e)]) == Tombs(cells)
    ensures |Contents(cells)| + Tombs(cells) < |cells|
  {
    ContentsSize(cells);
    ContentsUpdate(cells, x, Live(e));
    CellUpdate(cells, x, Live(e));
    FullHasNoEmpty(cells);
  }

  lemma FillRefines(s: Sys, i: nat, erase: bool)
    requires Inv(s) && i < |s.clients| && s.clients[i].pc.InsertCas?
    ensures Refines(s, i, Step(s, i, erase))
  {
    var c := s.clients[i];
    assert ClientOk(s.cells, c);
    if s.cells[Probe(c.home, c.pc.k, |s.cells|)].Empty? {
      EntriesAreDistinct(s);
      EntryIsAbsent(s, i);
      FilledCells(s.cells, Probe(c.home, c.pc.k, |s.cells|), c.entry);
    }
  }

  lemma BuryRefines(s: Sys, i: nat, erase: bool)
    requires Inv(s) && i < |s.clients| && s.clients[i].pc.EraseCas?
    ensures Refines(s, i, Step(s, i, erase))
  {
    var c := s.clients[i];
    assert ClientOk(s.cells, c);
    ProbeOffset(c.home, c.pc.k, |s.cells|, c.pc.at);
    EntriesAreDistinct(s);
    ContentsUpdate(s.cells, c.pc.at, Tomb);
    CellUpdate(s.cells, c.pc.at, Tomb);
    assert s.cells[c.pc.at].entry == c.entry;
  }

  lemma ProbeRefines(s: Sys, i: nat, erase: bool)
    requires Inv(s) && i < |s.clients| && s.clients[i].pc.InsertProbe?
    ensures Refines(s, i, Step(s, i, erase))
  {
    var c := s.clients[i];
    var x := Probe(c.home, c.pc.k, |s.cells|);
    assert ClientOk(s.cells, c);
    if s.cells[x] == Live(c.entry) {
      assert s.cells[x].entry in Contents(s.cells);
      FullRefuses(s, c.entry);
    } else if !s.cells[x].Empty? && c.pc.k + 1 == |s.cells| {
      forall y | 0 <= y < |s.cells|
        ensures !s.cells[y].Empty?
      {
        ProbeOffset(c.home, c.pc.k, |s.cells|, y);
      }
      FullHasNoEmpty(s.cells);
      FullRefuses(s, c.entry);
    }
  }

  /** The table implements the set: an insertion succeeds or fails exactly as
      the set with its dead cells says at that moment. */
  lemma StepRefines(s: Sys, i: nat, erase: bool)
    requires Inv(s) && i < |s.clients|
    ensures Refines(s, i, Step(s, i, erase))
  {
    var c := s.clients[i];
    assert ClientOk(s.cells, c);
    if c.pc.InsertCas? {
      FillRefines(s, i, erase);
    } else if c.pc.EraseCas? {
      BuryRefines(s, i, erase);
    } else if c.pc.InsertProbe? {
      ProbeRefines(s, i, erase);
    } else if c.pc.Idle? && (s.filled >= |s.cells| || |s.cells| == 0) {
      FullRefuses(s, c.entry);
    }
  }

  // ---- runs ----

  function RunTable(s: Sys, steps: seq<(nat, bool)>): Sys
    requires Inv(s)
    ensures Inv(RunTable(s, steps))
    decreases |steps|
  {
    if steps == [] then s
    else if steps[0].0 >= |s.clients| then RunTable(s, steps[1..])
    else
      StepKeepsInv(s, steps[0].0, steps[0].1);
      RunTable(Step(s, steps[0].0, steps[0].1), steps[1..])
  }

  /** A cleared table before the round's calls. */
  predicate Initial(s: Sys) {
    && s.filled == 0 && (forall x :: 0 <= x < |s.cells| ==> s.cells[x].Empty?)
    && (forall i :: 0 <= i < |s.clients| ==> s.clients[i].pc.Idle? && (s.clients[i].home < |s.cells| || |s.cells| == 0))
    && forall i, j :: 0 <= i < j < |s.clients| && s.clients[i].entry == s.clients[j].entry ==>
         s.clients[i].home == s.clients[j].home
  }

  lemma {:induction false} NothingYet(cells: seq<Cell>, cs: seq<Client>)
    requires (forall x :: 0 <= x < |cells| ==> cells[x].Empty?) && forall i :: 0 <= i < |cs| ==> cs[i].pc.Idle?
    ensures Lives(cells) == 0 && Tombs(cells) == 0 && Adding(cs) == 0 && Subtracting(cs) == 0
    decreases |cells| + |cs|
  {
    if cells != [] {
      NothingYet(cells[1..], cs);
    } else if cs != [] {
      NothingYet(cells, cs[1..]);
    }
  }

  lemma InitialInv(s: Sys)
    requires Initial(s)
    ensures Inv(s)
  {
    NothingYet(s.cells, s.clients);
  }

  /** Under every interleaving: no entry is live twice, no empty cell lies before
      an entry on its probe path, no erasure throws, and the listing is exactly
      what was inserted and not erased. */
  lemma TableIsSafe(s: Sys, steps: seq<(nat, bool)>)
    requires Initial(s)
    ensures Inv(s)
    ensures var r := RunTable(s, steps);
      && Distinct(r.cells)
      && (forall i :: 0 <= i < |r.clients| && IsOwner(r.clients[i]) ==>
            && r.clients[i].pc.at < |r.cells| && r.cells[r.clients[i].pc.at] == Live(r.clients[i].entry)
            && PathUsed(r.cells, r.clients[i].home, Offset(r.clients[i].home, r.clients[i].pc.at, |r.cells|)))
      && (forall i :: 0 <= i < |r.clients| ==> !r.clients[i].pc.Thrown?)
      && (forall e :: e in Contents(r.cells) <==> exists i :: OwnerOf(r.clients, i, e))
  {
    InitialInv(s);
    var r := RunTable(s, steps);
    EntriesAreDistinct(r);
    forall i | 0 <= i < |r.clients|
      ensures ClientOk(r.cells, r.clients[i])
    {
    }
    forall e | e in Contents(r.cells)
      ensures exists i :: OwnerOf(r.clients, i, e)
    {
      var x :| 0 <= x < |r.cells| && r.cells[x].Live? && r.cells[x].entry == e;
      assert Owned(r.clients, x);
      var i :| 0 <= i < |r.clients| && IsOwner(r.clients[i]) && r.clients[i].pc.at == x;
      assert OwnerOf(r.clients, i, e);
    }
    forall e, i | OwnerOf(r.clients, i, e)
      ensures e in Contents(r.cells)
    {
      assert r.cells[r.clients[i].pc.at].entry == e;
    }
  }

  /** Client `i` inserted `e` and has not erased it. */
  predicate OwnerOf(cs: seq<Client>, i: int, e: Entry) {
    0 <= i < |cs| && IsOwner(cs[i]) && cs[i].entry == e
  }
}
