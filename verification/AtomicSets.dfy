/** The table as the program updates it in place: probe loops over an array of
    cells, proved against the set with dead cells. */
module AtomicSets {
  import opened StorageTypes
  import opened HashSets
  import opened TableProtocol
  import opened TableRuns
  import Objects

  /** Where the short hash sends an entry. */
  ghost predicate HomeOk(home: Entry -> nat, capacity: nat) {
    capacity > 0 ==> forall e :: home(e) < capacity
  }

  /** No entry twice, and none behind an empty cell on its probe path. */
  ghost predicate WellPlaced(cells: seq<Cell>, home: Entry -> nat) {
    && Distinct(cells)
    && forall x :: 0 <= x < |cells| && cells[x].Live? ==>
         PathUsed(cells, home(cells[x].entry), Offset(home(cells[x].entry), x, |cells|))
  }

  /** Probes for the cell that an insertion takes, or finds that it fails. */
  method FindFree(cells: array<Cell>, home: Entry -> nat, e: Entry) returns (free: Option<nat>)
    requires cells.Length > 0 && HomeOk(home, cells.Length) && WellPlaced(cells[..], home)
    ensures free.Some? ==>
      && free.value < cells.Length && cells[free.value].Empty? && e !in Contents(cells[..])
      && WellPlaced(cells[..][free.value := Live(e)], home)
    ensures free.None? ==> e in Contents(cells[..]) || forall y :: 0 <= y < cells.Length ==> !cells[y].Empty?
  {
    var start := home(e);
    var idx, k := start, 0;
    while true
      invariant 0 <= k < cells.Length && idx == Probe(start, k, cells.Length)
      invariant PathUsed(cells[..], start, k) && PathWithout(cells[..], start, k, e)
      decreases cells.Length - k
    {
      var cell := cells[idx];
      if cell.Empty? {
        return Some(idx);
      }
      if cell == Live(e) {
        assert cells[..][idx].entry in Contents(cells[..]);
        return None;
      }
      idx, k := if idx + 1 == cells.Length then 0 else idx + 1, k + 1;
      if idx == start {
        assert forall y :: 0 <= y < cells.Length ==> cells[..][y] == cells[y];
        return None;
      }
    }
  }

  /** Probes for the cell of a stored entry; an empty cell or a full turn means
      that it is not stored, on which the program throws. */
  method FindEntry(cells: array<Cell>, home: Entry -> nat, e: Entry) returns (found: Option<nat>)
    requires cells.Length > 0 && HomeOk(home, cells.Length) && WellPlaced(cells[..], home)
    ensures found.Some? ==> found.value < cells.Length && cells[found.value] == Live(e)
    ensures found.Some? <==> e in Contents(cells[..])
  {
    var start := home(e);
    var idx, k := start, 0;
    while true
      invariant 0 <= k < cells.Length && idx == Probe(start, k, cells.Length)
      invariant PathWithout(cells[..], start, k, e)
      decreases cells.Length - k
    {
      var cell := cells[idx];
      if cell == Live(e) {
        assert cells[..][idx].entry in Contents(cells[..]);
        return Some(idx);
      }
      if cell.Empty? {
        return None;
      }
      idx, k := if idx + 1 == cells.Length then 0 else idx + 1, k + 1;
      if idx == start {
        return None;
      }
    }
  }

  class AtomicSet {
    var cells: array<Cell>
    var filled: int
    var home: Entry -> nat

    ghost predicate Valid()
      reads this, cells
    {
      && HomeOk(home, cells.Length) && WellPlaced(cells[..], home) && filled == Lives(cells[..])
    }

    ghost function View(): Objects.Table
      reads this, cells
    {
      Objects.Table(Contents(cells[..]), Tombs(cells[..]), cells.Length)
    }

    /** `capacity` cells, after the growth factor has been applied. */
    constructor (capacity: nat, home: Entry -> nat)
      requires HomeOk(home, capacity)
      ensures Valid() && fresh(cells) && View() == Objects.Table({}, 0, capacity)
    {
      this.cells := new Cell[capacity](_ => Empty);
      this.filled := 0;
      this.home := home;
      new;
      NothingYet(cells[..], []);
    }

    method TryInsert(e: Entry) returns (ok: bool)
      requires Valid()
      modifies this`filled, cells
      ensures Valid() && cells == old(cells)
      ensures ok == !Objects.TableRefuses(old(View()), e)
      ensures View() == if ok then Objects.TableInsert(old(View()), e) else old(View())
    {
      FullHasNoEmpty(cells[..]);
      ContentsSize(cells[..]);
      if filled >= cells.Length {
        return false;
      }
      var free := FindFree(cells, home, e);
      if free.None? {
        return false;
      }
      ContentsUpdate(cells[..], free.value, Live(e));
      CellUpdate(cells[..], free.value, Live(e));
      assert cells[..][free.value].Empty?;
      cells[free.value] := Live(e);
      assert cells[..] == old(cells[..])[free.value := Live(e)];
      filled := filled + 1;
      return true;
    }

    /** `false` stands for the exception that an absent entry raises. */
    method Erase(e: Entry) returns (ok: bool)
      requires Valid()
      modifies this`filled, cells
      ensures Valid() && cells == old(cells)
      ensures ok <==> e in old(View()).contents
      ensures View() == if ok then Objects.TableErase(old(View()), e) else old(View())
    {
      if cells.Length == 0 {
        return false;
      }
      var found := FindEntry(cells, home, e);
      if found.None? {
        return false;
      }
      ContentsUpdate(cells[..], found.value, Tomb);
      CellUpdate(cells[..], found.value, Tomb);
      assert cells[..][found.value] == Live(e);
      cells[found.value] := Tomb;
      assert cells[..] == old(cells[..])[found.value := Tomb];
      filled := filled - 1;
      return true;
    }

    method Clear()
      requires Valid()
      modifies this`filled, cells
      ensures Valid() && cells == old(cells) && View() == Objects.Table({}, 0, cells.Length)
    {
      for i := 0 to cells.Length
        invariant forall x :: 0 <= x < i ==> cells[x].Empty?
      {
        cells[i] := Empty;
      }
      filled := 0;
      NothingYet(cells[..], []);
    }

    /** Grows the table, which drops what it held; a smaller request is ignored.
        `rehomed` is the short hash reduced to the new number of cells. */
    method Resize(n: uint32, rehomed: Entry -> nat)
      requires Valid() && HomeOk(rehomed, Objects.Alloc(n))
      modifies this
      ensures Valid()
      ensures if Objects.Alloc(n) < old(cells.Length) then cells == old(cells) && View() == old(View())
              else fresh(cells) && View() == Objects.Table({}, 0, Objects.Resize(old(cells.Length), n))
    {
      assert n % TWO_32 == n;
      var size := n + n / 5;
      if size < cells.Length {
        return;
      }
      cells := new Cell[size](_ => Empty);
      filled := 0;
      home := rehomed;
      NothingYet(cells[..], []);
    }

    method GetHashes() returns (out: seq<Entry>)
      requires Valid()
      ensures Objects.Lists(out, View().contents)
    {
      out := [];
      for i := 0 to cells.Length
        invariant NoDuplicates(out)
        invariant forall e :: e in out <==> exists x :: 0 <= x < i && cells[x] == Live(e)
      {
        if cells[i].Live? {
          assert cells[..][i] == cells[i];
          forall e | e in out
            ensures e != cells[i].entry
          {
            var x :| 0 <= x < i && cells[x] == Live(e);
            assert cells[..][x] != cells[..][i];
          }
          out := out + [cells[i].entry];
        }
      }
      forall e
        ensures e in out <==> e in Contents(cells[..])
      {
        if e in out {
          var x :| 0 <= x < cells.Length && cells[x] == Live(e);
          assert cells[..][x].entry == e;
        }
        if e in Contents(cells[..]) {
          var x :| 0 <= x < cells.Length && cells[..][x].Live? && cells[..][x].entry == e;
          assert cells[x] == Live(e);
        }
      }
    }
  }
}
