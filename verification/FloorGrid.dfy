/** The floor grid as a mathematical object: every printer stands in at most one cell, and no two
    printers in the same one. */
module FloorGrid {
  import opened Common

  datatype Cell = Cell(floorId: Id, x: int, y: int)

  /** One wish of a floor layout: this printer, here. */
  datatype Entry = Entry(printerId: Id, x: int, y: int)

  type Placement = map<Id, Cell>

  ghost predicate Injective(grid: Placement) {
    forall p, q :: p in grid && q in grid && p != q ==> grid[p] != grid[q]
  }

  function CellOn(f: Id, e: Entry): Cell {
    Cell(f, e.x, e.y)
  }

  function Evict(grid: Placement, c: Cell): Placement {
    map q | q in grid && grid[q] != c :: grid[q]
  }

  /** addOrUpdatePrinter on a printer that exists: it leaves its old cell, whoever stands in the new one
      leaves the grid, and it moves in. */
  function PlaceOne(grid: Placement, f: Id, e: Entry): Placement {
    Evict(grid - {e.printerId}, CellOn(f, e))[e.printerId := CellOn(f, e)]
  }

  /** The insertion loop. A printer that does not exist makes the insert fail after the eviction, and the
      loop stops there. */
  datatype Progress = Progress(grid: Placement, failed: bool)

  function PlaceAll(grid: Placement, known: set<Id>, f: Id, layout: seq<Entry>, n: nat): Progress
    requires n <= |layout|
  {
    if n == 0 then Progress(grid, false) else
      var before := PlaceAll(grid, known, f, layout, n - 1);
      var e := layout[n - 1];
      if before.failed then before
      else if e.printerId in known then Progress(PlaceOne(before.grid, f, e), false)
      else Progress(Evict(before.grid, CellOn(f, e)), true)
  }

  predicate Names(layout: seq<Entry>, p: Id) {
    exists i :: 0 <= i < |layout| && layout[i].printerId == p
  }

  /** FloorService.update on the grid: insert the wishes, then drop the printers that stood on the floor
      beforehand and are not wished for. An empty list of wishes changes nothing. */
  function UpdateGrid(grid: Placement, known: set<Id>, f: Id, layout: seq<Entry>): Progress {
    if layout == [] then Progress(grid, false) else
      var inserted := PlaceAll(grid, known, f, layout, |layout|);
      if inserted.failed then inserted
      else Progress(WithoutUndesired(grid, f, layout, inserted.grid), false)
  }

  /** The clean-up after the loop: who stood on the floor beforehand and is not wished for, leaves. */
  function WithoutUndesired(grid: Placement, f: Id, layout: seq<Entry>, inserted: Placement): Placement {
    map p | p in inserted && !(p in grid && grid[p].floorId == f && !Names(layout, p)) :: inserted[p]
  }

  // ---------- what the loop leaves behind ----------

  predicate Clash(a: Entry, b: Entry) {
    a.printerId == b.printerId || (a.x == b.x && a.y == b.y)
  }

  /** Among the first n wishes, no later one shares a printer or a cell with wish i. */
  ghost predicate Survives(layout: seq<Entry>, n: nat, i: int) {
    0 <= i < n <= |layout| && forall k :: i < k < n ==> !Clash(layout[i], layout[k])
  }

  ghost predicate Stands(grid: Placement, p: Id, c: Cell) {
    p in grid && grid[p] == c
  }

  /** The state after n wishes: the survivors are in place, other wished-for printers are nowhere, and the
      rest stand where they stood, unless a wish took their cell. */
  ghost predicate AfterWishes(grid: Placement, f: Id, layout: seq<Entry>, n: nat, after: Placement)
    requires n <= |layout|
  {
    && (forall i {:trigger Survives(layout, n, i)} :: Survives(layout, n, i) ==>
            Stands(after, layout[i].printerId, CellOn(f, layout[i])))
    && (forall p :: p in after && Names(layout[..n], p) ==> HasSurvivor(layout, n, p))
    && (forall p, c :: !Names(layout[..n], p) ==>
            (Stands(after, p, c) <==> Stands(grid, p, c) && !Taken(f, layout, n, c)))
  }

  ghost predicate HasSurvivor(layout: seq<Entry>, n: nat, p: Id) {
    exists i {:trigger Survives(layout, n, i)} :: Survives(layout, n, i) && layout[i].printerId == p
  }

  /** One of the first n wishes is for cell c. */
  ghost predicate Taken(f: Id, layout: seq<Entry>, n: nat, c: Cell) {
    exists i :: 0 <= i < n <= |layout| && CellOn(f, layout[i]) == c
  }

  lemma TakenNext(f: Id, layout: seq<Entry>, n: nat, c: Cell)
    requires 0 < n <= |layout|
    ensures Taken(f, layout, n, c) <==> Taken(f, layout, n - 1, c) || CellOn(f, layout[n - 1]) == c
  {
    if Taken(f, layout, n, c) && CellOn(f, layout[n - 1]) != c {
      var i :| 0 <= i < n && CellOn(f, layout[i]) == c;
      assert i < n - 1;
    }
  }

  lemma NamesPrefix(layout: seq<Entry>, n: nat, p: Id)
    requires 0 < n <= |layout|
    ensures Names(layout[..n], p) <==> Names(layout[..n - 1], p) || layout[n - 1].printerId == p
  {
    if Names(layout[..n], p) {
      var i :| 0 <= i < n && layout[..n][i].printerId == p;
      assert i < n - 1 ==> layout[..n - 1][i].printerId == p;
    }
    if Names(layout[..n - 1], p) {
      var i :| 0 <= i < n - 1 && layout[..n - 1][i].printerId == p;
      assert layout[..n][i].printerId == p;
    }
    assert layout[..n][n - 1] == layout[n - 1];
  }

  lemma OneMoreSurvivor(grid: Placement, f: Id, layout: seq<Entry>, n: nat, after: Placement)
    requires 0 < n <= |layout| && AfterWishes(grid, f, layout, n - 1, after)
    ensures forall i :: Survives(layout, n, i) ==>
              Stands(PlaceOne(after, f, layout[n - 1]), layout[i].printerId, CellOn(f, layout[i]))
  {
    var result := PlaceOne(after, f, layout[n - 1]);
    forall i | Survives(layout, n, i) ensures Stands(result, layout[i].printerId, CellOn(f, layout[i])) {
      if i < n - 1 { assert Survives(layout, n - 1, i); assert !Clash(layout[i], layout[n - 1]); }
    }
  }

  lemma OneMoreNamed(grid: Placement, f: Id, layout: seq<Entry>, n: nat, after: Placement, p: Id)
    requires 0 < n <= |layout| && AfterWishes(grid, f, layout, n - 1, after)
    requires p in PlaceOne(after, f, layout[n - 1]) && Names(layout[..n], p)
    ensures HasSurvivor(layout, n, p)
  {
    if p == layout[n - 1].printerId {
      assert Survives(layout, n, n - 1);
    } else {
      NamesPrefix(layout, n, p);
      assert p in after && after[p] != CellOn(f, layout[n - 1]);
      var i :| Survives(layout, n - 1, i) && layout[i].printerId == p;
      assert Stands(after, layout[i].printerId, CellOn(f, layout[i]));
      SurvivesLonger(layout, n, i);
    }
  }

  lemma SurvivesLonger(layout: seq<Entry>, n: nat, i: nat)
    requires 0 < n <= |layout| && Survives(layout, n - 1, i) && !Clash(layout[i], layout[n - 1])
    ensures Survives(layout, n, i)
  {
  }

  lemma OneMoreUnnamed(grid: Placement, f: Id, layout: seq<Entry>, n: nat, after: Placement, p: Id, c: Cell)
    requires 0 < n <= |layout| && AfterWishes(grid, f, layout, n - 1, after) && !Names(layout[..n], p)
    ensures Stands(PlaceOne(after, f, layout[n - 1]), p, c) <==> Stands(grid, p, c) && !Taken(f, layout, n, c)
  {
    NamesPrefix(layout, n, p);
    TakenNext(f, layout, n, c);
    assert Stands(PlaceOne(after, f, layout[n - 1]), p, c) <==> Stands(after, p, c) && CellOn(f, layout[n - 1]) != c;
  }

  lemma {:induction false} OneMoreWish(grid: Placement, f: Id, layout: seq<Entry>, n: nat, after: Placement)
    requires 0 < n <= |layout| && AfterWishes(grid, f, layout, n - 1, after)
    ensures AfterWishes(grid, f, layout, n, PlaceOne(after, f, layout[n - 1]))
  {
    var result := PlaceOne(after, f, layout[n - 1]);
    OneMoreSurvivor(grid, f, layout, n, after);
    forall p | p in result && Names(layout[..n], p) ensures HasSurvivor(layout, n, p) {
      OneMoreNamed(grid, f, layout, n, after, p);
    }
    forall p, c | !Names(layout[..n], p)
      ensures Stands(result, p, c) <==> Stands(grid, p, c) && !Taken(f, layout, n, c)
    {
      OneMoreUnnamed(grid, f, layout, n, after, p, c);
    }
  }

  lemma {:induction false} WishesGranted(grid: Placement, known: set<Id>, f: Id, layout: seq<Entry>, n: nat)
    requires n <= |layout| && forall i :: 0 <= i < n ==> layout[i].printerId in known
    ensures !PlaceAll(grid, known, f, layout, n).failed
    ensures AfterWishes(grid, f, layout, n, PlaceAll(grid, known, f, layout, n).grid)
  {
    if n == 0 {
      NoWishes(grid, f, layout);
    } else {
      WishesGranted(grid, known, f, layout, n - 1);
      OneMoreWish(grid, f, layout, n, PlaceAll(grid, known, f, layout, n - 1).grid);
    }
  }

  lemma NoWishes(grid: Placement, f: Id, layout: seq<Entry>)
    ensures AfterWishes(grid, f, layout, 0, grid)
  {
  }

  /** Last writer wins: after an update with a non-empty list of existing printers, floor f holds exactly the
      wishes that no later wish of the list shares a printer or a cell with. Printers outside the list keep their
      place on other floors and are gone from f. */
  lemma LastWriterWins(grid: Placement, known: set<Id>, f: Id, layout: seq<Entry>)
    requires layout != [] && forall i :: 0 <= i < |layout| ==> layout[i].printerId in known
    ensures var after := UpdateGrid(grid, known, f, layout);
            && !after.failed
            && (forall p, x, y :: Stands(after.grid, p, Cell(f, x, y)) <==>
                                    exists i :: Survives(layout, |layout|, i) && layout[i] == Entry(p, x, y))
            && (forall p, c: Cell :: c.floorId != f ==>
                                       (Stands(after.grid, p, c) <==> Stands(grid, p, c) && !Names(layout, p)))
  {
    WishesGranted(grid, known, f, layout, |layout|);
    var (result, after) := (PlaceAll(grid, known, f, layout, |layout|).grid, UpdateGrid(grid, known, f, layout).grid);
    assert layout[..|layout|] == layout;
    forall p, x, y
      ensures Stands(after, p, Cell(f, x, y))
              <==> exists i :: Survives(layout, |layout|, i) && layout[i] == Entry(p, x, y)
    {
      if Stands(after, p, Cell(f, x, y)) {
        assert Stands(result, p, Cell(f, x, y));
        assert Names(layout, p);
        var i :| Survives(layout, |layout|, i) && layout[i].printerId == p;
        assert Stands(result, p, CellOn(f, layout[i]));
        assert layout[i] == Entry(p, x, y);
      }
      if exists i :: Survives(layout, |layout|, i) && layout[i] == Entry(p, x, y) {
        var i :| Survives(layout, |layout|, i) && layout[i] == Entry(p, x, y);
        assert Stands(result, layout[i].printerId, CellOn(f, layout[i]));
      }
    }
    forall p | p in result && Names(layout, p) ensures result[p].floorId == f {
      var i :| Survives(layout, |layout|, i) && layout[i].printerId == p;
      assert Stands(result, layout[i].printerId, CellOn(f, layout[i]));
    }
    forall p, c: Cell | c.floorId != f ensures Stands(after, p, c) <==> Stands(grid, p, c) && !Names(layout, p) {
      assert !Taken(f, layout, |layout|, c);
    }
  }

  /** The first wish for a printer that does not exist. */
  ghost predicate FirstUnknown(known: set<Id>, layout: seq<Entry>, n: nat) {
    n < |layout| && layout[n].printerId !in known && forall i :: 0 <= i < n ==> layout[i].printerId in known
  }

  /** Once a wish has failed, the loop is over. */
  lemma {:induction false} FailureStays(grid: Placement, known: set<Id>, f: Id, layout: seq<Entry>, i: nat, n: nat)
    requires i <= n <= |layout| && PlaceAll(grid, known, f, layout, i).failed
    ensures PlaceAll(grid, known, f, layout, n) == PlaceAll(grid, known, f, layout, i)
    decreases n
  {
    if i < n { FailureStays(grid, known, f, layout, i, n - 1); }
  }

  lemma {:induction false} FailsAtFirstUnknown(known: set<Id>, grid: Placement, f: Id, layout: seq<Entry>, k: nat)
    returns (n: nat)
    requires k <= |layout| && PlaceAll(grid, known, f, layout, k).failed
    ensures n < k && FirstUnknown(known, layout, n)
  {
    if PlaceAll(grid, known, f, layout, k - 1).failed {
      n := FailsAtFirstUnknown(known, grid, f, layout, k - 1);
    } else {
      n := k - 1;
      GrantedWereKnown(grid, known, f, layout, n);
    }
  }

  lemma {:induction false} GrantedWereKnown(grid: Placement, known: set<Id>, f: Id, layout: seq<Entry>, n: nat)
    requires n <= |layout| && !PlaceAll(grid, known, f, layout, n).failed
    ensures forall i :: 0 <= i < n ==> layout[i].printerId in known
  {
    if n > 0 { GrantedWereKnown(grid, known, f, layout, n - 1); }
  }

  /** Where the loop stops halfway: the earlier wishes that survive each other and the failed one are in place. */
  lemma StoppedHalfway(grid: Placement, known: set<Id>, f: Id, layout: seq<Entry>, n: nat, p: Id)
    requires FirstUnknown(known, layout, n) && Names(layout[..n], p)
    ensures var after := PlaceAll(grid, known, f, layout, |layout|);
            after.failed && forall c :: Stands(after.grid, p, c) <==>
                                    exists i :: i < n && Survives(layout, n + 1, i) && layout[i].printerId == p
                                      && CellOn(f, layout[i]) == c
  {
    var result := PlaceAll(grid, known, f, layout, n).grid;
    WishesGranted(grid, known, f, layout, n);
    FailureStays(grid, known, f, layout, n + 1, |layout|);
    assert PlaceAll(grid, known, f, layout, n + 1) == Progress(Evict(result, CellOn(f, layout[n])), true);
    forall c ensures Stands(Evict(result, CellOn(f, layout[n])), p, c) <==>
                     exists i :: i < n && Survives(layout, n + 1, i) && layout[i].printerId == p
                       && CellOn(f, layout[i]) == c
    {
      HalfwaySurvivor(grid, known, f, layout, n, p, result, c);
    }
  }

  lemma HalfwaySurvivor(grid: Placement, known: set<Id>, f: Id, layout: seq<Entry>, n: nat, p: Id, result: Placement,
                        c: Cell)
    requires FirstUnknown(known, layout, n) && Names(layout[..n], p) && AfterWishes(grid, f, layout, n, result)
    ensures Stands(Evict(result, CellOn(f, layout[n])), p, c) <==>
            exists i :: i < n && Survives(layout, n + 1, i) && layout[i].printerId == p && CellOn(f, layout[i]) == c
  {
    if Stands(Evict(result, CellOn(f, layout[n])), p, c) {
      var i :| Survives(layout, n, i) && layout[i].printerId == p;
      assert Stands(result, layout[i].printerId, CellOn(f, layout[i]));
      SurvivesLonger(layout, n + 1, i);
      assert i < n && Survives(layout, n + 1, i) && CellOn(f, layout[i]) == c;
    }
    if i :| i < n && Survives(layout, n + 1, i) && layout[i].printerId == p && CellOn(f, layout[i]) == c {
      assert !Clash(layout[i], layout[n]) && Survives(layout, n, i);
      assert Stands(result, layout[i].printerId, CellOn(f, layout[i]));
    }
  }

  // ---------- layouts without clashes ----------

  ghost predicate ClashFree(layout: seq<Entry>) {
    forall i, k :: 0 <= i < k < |layout| ==> !Clash(layout[i], layout[k])
  }

  /** Floor f shows exactly the layout; its printers are nowhere else; everybody else is off f and otherwise
      unmoved. */
  ghost predicate Installed(grid: Placement, f: Id, layout: seq<Entry>, after: Placement) {
    && (forall p, x, y :: Stands(after, p, Cell(f, x, y)) <==> Entry(p, x, y) in layout)
    && (forall p, c: Cell :: c.floorId != f ==> (Stands(after, p, c) <==> Stands(grid, p, c) && !Names(layout, p)))
  }

  /** A clash-free layout is installed as it stands. */
  lemma ClashFreeInstalled(grid: Placement, known: set<Id>, f: Id, layout: seq<Entry>)
    requires layout != [] && ClashFree(layout) && forall i :: 0 <= i < |layout| ==> layout[i].printerId in known
    ensures !UpdateGrid(grid, known, f, layout).failed
    ensures Installed(grid, f, layout, UpdateGrid(grid, known, f, layout).grid)
  {
    LastWriterWins(grid, known, f, layout);
    forall p, x, y
      ensures Entry(p, x, y) in layout <==> exists i :: Survives(layout, |layout|, i) && layout[i] == Entry(p, x, y)
    {
      if Entry(p, x, y) in layout {
        var i :| 0 <= i < |layout| && layout[i] == Entry(p, x, y);
        assert Survives(layout, |layout|, i);
      }
    }
  }

  lemma InstalledUnique(grid: Placement, f: Id, layout: seq<Entry>, after: Placement, result: Placement)
    requires Installed(grid, f, layout, after) && Installed(grid, f, layout, result)
    ensures after == result
  {
    forall p | p in after ensures p in result && result[p] == after[p] {
      assert Stands(after, p, Cell(after[p].floorId, after[p].x, after[p].y));
      assert Stands(result, p, Cell(after[p].floorId, after[p].x, after[p].y));
    }
    forall p | p in result ensures p in after {
      assert Stands(result, p, Cell(result[p].floorId, result[p].x, result[p].y));
      assert Stands(after, p, Cell(result[p].floorId, result[p].x, result[p].y));
    }
  }

  lemma SameEntriesSameNames(layout: seq<Entry>, other: seq<Entry>, p: Id)
    requires forall e :: e in layout ==> e in other
    ensures Names(layout, p) ==> Names(other, p)
  {
    if Names(layout, p) {
      var i :| 0 <= i < |layout| && layout[i].printerId == p;
      assert layout[i] in other;
      var k :| 0 <= k < |other| && other[k] == layout[i];
    }
  }

  /** The order of a clash-free layout does not matter. */
  lemma LayoutOrderIrrelevant(grid: Placement, known: set<Id>, f: Id, layout: seq<Entry>, other: seq<Entry>)
    requires ClashFree(layout) && ClashFree(other) && forall e :: e in layout <==> e in other
    requires forall i :: 0 <= i < |layout| ==> layout[i].printerId in known
    ensures UpdateGrid(grid, known, f, layout) == UpdateGrid(grid, known, f, other)
  {
    if layout != [] { assert layout[0] in other; }
    if other != [] { assert other[0] in layout; }
    if layout != [] && other != [] {
      forall i | 0 <= i < |other| ensures other[i].printerId in known { assert other[i] in layout; }
      ClashFreeInstalled(grid, known, f, layout);
      ClashFreeInstalled(grid, known, f, other);
      forall p ensures Names(layout, p) <==> Names(other, p) {
        SameEntriesSameNames(layout, other, p);
        SameEntriesSameNames(other, layout, p);
      }
      assert Installed(grid, f, layout, UpdateGrid(grid, known, f, other).grid);
      InstalledUnique(grid, f, layout, UpdateGrid(grid, known, f, layout).grid, UpdateGrid(grid, known, f, other).grid);
    }
  }

  /** Installing what is already there, and nothing else is, changes nothing. */
  lemma ReinstallIsIdentity(grid: Placement, known: set<Id>, f: Id, layout: seq<Entry>)
    requires ClashFree(layout) && forall i :: 0 <= i < |layout| ==> layout[i].printerId in known
    requires layout == [] || forall p, x, y :: Stands(grid, p, Cell(f, x, y)) <==> Entry(p, x, y) in layout
    ensures UpdateGrid(grid, known, f, layout) == Progress(grid, false)
  {
    if layout != [] {
      ClashFreeInstalled(grid, known, f, layout);
      forall p | Names(layout, p) ensures p in grid && grid[p].floorId == f {
        var i :| 0 <= i < |layout| && layout[i].printerId == p;
        assert Entry(p, layout[i].x, layout[i].y) in layout;
        assert Stands(grid, p, Cell(f, layout[i].x, layout[i].y));
      }
      assert Installed(grid, f, layout, grid);
      InstalledUnique(grid, f, layout, grid, UpdateGrid(grid, known, f, layout).grid);
    }
  }

  // ---------- the constraints hold throughout ----------

  lemma PlaceOneInjective(grid: Placement, f: Id, e: Entry)
    requires Injective(grid)
    ensures Injective(PlaceOne(grid, f, e)) && Injective(Evict(grid, CellOn(f, e)))
  {
  }

  lemma {:induction false} PlaceAllInjective(grid: Placement, known: set<Id>, f: Id, layout: seq<Entry>, n: nat)
    requires n <= |layout| && Injective(grid)
    ensures Injective(PlaceAll(grid, known, f, layout, n).grid)
  {
    if n > 0 {
      PlaceAllInjective(grid, known, f, layout, n - 1);
      PlaceOneInjective(PlaceAll(grid, known, f, layout, n - 1).grid, f, layout[n - 1]);
    }
  }

  lemma UpdateInjective(grid: Placement, known: set<Id>, f: Id, layout: seq<Entry>)
    requires Injective(grid)
    ensures Injective(UpdateGrid(grid, known, f, layout).grid)
  {
    PlaceAllInjective(grid, known, f, layout, |layout|);
  }
}
