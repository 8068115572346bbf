/** FloorService and FloorPositionService over the floor and floor_position tables. */
module FloorServiceModel {
  import opened Common
  import opened FloorGrid
  import opened FloorDb

  /** A row of the floor_position table. */
  datatype Position = Position(printerId: Id, floorId: Id, x: int, y: int)

  function CellOf(pos: Position): Cell {
    Cell(pos.floorId, pos.x, pos.y)
  }

  /** The position rows stand for the grid: one row for every placed printer. */
  ghost predicate Rows(positions: map<Id, Position>, next: Id, grid: Placement) {
    && (forall r :: r in positions ==> r < next && Stands(grid, positions[r].printerId, CellOf(positions[r])))
    && (forall r, s :: r in positions && s in positions && positions[r].printerId == positions[s].printerId ==> r == s)
    && (forall p :: p in grid ==> HasRow(positions, p))
  }

  ghost predicate HasRow(positions: map<Id, Position>, p: Id) {
    exists r :: r in positions && positions[r].printerId == p
  }

  lemma DeleteRows(positions: map<Id, Position>, next: Id, grid: Placement, ids: set<Id>, gone: set<Id>)
    requires Rows(positions, next, grid)
    requires forall r :: r in positions ==> (r in ids <==> positions[r].printerId in gone)
    ensures Rows(positions - ids, next, grid - gone)
  {
    forall p | p in grid - gone ensures HasRow(positions - ids, p) {
      assert HasRow(positions, p);
      var r :| r in positions && positions[r].printerId == p;
      assert r in positions - ids;
    }
  }

  lemma InsertRow(positions: map<Id, Position>, next: Id, grid: Placement, pos: Position)
    requires Rows(positions, next, grid) && pos.printerId !in grid
    ensures Rows(positions[next := pos], next + 1, grid[pos.printerId := CellOf(pos)])
  {
    var after := positions[next := pos];
    forall p | p in grid[pos.printerId := CellOf(pos)] ensures HasRow(after, p) {
      if p == pos.printerId {
        assert after[next].printerId == p;
      } else {
        assert HasRow(positions, p);
        var r :| r in positions && positions[r].printerId == p;
        assert r in after && after[r].printerId == p;
      }
    }
  }

  /** Rows are never changed in place: each is an old one, or new and for a printer wished for. */
  ghost predicate OnlyReplaced(before: map<Id, Position>, firstNew: Id, layout: seq<Entry>, after: map<Id, Position>) {
    forall r :: r in after ==>
      if r < firstNew then r in before && after[r] == before[r] else Names(layout, after[r].printerId)
  }

  lemma StillOnlyReplaced(before: map<Id, Position>, firstNew: Id, layout: seq<Entry>, i: nat,
                          rows: map<Id, Position>, after: map<Id, Position>)
    requires i < |layout| && OnlyReplaced(before, firstNew, layout[..i], rows)
    requires forall r :: r in after ==>
               (r in rows && after[r] == rows[r]) || (r >= firstNew && after[r].printerId == layout[i].printerId)
    ensures OnlyReplaced(before, firstNew, layout[..i + 1], after)
  {
    forall r | r in after && r >= firstNew ensures Names(layout[..i + 1], after[r].printerId) {
      NamesPrefix(layout, i + 1, after[r].printerId);
    }
  }

  /** The rows of floor f in a snapshot whose printers are not wished for. */
  function Undesired(snapshot: map<Id, Position>, f: Id, layout: seq<Entry>): set<Id> {
    set r | r in snapshot && snapshot[r].floorId == f && !Names(layout, snapshot[r].printerId)
  }

  /** Deleting the stale snapshot's undesired rows removes exactly the undesired printers that still stand. */
  lemma CleanUp(before: map<Id, Position>, firstNew: Id, start: Placement, f: Id, layout: seq<Entry>,
                positions: map<Id, Position>, next: Id, grid: Placement)
    requires Rows(before, firstNew, start) && Rows(positions, next, grid)
             && OnlyReplaced(before, firstNew, layout, positions)
    ensures Rows(positions - Undesired(before, f, layout), next, WithoutUndesired(start, f, layout, grid))
  {
    var dropped := set p | p in grid && p in start && start[p].floorId == f && !Names(layout, p);
    forall r | r in positions ensures r in Undesired(before, f, layout) <==> positions[r].printerId in dropped {
      var p := positions[r].printerId;
      assert Stands(grid, p, CellOf(positions[r]));
      if p in start { assert HasRow(before, p); }
    }
    DeleteRows(positions, next, grid, Undesired(before, f, layout), dropped);
    assert grid - dropped == WithoutUndesired(start, f, layout, grid);
  }

  function RowsOn(positions: map<Id, Position>, f: Id): set<Id> {
    set r | r in positions && positions[r].floorId == f
  }

  lemma DropFloorRows(positions: map<Id, Position>, next: Id, grid: Placement, f: Id)
    requires Rows(positions, next, grid)
    ensures Rows(positions - RowsOn(positions, f), next, OffFloor(grid, f))
  {
    var gone := set p | p in grid && grid[p].floorId == f;
    assert forall r :: r in positions ==> Stands(grid, positions[r].printerId, CellOf(positions[r]));
    DeleteRows(positions, next, grid, RowsOn(positions, f), gone);
    assert grid - gone == OffFloor(grid, f);
  }

  lemma ConsistentWithFewer(db: Db, grid: Placement)
    requires Consistent(db) && forall p :: p in grid ==> p in db.grid && grid[p] == db.grid[p]
    ensures Consistent(db.(grid := grid))
  {
  }

  lemma ConsistentWithOneMore(db: Db, p: Id, c: Cell)
    requires Consistent(db) && p !in db.grid && p in db.printers && c.floorId in db.floors
             && ValidEntry(Entry(p, c.x, c.y))
    requires forall q :: q in db.grid ==> db.grid[q] != c
    ensures Consistent(db.(grid := db.grid[p := c]))
  {
  }

  /** The rows of a floor, listed once each, are its entries. */
  lemma RowsAreEntries(rows: map<Id, Position>, next: Id, grid: Placement, f: Id, ids: seq<Id>, entries: seq<Entry>)
    requires Rows(rows, next, grid) && Injective(grid) && NoDuplicates(ids) && |entries| == |ids|
    requires forall r :: r in ids <==> r in RowsOn(rows, f)
    requires forall i :: 0 <= i < |ids| ==>
               ids[i] in rows && entries[i] == Entry(rows[ids[i]].printerId, rows[ids[i]].x, rows[ids[i]].y)
    ensures EntriesOf(grid, f, entries)
  {
    forall i | 0 <= i < |entries| ensures Stands(grid, entries[i].printerId, CellOn(f, entries[i])) {
      assert ids[i] in ids;
    }
    forall i, k | 0 <= i < k < |entries| ensures !Clash(entries[i], entries[k]) {
      assert Stands(grid, entries[i].printerId, CellOn(f, entries[i]))
             && Stands(grid, entries[k].printerId, CellOn(f, entries[k]));
    }
    forall p, x, y | Stands(grid, p, Cell(f, x, y)) ensures Entry(p, x, y) in entries {
      assert HasRow(rows, p);
      var r :| r in rows && rows[r].printerId == p;
      assert Stands(grid, p, CellOf(rows[r])) && r in ids;
      var i :| 0 <= i < |ids| && ids[i] == r;
      assert entries[i] == Entry(p, x, y);
    }
  }

  class FloorService {
    var printers: set<Id>
    var floors: map<Id, Floor>
    var nextFloor: Id
    var positions: map<Id, Position>
    var nextPosition: Id
    /** What the position rows mean. */
    ghost var grid: Placement

    ghost predicate Valid()
      reads this
    {
      && Rows(positions, nextPosition, grid)
      && Consistent(Db())
    }

    ghost function Db(): Db
      reads this
    {
      FloorDb.Db(printers, floors, grid, nextFloor)
    }

    constructor (printers: set<Id>)
      ensures Valid() && Db() == FloorDb.Db(printers, map[], map[], 1)
    {
      this.printers, floors, nextFloor, positions, nextPosition, grid := printers, map[], 1, map[], 1, map[];
    }

    // ---------- FloorPositionService ----------

    method FindPrinterPosition(printerId: Id) returns (found: Option<Id>)
      requires Valid()
      ensures found.Some? <==> printerId in grid
      ensures found.Some? ==> found.value in positions && positions[found.value].printerId == printerId
    {
      found := None;
      assert printerId in grid ==> HasRow(positions, printerId);
      if r :| r in positions && positions[r].printerId == printerId {
        found := Some(r);
      }
    }

    method FindPosition(floorId: Id, x: int, y: int) returns (found: Option<Id>)
      requires Valid()
      ensures found.None? <==> forall p :: p in grid ==> grid[p] != Cell(floorId, x, y)
      ensures found.Some? ==> found.value in positions && CellOf(positions[found.value]) == Cell(floorId, x, y)
    {
      found := None;
      assert forall p :: p in grid ==> HasRow(positions, p);
      if r :| r in positions && positions[r].floorId == floorId && positions[r].x == x && positions[r].y == y {
        found := Some(r);
        assert Stands(grid, positions[r].printerId, Cell(floorId, x, y));
      }
    }

    method DeletePosition(id: Id)
      requires Valid() && id in positions
      modifies this
      ensures Valid() && Db() == old(Db()).(grid := old(grid) - {old(positions)[id].printerId})
      ensures positions == old(positions) - {id} && nextPosition == old(nextPosition)
    {
      ghost var db := Db().(grid := grid - {positions[id].printerId});
      DeleteRows(positions, nextPosition, grid, {id}, {positions[id].printerId});
      ConsistentWithFewer(Db(), db.grid);
      grid := db.grid;
      positions := positions - {id};
      assert Db() == db;
    }

    /** INSERT: refused when the printer or the floor does not exist, the printer has a row already, or the
        cell is taken. */
    method CreatePosition(pos: Position) returns (ok: bool)
      requires Valid() && ValidEntry(Entry(pos.printerId, pos.x, pos.y))
      modifies this
      ensures Valid() && nextPosition >= old(nextPosition)
      ensures ok <==> pos.printerId in printers && pos.floorId in floors && pos.printerId !in old(grid)
                      && forall p :: p in old(grid) ==> old(grid)[p] != CellOf(pos)
      ensures ok ==> positions == old(positions)[old(nextPosition) := pos]
      ensures ok ==> Db() == old(Db()).(grid := old(grid)[pos.printerId := CellOf(pos)])
      ensures !ok ==> positions == old(positions) && Db() == old(Db())
    {
      var samePrinter := FindPrinterPosition(pos.printerId);
      var sameCell := FindPosition(pos.floorId, pos.x, pos.y);
      ok := pos.printerId in printers && pos.floorId in floors && samePrinter == None && sameCell == None;
      if ok {
        InsertPosition(pos);
      }
    }

    /** No constraint stands in the way. */
    method InsertPosition(pos: Position)
      requires Valid() && ValidEntry(Entry(pos.printerId, pos.x, pos.y))
      requires pos.printerId in printers && pos.floorId in floors && pos.printerId !in grid
      requires forall p :: p in grid ==> grid[p] != CellOf(pos)
      modifies this
      ensures Valid() && nextPosition == old(nextPosition) + 1
      ensures positions == old(positions)[old(nextPosition) := pos]
      ensures Db() == old(Db()).(grid := old(grid)[pos.printerId := CellOf(pos)])
    {
      ghost var db := Db().(grid := grid[pos.printerId := CellOf(pos)]);
      InsertRow(positions, nextPosition, grid, pos);
      ConsistentWithOneMore(Db(), pos.printerId, CellOf(pos));
      grid := db.grid;
      positions := positions[nextPosition := pos];
      nextPosition := nextPosition + 1;
      assert Db() == db;
    }

    // ---------- FloorService ----------

    /** Take the printer off its old cell, and whoever stands in the new one off the grid. */
    method MakeRoom(floorId: Id, e: Entry, position: Option<Id>)
      requires Valid()
      requires position.Some? <==> e.printerId in grid
      requires position.Some? ==> position.value in positions && positions[position.value].printerId == e.printerId
      modifies this
      ensures Valid() && nextPosition == old(nextPosition)
      ensures Db() == old(Db()).(grid := Evict(old(grid) - {e.printerId}, CellOn(floorId, e)))
      ensures forall r :: r in positions ==> r in old(positions) && positions[r] == old(positions)[r]
    {
      if position.Some? {
        DeletePosition(position.value);
      }
      assert grid == old(grid) - {e.printerId};
      ghost var without := grid;
      var xyPosition := FindPosition(floorId, e.x, e.y);
      if xyPosition.Some? {
        var occupant := positions[xyPosition.value].printerId;
        DeletePosition(xyPosition.value);
        EvictIsDelete(without, occupant, CellOn(floorId, e));
      }
      assert grid == Evict(without, CellOn(floorId, e));
    }

    method AddOrUpdatePrinter(floorId: Id, e: Entry) returns (error: Option<Error>)
      requires Valid()
      modifies this
      ensures Valid() && nextPosition >= old(nextPosition)
      ensures Reply(Db(), error) == AddPrinter(old(Db()), floorId, e)
      ensures forall r :: r in positions ==> (r in old(positions) && positions[r] == old(positions)[r])
                                             || (r >= old(nextPosition) && positions[r].printerId == e.printerId)
    {
      if floorId !in floors { return Some(FloorNotFound); }
      if !ValidEntry(e) { return Some(InvalidInput); }
      ghost var before := Db();
      var position := FindPrinterPosition(e.printerId);
      if position.Some? && positions[position.value] == Position(e.printerId, floorId, e.x, e.y) {
        AlreadyThere(grid, floorId, e);
        error := None;
      } else {
        error := MoveIn(floorId, e, position);
      }
      OneWish(before.grid, before.printers, floorId, e);
    }

    /** Neither unique constraint can be violated once there is room: only an unknown printer is refused. */
    method MoveIn(floorId: Id, e: Entry, position: Option<Id>) returns (error: Option<Error>)
      requires Valid() && floorId in floors && ValidEntry(e)
      requires position.Some? <==> e.printerId in grid
      requires position.Some? ==> position.value in positions && positions[position.value].printerId == e.printerId
      modifies this
      ensures Valid() && nextPosition >= old(nextPosition)
      ensures e.printerId in old(printers) ==>
                error == None && Db() == old(Db()).(grid := PlaceOne(old(grid), floorId, e))
      ensures e.printerId !in old(printers) ==>
                error == Some(UnknownPrinter) && Db() == old(Db()).(grid := Evict(old(grid), CellOn(floorId, e)))
      ensures forall r :: r in positions ==> (r in old(positions) && positions[r] == old(positions)[r])
                                             || (r >= old(nextPosition) && positions[r].printerId == e.printerId)
    {
      MakeRoom(floorId, e, position);
      var ok := CreatePosition(Position(e.printerId, floorId, e.x, e.y));
      error := if ok then None else Some(UnknownPrinter);
      assert old(grid) - {e.printerId} == old(grid) || e.printerId in printers;
    }

    /** The loop of create and update: one wish after the other, until one fails. */
    method PlaceWishes(floorId: Id, wishes: seq<Entry>) returns (error: Option<Error>)
      requires Valid() && floorId in floors && ValidEntries(wishes)
      modifies this
      ensures Valid()
      ensures Reply(Db(), error) == Placed(old(Db()), floorId, wishes, |wishes|)
      ensures error == None ==> OnlyReplaced(old(positions), old(nextPosition), wishes, positions)
    {
      for i := 0 to |wishes|
        invariant Valid() && nextPosition >= old(nextPosition)
        invariant Reply(Db(), None) == Placed(old(Db()), floorId, wishes, i)
        invariant OnlyReplaced(old(positions), old(nextPosition), wishes[..i], positions)
      {
        ghost var rows := positions;
        NextWish(old(Db()), Db(), floorId, wishes, i);
        error := AddOrUpdatePrinter(floorId, wishes[i]);
        if error.Some? {
          FailureStays(old(grid), old(printers), floorId, wishes, i + 1, |wishes|);
          return;
        }
        StillOnlyReplaced(old(positions), old(nextPosition), wishes, i, rows, positions);
      }
      assert wishes[..|wishes|] == wishes;
      error := None;
    }

    method Create(name: string, order: int, wishes: seq<Entry>) returns (id: Id, error: Option<Error>)
      requires Valid()
      modifies this
      ensures Valid() && id == old(nextFloor)
      ensures Reply(Db(), error) == CreateFloor(old(Db()), name, order, wishes)
    {
      id := nextFloor;
      if !ValidName(name) || !ValidEntries(wishes) { return id, Some(InvalidInput); }
      floors := floors[id := Floor(name, order)];
      nextFloor := nextFloor + 1;
      error := PlaceWishes(id, wishes);
    }

    method Update(floorId: Id, name: string, order: int, wishes: seq<Entry>) returns (error: Option<Error>)
      requires Valid()
      modifies this
      ensures Valid()
      ensures Reply(Db(), error) == UpdateFloor(old(Db()), floorId, name, order, wishes)
    {
      if floorId !in floors { return Some(FloorNotFound); }
      if !ValidName(name) || !ValidEntries(wishes) { return Some(InvalidInput); }
      if wishes != [] {
        error := ReplaceLayout(floorId, wishes);
        if error.Some? { return; }
      }
      floors := floors[floorId := Floor(name, order)];
      return None;
    }

    method ReplaceLayout(floorId: Id, wishes: seq<Entry>) returns (error: Option<Error>)
      requires Valid() && floorId in floors && ValidEntries(wishes) && wishes != []
      modifies this
      ensures Valid()
      ensures var r := UpdateGrid(old(grid), old(printers), floorId, wishes);
              Db() == old(Db()).(grid := r.grid) && error == if r.failed then Some(UnknownPrinter) else None
    {
      // The floor as it was read before the loop, with the row ids of that moment.
      var existing := positions;
      error := PlaceWishes(floorId, wishes);
      if error.None? {
        // The clean-up deletes by row id; rows the loop has replaced meanwhile carry other ids.
        DropUndesired(existing, floorId, wishes, old(nextPosition), old(grid));
      }
    }

    method DropUndesired(existing: map<Id, Position>, floorId: Id, wishes: seq<Entry>, ghost firstNew: Id,
                         ghost before: Placement)
      requires Valid() && Rows(existing, firstNew, before) && OnlyReplaced(existing, firstNew, wishes, positions)
      modifies this
      ensures Valid() && Db() == old(Db()).(grid := WithoutUndesired(before, floorId, wishes, old(grid)))
    {
      CleanUp(existing, firstNew, before, floorId, wishes, positions, nextPosition, grid);
      ConsistentWithFewer(Db(), WithoutUndesired(before, floorId, wishes, grid));
      positions := positions - Undesired(existing, floorId, wishes);
      grid := WithoutUndesired(before, floorId, wishes, grid);
    }

    /** The entries of one floor, in row order. */
    method PrintersOn(floorId: Id) returns (entries: seq<Entry>)
      requires Valid()
      ensures EntriesOf(grid, floorId, entries)
    {
      var ids := SortBy(RowsOn(positions, floorId), Ascending());
      assert forall i :: 0 <= i < |ids| ==> ids[i] in ids;
      var rows := positions;
      entries := seq(|ids|, i requires 0 <= i < |ids| && ids[i] in rows =>
        Entry(rows[ids[i]].printerId, rows[ids[i]].x, rows[ids[i]].y));
      RowsAreEntries(rows, nextPosition, grid, floorId, ids, entries);
    }

    method UpdateName(floorId: Id, name: string) returns (error: Option<Error>)
      requires Valid()
      modifies this
      ensures Valid() && Reply(Db(), error) == FloorDb.UpdateName(old(Db()), floorId, name)
    {
      if !ValidName(name) { return Some(InvalidInput); }
      if floorId !in floors { return Some(FloorNotFound); }
      var entries := PrintersOn(floorId);
      UpdateWithOwnPrinters(Db(), floorId, name, floors[floorId].order, entries);
      error := Update(floorId, name, floors[floorId].order, entries);
    }

    method UpdateOrder(floorId: Id, order: int) returns (error: Option<Error>)
      requires Valid()
      modifies this
      ensures Valid() && Reply(Db(), error) == FloorDb.UpdateOrder(old(Db()), floorId, order)
    {
      if floorId !in floors { return Some(FloorNotFound); }
      var entries := PrintersOn(floorId);
      UpdateWithOwnPrinters(Db(), floorId, floors[floorId].name, order, entries);
      error := Update(floorId, floors[floorId].name, order, entries);
    }

    method RemovePrinter(floorId: Id, printerId: Id) returns (error: Option<Error>)
      requires Valid()
      modifies this
      ensures Valid() && Reply(Db(), error) == FloorDb.RemovePrinter(old(Db()), floorId, printerId)
    {
      var position := FindPrinterPosition(printerId);
      if position.None? || positions[position.value].floorId != floorId { return Some(NotOnFloor); }
      DeletePosition(position.value);
      return None;
    }

    method DeletePrinterFromAnyFloor(printerId: Id)
      requires Valid()
      modifies this
      ensures Valid() && Db() == RemoveFromAnyFloor(old(Db()), printerId)
    {
      var position := FindPrinterPosition(printerId);
      if position.Some? {
        DeletePosition(position.value);
      } else {
        assert grid - {printerId} == grid;
      }
    }

    /** DELETE FROM floor; the foreign key cascades to the positions. */
    method Delete(floorId: Id) returns (error: Option<Error>)
      requires Valid()
      modifies this
      ensures Valid() && Reply(Db(), error) == DeleteFloor(old(Db()), floorId)
    {
      if floorId !in floors { return Some(FloorNotFound); }
      DeleteFloorConsistent(Db(), floorId);
      DropFloorRows(positions, nextPosition, grid, floorId);
      positions := positions - RowsOn(positions, floorId);
      grid := OffFloor(grid, floorId);
      floors := floors - {floorId};
      assert Db() == DeleteFloor(old(Db()), floorId).db;
      return None;
    }

    /** The printer table belongs to another service; deleting a printer cascades to its position. */
    method PrinterDeleted(printerId: Id)
      requires Valid()
      modifies this
      ensures Valid() && Db() == RemoveFromAnyFloor(old(Db()), printerId).(printers := old(printers) - {printerId})
    {
      DeletePrinterFromAnyFloor(printerId);
      printers := printers - {printerId};
    }

    method PrinterCreated(printerId: Id)
      requires Valid()
      modifies this
      ensures Valid() && Db() == old(Db()).(printers := old(printers) + {printerId})
    {
      printers := printers + {printerId};
    }
  }

  lemma EvictIsDelete(grid: Placement, q: Id, c: Cell)
    requires Injective(grid) && Stands(grid, q, c)
    ensures grid - {q} == Evict(grid, c)
  {
  }

  lemma AlreadyThere(grid: Placement, f: Id, e: Entry)
    requires Injective(grid) && Stands(grid, e.printerId, CellOn(f, e))
    ensures PlaceOne(grid, f, e) == grid
  {
  }

  lemma OneWish(grid: Placement, known: set<Id>, f: Id, e: Entry)
    ensures PlaceAll(grid, known, f, [e], 1) ==
            if e.printerId in known then Progress(PlaceOne(grid, f, e), false)
              else Progress(Evict(grid, CellOn(f, e)), true)
  {
    assert PlaceAll(grid, known, f, [e], 0) == Progress(grid, false);
  }

  lemma NextWish(start: Db, db: Db, f: Id, layout: seq<Entry>, i: nat)
    requires i < |layout| && f in db.floors && ValidEntry(layout[i])
    requires Reply(db, None) == Placed(start, f, layout, i)
    ensures AddPrinter(db, f, layout[i]) == Placed(start, f, layout, i + 1)
  {
    OneWish(db.grid, db.printers, f, layout[i]);
  }
}
