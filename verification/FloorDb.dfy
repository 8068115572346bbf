/** The floors of the farm and what each floor operation does to them. */
module FloorDb {
  import opened Common
  import opened FloorGrid

  datatype Floor = Floor(name: string, order: int)

  datatype Db = Db(printers: set<Id>, floors: map<Id, Floor>, grid: Placement, nextFloor: Id)

  datatype Error = FloorNotFound | InvalidInput | UnknownPrinter | NotOnFloor

  /** The database after the call, and the error it threw, if any. */
  datatype Reply = Reply(db: Db, error: Option<Error>)

  const MIN_FLOOR_NAME_LENGTH := 3
  const MAX_COORDINATE := 12

  predicate ValidName(name: string) {
    |name| >= MIN_FLOOR_NAME_LENGTH
  }

  predicate ValidEntry(e: Entry) {
    0 <= e.x <= MAX_COORDINATE && 0 <= e.y <= MAX_COORDINATE
  }

  predicate ValidEntries(layout: seq<Entry>) {
    forall i :: 0 <= i < |layout| ==> ValidEntry(layout[i])
  }

  /** What the schema and the validators keep true of the stored floors. */
  ghost predicate Consistent(db: Db) {
    && Injective(db.grid)
    && (forall p :: p in db.grid ==> p in db.printers && db.grid[p].floorId in db.floors
                                     && ValidEntry(Entry(p, db.grid[p].x, db.grid[p].y)))
    && (forall f :: f in db.floors ==> f < db.nextFloor && ValidName(db.floors[f].name))
  }

  /** The printers shown on floor f, and where. */
  function OnFloor(grid: Placement, f: Id): Placement {
    map p | p in grid && grid[p].floorId == f :: grid[p]
  }

  /** The insertion loop after n wishes. */
  function Placed(db: Db, f: Id, layout: seq<Entry>, n: nat): Reply
    requires n <= |layout|
  {
    var g := PlaceAll(db.grid, db.printers, f, layout, n);
    Reply(db.(grid := g.grid), if g.failed then Some(UnknownPrinter) else None)
  }

  function CreateFloor(db: Db, name: string, order: int, layout: seq<Entry>): Reply {
    if !ValidName(name) || !ValidEntries(layout) then Reply(db, Some(InvalidInput))
    else
      var f := db.nextFloor;
      Placed(db.(floors := db.floors[f := Floor(name, order)], nextFloor := f + 1), f, layout, |layout|)
  }

  function UpdateFloor(db: Db, f: Id, name: string, order: int, layout: seq<Entry>): Reply {
    if f !in db.floors then Reply(db, Some(FloorNotFound))
    else if !ValidName(name) || !ValidEntries(layout) then Reply(db, Some(InvalidInput))
    else
      var g := UpdateGrid(db.grid, db.printers, f, layout);
      if g.failed then Reply(db.(grid := g.grid), Some(UnknownPrinter))
      else Reply(db.(grid := g.grid, floors := db.floors[f := Floor(name, order)]), None)
  }

  function UpdateName(db: Db, f: Id, name: string): Reply {
    if !ValidName(name) then Reply(db, Some(InvalidInput))
    else if f !in db.floors then Reply(db, Some(FloorNotFound))
    else Reply(db.(floors := db.floors[f := db.floors[f].(name := name)]), None)
  }

  function UpdateOrder(db: Db, f: Id, order: int): Reply {
    if f !in db.floors then Reply(db, Some(FloorNotFound))
    else Reply(db.(floors := db.floors[f := db.floors[f].(order := order)]), None)
  }

  function AddPrinter(db: Db, f: Id, e: Entry): Reply {
    if f !in db.floors then Reply(db, Some(FloorNotFound))
    else if !ValidEntry(e) then Reply(db, Some(InvalidInput))
    else
      Placed(db, f, [e], 1)
  }

  function RemovePrinter(db: Db, f: Id, p: Id): Reply {
    if p in db.grid && db.grid[p].floorId == f then Reply(db.(grid := db.grid - {p}), None)
    else Reply(db, Some(NotOnFloor))
  }

  function RemoveFromAnyFloor(db: Db, p: Id): Db {
    db.(grid := db.grid - {p})
  }

  function OffFloor(grid: Placement, f: Id): Placement {
    map p | p in grid && grid[p].floorId != f :: grid[p]
  }

  function DeleteFloor(db: Db, f: Id): Reply {
    if f !in db.floors then Reply(db, Some(FloorNotFound))
    else Reply(db.(floors := db.floors - {f}, grid := OffFloor(db.grid, f)), None)
  }

  // ---------- every operation keeps the database consistent ----------

  /** Everybody on grid after stood there before or is a valid wish for floor f. */
  ghost predicate FromWishes(grid: Placement, known: set<Id>, f: Id, layout: seq<Entry>, after: Placement) {
    forall p :: p in after ==>
      || (p in grid && after[p] == grid[p])
      || (p in known && after[p].floorId == f && Entry(p, after[p].x, after[p].y) in layout)
  }

  lemma {:induction false} PlacedFromWishes(grid: Placement, known: set<Id>, f: Id, layout: seq<Entry>, n: nat)
    requires n <= |layout|
    ensures FromWishes(grid, known, f, layout, PlaceAll(grid, known, f, layout, n).grid)
  {
    if n > 0 {
      PlacedFromWishes(grid, known, f, layout, n - 1);
      assert layout[n - 1] in layout
             && layout[n - 1] == Entry(layout[n - 1].printerId, layout[n - 1].x, layout[n - 1].y);
    }
  }

  lemma UpdateConsistent(db: Db, f: Id, name: string, order: int, layout: seq<Entry>)
    requires Consistent(db)
    ensures Consistent(UpdateFloor(db, f, name, order, layout).db)
  {
    PlacedFromWishes(db.grid, db.printers, f, layout, |layout|);
    UpdateInjective(db.grid, db.printers, f, layout);
    var g := UpdateGrid(db.grid, db.printers, f, layout).grid;
    assert FromWishes(db.grid, db.printers, f, layout, g);
  }

  lemma CreateConsistent(db: Db, name: string, order: int, layout: seq<Entry>)
    requires Consistent(db)
    ensures Consistent(CreateFloor(db, name, order, layout).db)
  {
    PlacedFromWishes(db.grid, db.printers, db.nextFloor, layout, |layout|);
    PlaceAllInjective(db.grid, db.printers, db.nextFloor, layout, |layout|);
  }

  lemma DeleteFloorConsistent(db: Db, f: Id)
    requires Consistent(db)
    ensures Consistent(DeleteFloor(db, f).db)
  {
  }

  lemma AddConsistent(db: Db, f: Id, e: Entry)
    requires Consistent(db)
    ensures Consistent(AddPrinter(db, f, e).db)
  {
    PlacedFromWishes(db.grid, db.printers, f, [e], 1);
    PlaceAllInjective(db.grid, db.printers, f, [e], 1);
  }

  /** The entries of a floor, listed in any order. */
  ghost predicate EntriesOf(grid: Placement, f: Id, layout: seq<Entry>) {
    && ClashFree(layout)
    && (forall p, x, y :: Entry(p, x, y) in layout <==> Stands(grid, p, Cell(f, x, y)))
  }

  /** Writing a floor back with its own printers changes its name and order, and nobody's place. */
  lemma UpdateWithOwnPrinters(db: Db, f: Id, name: string, order: int, layout: seq<Entry>)
    requires Consistent(db) && f in db.floors && ValidName(name) && EntriesOf(db.grid, f, layout)
    ensures UpdateFloor(db, f, name, order, layout) == Reply(db.(floors := db.floors[f := Floor(name, order)]), None)
  {
    forall i | 0 <= i < |layout| ensures layout[i].printerId in db.printers && ValidEntry(layout[i]) {
      assert layout[i] in layout && layout[i] == Entry(layout[i].printerId, layout[i].x, layout[i].y);
      assert Stands(db.grid, layout[i].printerId, Cell(f, layout[i].x, layout[i].y));
    }
    ReinstallIsIdentity(db.grid, db.printers, f, layout);
  }
}
