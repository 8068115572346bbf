/** FloorStore: every call goes to the floor service and then overwrites one cache key. */
module FloorStoreModel {
  import opened Common
  import opened FloorGrid
  import opened FloorDb
  import opened FloorServiceModel
  import opened FloorCache

  class FloorStore {
    const floorService: FloorService
    var cache: map<Id, FloorDto>

    ghost predicate Valid()
      reads this, floorService
    {
      floorService.Valid()
    }

    ghost function State(): Store
      reads this, floorService
    {
      Store(floorService.Db(), cache)
    }

    constructor (floorService: FloorService)
      requires floorService.Valid()
      ensures this.floorService == floorService && Valid() && State() == Store(floorService.Db(), map[])
    {
      this.floorService, cache := floorService, map[];
    }

    /** toDto of the floor as the database now has it. */
    method Dto(floorId: Id) returns (dto: FloorDto)
      requires Valid() && floorId in floorService.floors
      ensures dto == ToDto(floorService.Db(), floorId)
    {
      var entries := floorService.PrintersOn(floorId);
      var floor := floorService.floors[floorId];
      var printers := map i | 0 <= i < |entries| :: entries[i].printerId := CellOn(floorId, entries[i]);
      EntriesAreFloor(floorService.grid, floorId, entries, printers);
      dto := FloorDto(floor.name, floor.order, printers);
    }

    method Refresh(floorId: Id)
      requires Valid() && floorId in floorService.floors
      modifies this
      ensures Valid() && State() == Store(old(State()).db, old(cache)[floorId := ToDto(old(State()).db, floorId)])
    {
      var dto := Dto(floorId);
      cache := cache[floorId := dto];
    }

    method LoadStore()
      requires Valid()
      modifies this
      ensures Valid() && State() == Loaded(old(State()))
    {
      var todo := floorService.floors.Keys;
      ghost var loaded := cache + map f | f in floorService.floors :: ToDto(floorService.Db(), f);
      while todo != {}
        invariant Valid() && State().db == old(State()).db
        invariant todo <= floorService.floors.Keys
        invariant forall f :: f !in todo ==> (f in cache <==> f in loaded) && (f in cache ==> cache[f] == loaded[f])
        invariant forall f :: f in todo ==>
                    (f in cache <==> f in old(cache)) && (f in cache ==> cache[f] == old(cache)[f])
        decreases todo
      {
        var f :| f in todo;
        Refresh(f);
        todo := todo - {f};
      }
      assert cache == loaded;
    }

    method ListCache() returns (floors: map<Id, FloorDto>)
      requires Valid()
      modifies this
      ensures Valid() && State() == Apply(old(State()), Step.ListCache) && floors == cache
    {
      if cache == map[] {
        LoadStore();
      }
      floors := cache;
    }

    method GetFloor(floorId: Id) returns (floor: Option<FloorDto>)
      requires Valid()
      modifies this
      ensures Valid() && State() == Apply(old(State()), Step.GetFloor(floorId))
      ensures floor == if floorId in cache then Some(cache[floorId]) else None
    {
      if floorId !in cache {
        if floorId !in floorService.floors { return None; }
        Refresh(floorId);
      }
      return Some(cache[floorId]);
    }

    method Create(name: string, order: int, wishes: seq<Entry>) returns (id: Id, error: Option<Error>)
      requires Valid()
      modifies this, floorService
      ensures Valid() && State() == Apply(old(State()), Step.Create(name, order, wishes))
      ensures id == old(State()).db.nextFloor && error == CreateFloor(old(State()).db, name, order, wishes).error
    {
      id, error := floorService.Create(name, order, wishes);
      if error.None? {
        Refresh(id);
      }
    }

    method Delete(floorId: Id) returns (error: Option<Error>)
      requires Valid()
      modifies this, floorService
      ensures Valid() && State() == Apply(old(State()), Step.Delete(floorId))
      ensures error == DeleteFloor(old(State()).db, floorId).error
    {
      error := floorService.Delete(floorId);
      if error.None? {
        cache := cache - {floorId};
      }
    }

    method Update(floorId: Id, name: string, order: int, wishes: seq<Entry>) returns (error: Option<Error>)
      requires Valid()
      modifies this, floorService
      ensures Valid() && State() == Apply(old(State()), Step.Update(floorId, name, order, wishes))
      ensures error == UpdateFloor(old(State()).db, floorId, name, order, wishes).error
    {
      error := floorService.Update(floorId, name, order, wishes);
      if error.None? {
        Refresh(floorId);
      }
    }

    method UpdateName(floorId: Id, name: string) returns (error: Option<Error>)
      requires Valid()
      modifies this, floorService
      ensures Valid() && State() == Apply(old(State()), SetName(floorId, name))
      ensures error == FloorDb.UpdateName(old(State()).db, floorId, name).error
    {
      error := floorService.UpdateName(floorId, name);
      if error.None? {
        Refresh(floorId);
      }
    }

    method UpdateFloorOrder(floorId: Id, order: int) returns (error: Option<Error>)
      requires Valid()
      modifies this, floorService
      ensures Valid() && State() == Apply(old(State()), SetOrder(floorId, order))
      ensures error == FloorDb.UpdateOrder(old(State()).db, floorId, order).error
    {
      error := floorService.UpdateOrder(floorId, order);
      if error.None? {
        Refresh(floorId);
      }
    }

    method AddOrUpdatePrinter(floorId: Id, e: Entry) returns (error: Option<Error>)
      requires Valid()
      modifies this, floorService
      ensures Valid() && State() == Apply(old(State()), Add(floorId, e))
      ensures error == AddPrinter(old(State()).db, floorId, e).error
    {
      error := floorService.AddOrUpdatePrinter(floorId, e);
      if error.None? {
        Refresh(floorId);
      }
    }

    method RemovePrinter(floorId: Id, printerId: Id) returns (error: Option<Error>)
      requires Valid()
      modifies this, floorService
      ensures Valid() && State() == Apply(old(State()), Remove(floorId, printerId))
      ensures error == FloorDb.RemovePrinter(old(State()).db, floorId, printerId).error
    {
      error := floorService.RemovePrinter(floorId, printerId);
      if error.None? {
        Refresh(floorId);
      }
    }

    method RemovePrinterFromAnyFloor(printerId: Id)
      requires Valid()
      modifies this, floorService
      ensures Valid() && State() == Apply(old(State()), RemoveFromAny(printerId))
    {
      floorService.DeletePrinterFromAnyFloor(printerId);
      LoadStore();
    }
  }

  lemma EntriesAreFloor(grid: Placement, f: Id, layout: seq<Entry>, printers: Placement)
    requires EntriesOf(grid, f, layout)
    requires forall i :: 0 <= i < |layout| ==> Stands(printers, layout[i].printerId, CellOn(f, layout[i]))
    requires forall p :: p in printers ==> exists i :: 0 <= i < |layout| && layout[i].printerId == p
    ensures printers == OnFloor(grid, f)
  {
    forall p | p in printers ensures Stands(grid, p, printers[p]) && grid[p].floorId == f {
      var i :| 0 <= i < |layout| && layout[i].printerId == p;
      assert Entry(p, layout[i].x, layout[i].y) in layout;
      assert Stands(grid, p, Cell(f, layout[i].x, layout[i].y));
    }
    forall p | p in OnFloor(grid, f) ensures p in printers {
      assert Stands(grid, p, Cell(f, grid[p].x, grid[p].y));
      var i :| 0 <= i < |layout| && layout[i] == Entry(p, grid[p].x, grid[p].y);
    }
  }
}
