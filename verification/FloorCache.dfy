/** The floor cache over the database, as a state machine. */
module FloorCache {
  import opened Common
  import opened FloorGrid
  import opened FloorDb

  /** A cached floor; `printers` maps each listed printer to its cell. */
  datatype FloorDto = FloorDto(name: string, order: int, printers: Placement)

  datatype Store = Store(db: Db, cache: map<Id, FloorDto>)

  function ToDto(db: Db, f: Id): FloorDto
    requires f in db.floors
  {
    FloorDto(db.floors[f].name, db.floors[f].order, OnFloor(db.grid, f))
  }

  datatype Step =
    | LoadStore
    | ListCache
    | GetFloor(f: Id)
    | Create(name: string, order: int, layout: seq<Entry>)
    | Delete(f: Id)
    | Update(f: Id, name: string, order: int, layout: seq<Entry>)
    | SetName(f: Id, name: string)
    | SetOrder(f: Id, order: int)
    | Add(f: Id, e: Entry)
    | Remove(f: Id, p: Id)
    | RemoveFromAny(p: Id)
      // what the printer service does to the tables underneath the cache
    | PrinterCreated(p: Id)
    | PrinterDeleted(p: Id)

  /** A call on the floor service, followed by refreshing one cache key if it did not throw. */
  function Refreshed(s: Store, reply: Reply, f: Id): Store {
    if reply.error == None && f in reply.db.floors
    then Store(reply.db, s.cache[f := ToDto(reply.db, f)])
    else s.(db := reply.db)
  }

  /** loadStore overwrites the key of every floor; it does not remove keys. */
  function Loaded(s: Store): Store {
    s.(cache := s.cache + map f | f in s.db.floors :: ToDto(s.db, f))
  }

  function Apply(s: Store, step: Step): Store {
    match step
    case LoadStore => Loaded(s)
    case ListCache => if s.cache == map[] then Loaded(s) else s
    case GetFloor(f) => if f in s.cache then s else Refreshed(s, Reply(s.db, None), f)
    case Create(name, order, layout) => Refreshed(s, CreateFloor(s.db, name, order, layout), s.db.nextFloor)
    case Delete(f) =>
      var reply := DeleteFloor(s.db, f);
      if reply.error == None then Store(reply.db, s.cache - {f}) else s
    case Update(f, name, order, layout) => Refreshed(s, UpdateFloor(s.db, f, name, order, layout), f)
    case SetName(f, name) => Refreshed(s, UpdateName(s.db, f, name), f)
    case SetOrder(f, order) => Refreshed(s, UpdateOrder(s.db, f, order), f)
    case Add(f, e) => Refreshed(s, AddPrinter(s.db, f, e), f)
    case Remove(f, p) => Refreshed(s, RemovePrinter(s.db, f, p), f)
    case RemoveFromAny(p) => Loaded(s.(db := RemoveFromAnyFloor(s.db, p)))
    case PrinterCreated(p) => s.(db := s.db.(printers := s.db.printers + {p}))
    case PrinterDeleted(p) => s.(db := RemoveFromAnyFloor(s.db, p).(printers := s.db.printers - {p}))
  }

  // ---------- the cache over-approximates ----------

  /** Every printer the database has on floor f is listed by the cache, in the same cell. */
  ghost predicate Covers(s: Store, f: Id)
    requires f in s.cache
  {
    forall p :: p in s.db.grid && s.db.grid[p].floorId == f ==> Stands(s.cache[f].printers, p, s.db.grid[p])
  }

  /** A cached floor has the database's name and order and lists every printer of the floor, so each extra
      entry names a printer that is no longer there. */
  ghost predicate OverApproximates(s: Store) {
    forall f :: f in s.cache ==>
      && f in s.db.floors && s.cache[f].name == s.db.floors[f].name && s.cache[f].order == s.db.floors[f].order
      && Covers(s, f)
  }

  /** The reading of the extra entries: they differ from the database only by printers off that floor. */
  lemma ExtraEntriesLeft(s: Store, f: Id, p: Id)
    requires OverApproximates(s) && f in s.cache && p in s.cache[f].printers
    ensures Stands(s.db.grid, p, s.cache[f].printers[p]) || !(p in s.db.grid && s.db.grid[p].floorId == f)
  {
    assert Covers(s, f);
  }

  /** An update stops halfway at its first wish for a printer that does not exist: the earlier wishes that are
      in the database by then must be in the cache already. */
  ghost predicate HalfwayCovered(s: Store, f: Id, layout: seq<Entry>)
    requires f in s.cache
  {
    forall n: nat, i: nat :: FirstUnknown(s.db.printers, layout, n) && i < n && Survives(layout, n + 1, i)
                             ==> Stands(s.cache[f].printers, layout[i].printerId, CellOn(f, layout[i]))
  }

  /** The exact condition under which a step keeps the cache an over-approximation: an update of a cached floor
      that passes validation must not stop at an unknown printer with new places written. */
  ghost predicate Careful(s: Store, step: Step) {
    match step
    case Update(f, name, order, layout) =>
      f in s.cache && ValidName(name) && ValidEntries(layout) ==> HalfwayCovered(s, f, layout)
    case _ => true
  }

  ghost predicate Inv(s: Store) {
    Consistent(s.db) && OverApproximates(s)
  }

  lemma StepConsistent(s: Store, step: Step)
    requires Consistent(s.db)
    ensures Consistent(Apply(s, step).db)
  {
    match step
    case Create(name, order, layout) => CreateConsistent(s.db, name, order, layout);
    case Update(f, name, order, layout) => UpdateConsistent(s.db, f, name, order, layout);
    case Add(f, e) => AddConsistent(s.db, f, e);
    case Delete(f) => DeleteFloorConsistent(s.db, f);
    case _ =>
  }

  /** Off floor f, wishes for f only make printers leave. */
  ghost predicate OthersOnlyLeave(grid: Placement, f: Id, after: Placement) {
    forall p :: p in after && after[p].floorId != f ==> p in grid && grid[p] == after[p]
  }

  lemma PlacedOthersOnlyLeave(db: Db, f: Id, layout: seq<Entry>, n: nat)
    requires n <= |layout|
    ensures OthersOnlyLeave(db.grid, f, PlaceAll(db.grid, db.printers, f, layout, n).grid)
  {
    PlacedFromWishes(db.grid, db.printers, f, layout, n);
  }

  /** Refreshing floor f is enough when elsewhere printers only left. */
  lemma RefreshKeepsCover(s: Store, reply: Reply, f: Id)
    requires OverApproximates(s) && reply.error == None && f in reply.db.floors
    requires OthersOnlyLeave(s.db.grid, f, reply.db.grid)
    requires forall g :: g in s.db.floors && g != f ==> g in reply.db.floors && reply.db.floors[g] == s.db.floors[g]
    ensures OverApproximates(Refreshed(s, reply, f))
  {
    var t := Refreshed(s, reply, f);
    forall g | g in t.cache && g != f ensures Covers(t, g) {
      assert Covers(s, g);
    }
    assert Covers(t, f);
  }

  /** A call that throws keeps the cover when floor f gained nothing. */
  lemma FailureKeepsCover(s: Store, db: Db, f: Id)
    requires OverApproximates(s) && OthersOnlyLeave(s.db.grid, f, db.grid)
    requires forall g :: g in s.db.floors ==> g in db.floors && db.floors[g] == s.db.floors[g]
    requires f in s.cache ==> Covers(Store(db, s.cache), f)
    ensures OverApproximates(Store(db, s.cache))
  {
    forall g | g in s.cache && g != f ensures Covers(Store(db, s.cache), g) {
      assert Covers(s, g);
    }
  }

  lemma HalfwayIff(s: Store, f: Id, layout: seq<Entry>)
    requires OverApproximates(s) && f in s.cache && PlaceAll(s.db.grid, s.db.printers, f, layout, |layout|).failed
    ensures var t := Store(s.db.(grid := PlaceAll(s.db.grid, s.db.printers, f, layout, |layout|).grid), s.cache);
            Covers(t, f) <==> HalfwayCovered(s, f, layout)
  {
    var known := s.db.printers;
    var after := PlaceAll(s.db.grid, known, f, layout, |layout|).grid;
    var t := Store(s.db.(grid := after), s.cache);
    var n := FailsAtFirstUnknown(known, s.db.grid, f, layout, |layout|);
    if HalfwayCovered(s, f, layout) {
      forall p | p in after && after[p].floorId == f ensures Stands(s.cache[f].printers, p, after[p]) {
        if Names(layout[..n], p) {
          StoppedHalfway(s.db.grid, known, f, layout, n, p);
          assert Stands(after, p, after[p]);
          var i :| i < n && Survives(layout, n + 1, i) && layout[i].printerId == p && CellOn(f, layout[i]) == after[p];
        } else {
          UnnamedStays(s.db.grid, known, f, layout, n, p);
          assert Covers(s, f);
        }
      }
    }
    if Covers(t, f) {
      forall m: nat, i: nat | FirstUnknown(known, layout, m) && i < m && Survives(layout, m + 1, i)
        ensures Stands(s.cache[f].printers, layout[i].printerId, CellOn(f, layout[i]))
      {
        assert layout[..m][i].printerId == layout[i].printerId;
        StoppedHalfway(s.db.grid, known, f, layout, m, layout[i].printerId);
        assert Stands(after, layout[i].printerId, CellOn(f, layout[i]));
      }
    }
  }

  lemma UnnamedStays(grid: Placement, known: set<Id>, f: Id, layout: seq<Entry>, n: nat, p: Id)
    requires FirstUnknown(known, layout, n) && p in PlaceAll(grid, known, f, layout, |layout|).grid
             && !Names(layout[..n], p)
    ensures Stands(grid, p, PlaceAll(grid, known, f, layout, |layout|).grid[p])
  {
    WishesGranted(grid, known, f, layout, n);
    FailureStays(grid, known, f, layout, n + 1, |layout|);
    assert Stands(PlaceAll(grid, known, f, layout, n).grid, p, PlaceAll(grid, known, f, layout, |layout|).grid[p]);
  }

  lemma UpdateKeepsCoverIff(s: Store, f: Id, name: string, order: int, layout: seq<Entry>)
    requires Inv(s)
    ensures OverApproximates(Apply(s, Update(f, name, order, layout))) <==> Careful(s, Update(f, name, order, layout))
  {
    var reply := UpdateFloor(s.db, f, name, order, layout);
    PlacedOthersOnlyLeave(s.db, f, layout, |layout|);
    if reply.error == None {
      if layout != [] { GrantedWereKnown(s.db.grid, s.db.printers, f, layout, |layout|); }
      RefreshKeepsCover(s, reply, f);
    } else if reply.error == Some(UnknownPrinter) {
      if f in s.cache { HalfwayIff(s, f, layout); }
      if Careful(s, Update(f, name, order, layout)) { FailureKeepsCover(s, reply.db, f); }
    }
  }

  /** Each step keeps the cache an over-approximation, except an update that fails halfway and has by then
      put printers on a cached floor. */
  lemma StepKeepsCoverIff(s: Store, step: Step)
    requires Inv(s)
    ensures OverApproximates(Apply(s, step)) <==> Careful(s, step)
  {
    match step
    case Update(f, name, order, layout) => UpdateKeepsCoverIff(s, f, name, order, layout);
    case Create(name, order, layout) => CreateKeepsCover(s, name, order, layout);
    case Add(f, e) => AddKeepsCover(s, f, e);
    case SetName(f, name) => SimpleStep(s, step, f);
    case SetOrder(f, order) => SimpleStep(s, step, f);
    case Remove(f, p) => SimpleStep(s, step, f);
    case GetFloor(f) => SimpleStep(s, step, f);
    case _ => ShrinkKeepsCover(s, step);
  }

  lemma CreateKeepsCover(s: Store, name: string, order: int, layout: seq<Entry>)
    requires Inv(s)
    ensures OverApproximates(Apply(s, Create(name, order, layout)))
  {
    var reply := CreateFloor(s.db, name, order, layout);
    PlacedOthersOnlyLeave(s.db, s.db.nextFloor, layout, |layout|);
    if reply.error == None {
      RefreshKeepsCover(s, reply, s.db.nextFloor);
    } else {
      FailureKeepsCover(s, reply.db, s.db.nextFloor);
    }
  }

  lemma AddKeepsCover(s: Store, f: Id, e: Entry)
    requires Inv(s)
    ensures OverApproximates(Apply(s, Add(f, e)))
  {
    var reply := AddPrinter(s.db, f, e);
    PlacedOthersOnlyLeave(s.db, f, [e], 1);
    assert PlaceAll(s.db.grid, s.db.printers, f, [e], 0) == Progress(s.db.grid, false);
    if reply.error == None {
      RefreshKeepsCover(s, reply, f);
    } else {
      assert f in s.cache ==> Covers(s, f);
      FailureKeepsCover(s, reply.db, f);
    }
  }

  lemma LoadedCovers(s: Store)
    requires forall f :: f in s.cache ==> f in s.db.floors
    ensures OverApproximates(Loaded(s))
  {
  }

  /** Steps after which every floor shows what it showed, or less. */
  lemma ShrinkKeepsCover(s: Store, step: Step)
    requires Inv(s)
    requires
      || step.LoadStore? || step.ListCache? || step.Delete? || step.RemoveFromAny?
      || step.PrinterCreated? || step.PrinterDeleted?
    ensures OverApproximates(Apply(s, step))
  {
    LoadedCovers(s);
    if step.RemoveFromAny? {
      LoadedCovers(s.(db := RemoveFromAnyFloor(s.db, step.p)));
    } else if !step.LoadStore? && !step.ListCache? {
      var t := Apply(s, step);
      forall g | g in t.cache ensures Covers(t, g) { assert Covers(s, g); }
    }
  }

  lemma SimpleStep(s: Store, step: Step, f: Id)
    requires Inv(s)
    requires step.SetName? || step.SetOrder? || step.Remove? || step.GetFloor?
    requires step.f == f
    ensures OverApproximates(Apply(s, step))
  {
    var reply := match step
      case SetName(_, name) => UpdateName(s.db, f, name)
      case SetOrder(_, order) => UpdateOrder(s.db, f, order)
      case Remove(_, p) => RemovePrinter(s.db, f, p)
      case _ => Reply(s.db, None);
    if reply.error == None && f in reply.db.floors { RefreshKeepsCover(s, reply, f); }
  }

  function Run(s: Store, steps: seq<Step>): Store
    decreases |steps|
  {
    if steps == [] then s else Run(Apply(s, steps[0]), steps[1..])
  }

  ghost predicate CarefulRun(s: Store, steps: seq<Step>)
    decreases |steps|
  {
    steps == [] || (Careful(s, steps[0]) && CarefulRun(Apply(s, steps[0]), steps[1..]))
  }

  /** In every reachable state the cache over-approximates the floors, and after loadStore it equals them. */
  lemma {:induction false} CacheOverRuns(s: Store, steps: seq<Step>)
    requires Inv(s) && CarefulRun(s, steps)
    ensures Inv(Run(s, steps))
    ensures Loaded(Run(s, steps)).cache == map f | f in Run(s, steps).db.floors :: ToDto(Run(s, steps).db, f)
    decreases |steps|
  {
    if steps != [] {
      StepConsistent(s, steps[0]);
      StepKeepsCoverIff(s, steps[0]);
      CacheOverRuns(Apply(s, steps[0]), steps[1..]);
    }
  }

  /** A printer moved to another floor stays listed on its old one until that floor is refreshed. */
  lemma MoveLeavesExtraEntry(p: Id)
    ensures var steps := [Create("one", 0, [Entry(p, 0, 0)]), Create("two", 1, [Entry(p, 0, 0)])];
            var t := Run(Store(Db({p}, map[], map[], 1), map[]), steps);
            && 1 in t.cache && p in t.cache[1].printers && t.db.grid == map[p := Cell(2, 0, 0)]
  {
    var (one, two) := (Create("one", 0, [Entry(p, 0, 0)]), Create("two", 1, [Entry(p, 0, 0)]));
    var s := Store(Db({p}, map[], map[], 1), map[]);
    var s1 := Apply(s, one);
    var s2 := Apply(s1, two);
    assert PlaceAll(s.db.grid, s.db.printers, 1, one.layout, 0) == Progress(map[], false);
    assert s1.db.grid == map[p := Cell(1, 0, 0)];
    assert PlaceAll(s1.db.grid, s1.db.printers, 2, two.layout, 0) == Progress(s1.db.grid, false);
    assert s2.db.grid == map[p := Cell(2, 0, 0)];
    assert [one, two][1..] == [two];
    assert Run(s, [one, two]) == Run(s1, [two]) == Run(s2, []);
  }


  /** A layout that names an unknown printer second moves the first one and then throws: the cached floor
      still shows it in its old cell. */
  lemma HalfwayUpdateUncovers(p: Id, unknown: Id)
    requires p != unknown
    ensures var db := Db({p}, map[1 := Floor("one", 0)], map[p := Cell(1, 0, 0)], 2);
            var s := Store(db, map[1 := ToDto(db, 1)]);
            Inv(s) && !OverApproximates(Apply(s, Update(1, "one", 0, [Entry(p, 1, 1), Entry(unknown, 2, 2)])))
  {
    var db := Db({p}, map[1 := Floor("one", 0)], map[p := Cell(1, 0, 0)], 2);
    var s := Store(db, map[1 := ToDto(db, 1)]);
    var layout := [Entry(p, 1, 1), Entry(unknown, 2, 2)];
    assert FirstUnknown(db.printers, layout, 1) && Survives(layout, 2, 0);
    assert PlaceAll(db.grid, db.printers, 1, layout, 0) == Progress(db.grid, false);
    assert PlaceAll(db.grid, db.printers, 1, layout, 2).failed;
    assert UpdateFloor(db, 1, "one", 0, layout).error == Some(UnknownPrinter);
    StepKeepsCoverIff(s, Update(1, "one", 0, layout));
  }
}
