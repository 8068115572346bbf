/** What the floor phase of an import leaves behind when every printer is placed at most once. */
module YamlFloors {
  import opened Common
  import opened Text
  import opened FloorGrid
  import opened FloorDb
  import opened FloorCache
  import opened Yaml

  ghost predicate InjectiveIds(ids: IdMap) {
    forall i, j :: i in ids && j in ids && ids[i] == ids[j] ==> i == j
  }

  // ---------- renamed entries ----------

  lemma {:induction false} MapEntriesMember(ids: IdMap, layout: seq<Entry>, e: Entry)
    ensures e in MapEntries(ids, layout) <==>
            exists i :: 0 <= i < |layout| && layout[i].printerId in ids
              && e == Entry(ids[layout[i].printerId], layout[i].x, layout[i].y)
  {
    if layout != [] {
      var (front, last) := (layout[..|layout| - 1], layout[|layout| - 1]);
      MapEntriesMember(ids, front, e);
      assert forall i :: 0 <= i < |front| ==> front[i] == layout[i];
    }
  }

  lemma {:induction false} MapEntriesClashFree(ids: IdMap, layout: seq<Entry>)
    requires InjectiveIds(ids) && ClashFree(layout)
    ensures ClashFree(MapEntries(ids, layout))
  {
    if layout != [] {
      var (front, last) := (layout[..|layout| - 1], layout[|layout| - 1]);
      MapEntriesClashFree(ids, front);
      var mapped := MapEntries(ids, front);
      forall k | 0 <= k < |mapped| && last.printerId in ids
        ensures !Clash(mapped[k], Entry(ids[last.printerId], last.x, last.y))
      {
        MapEntriesMember(ids, front, mapped[k]);
        var i :| 0 <= i < |front| && front[i].printerId in ids
          && mapped[k] == Entry(ids[front[i].printerId], front[i].x, front[i].y);
        assert !Clash(layout[i], last);
      }
    }
  }

  lemma MapEntriesKnown(ids: IdMap, layout: seq<Entry>, known: set<Id>)
    requires (forall i :: i in ids ==> ids[i] in known) && ValidEntries(layout)
    ensures ValidEntries(MapEntries(ids, layout))
    ensures forall i :: 0 <= i < |MapEntries(ids, layout)| ==> MapEntries(ids, layout)[i].printerId in known
  {
    var mapped := MapEntries(ids, layout);
    forall k | 0 <= k < |mapped| ensures ValidEntry(mapped[k]) && mapped[k].printerId in known {
      MapEntriesMember(ids, layout, mapped[k]);
    }
  }

  lemma MapEntriesNames(ids: IdMap, layout: seq<Entry>, p: Id)
    requires Names(MapEntries(ids, layout), p)
    ensures exists i :: 0 <= i < |layout| && layout[i].printerId in ids && ids[layout[i].printerId] == p
  {
    var k :| 0 <= k < |MapEntries(ids, layout)| && MapEntries(ids, layout)[k].printerId == p;
    MapEntriesMember(ids, layout, MapEntries(ids, layout)[k]);
  }

  // ---------- one floor ----------

  ghost predicate Shows(grid: Placement, id: Id, layout: seq<Entry>) {
    forall p, x, y :: Stands(grid, p, Cell(id, x, y)) <==> Entry(p, x, y) in layout
  }

  /** A layout the database accepts as it stands. */
  ghost predicate Acceptable(db: Db, name: string, layout: seq<Entry>) {
    && ValidName(name) && ValidEntries(layout) && ClashFree(layout)
    && (forall i :: 0 <= i < |layout| ==> layout[i].printerId in db.printers)
  }

  /** Elsewhere, the printers of layout leave and nobody else moves. */
  ghost predicate ElsewhereLeave(grid: Placement, id: Id, layout: seq<Entry>, after: Placement) {
    forall p, c: Cell :: c.floorId != id ==> (Stands(after, p, c) <==> Stands(grid, p, c) && !Names(layout, p))
  }

  lemma CreateShows(db: Db, name: string, order: int, layout: seq<Entry>)
    requires Consistent(db) && Acceptable(db, name, layout)
    ensures var r := CreateFloor(db, name, order, layout);
            && r.error == None && Consistent(r.db)
            && r.db == db.(floors := db.floors[db.nextFloor := Floor(name, order)], nextFloor := db.nextFloor + 1,
                grid := r.db.grid)
            && Shows(r.db.grid, db.nextFloor, layout) && ElsewhereLeave(db.grid, db.nextFloor, layout, r.db.grid)
  {
    var f := db.nextFloor;
    CreateConsistent(db, name, order, layout);
    WishesGranted(db.grid, db.printers, f, layout, |layout|);
    var after := PlaceAll(db.grid, db.printers, f, layout, |layout|).grid;
    if layout == [] {
      assert after == db.grid;
    } else {
      ClashFreeInstalled(db.grid, db.printers, f, layout);
      assert WithoutUndesired(db.grid, f, layout, after) == after;
    }
  }

  lemma UpdateShows(db: Db, id: Id, name: string, order: int, layout: seq<Entry>)
    requires Consistent(db) && Acceptable(db, name, layout) && id in db.floors
    ensures var r := UpdateFloor(db, id, name, order, layout);
            && r.error == None && Consistent(r.db)
            && r.db == db.(floors := db.floors[id := Floor(name, order)], grid := r.db.grid)
            && (layout != [] ==> Shows(r.db.grid, id, layout)) && ElsewhereLeave(db.grid, id, layout, r.db.grid)
  {
    UpdateConsistent(db, id, name, order, layout);
    if layout != [] { ClashFreeInstalled(db.grid, db.printers, id, layout); }
  }

  // ---------- floors that are done ----------

  function Layout(ids: IdMap, f: FileFloor): seq<Entry> {
    MapEntries(ids, f.printers)
  }

  /** File floor `d.value` has been written to row `d.id`. A floor without known printers is left as it was
      when it existed before (id < firstNew). */
  ghost predicate Done(db: Db, ids: IdMap, firstNew: Id, d: Target<FileFloor>) {
    && d.id in db.floors && db.floors[d.id] == Floor(d.value.name, d.value.order)
    && (Layout(ids, d.value) != [] || d.id >= firstNew ==> Shows(db.grid, d.id, Layout(ids, d.value)))
  }

  ghost predicate Disjoint(ids: IdMap, f: FileFloor, g: FileFloor) {
    forall p :: !(Names(Layout(ids, f), p) && Names(Layout(ids, g), p))
  }

  lemma EntryNames(layout: seq<Entry>, e: Entry)
    requires e in layout
    ensures Names(layout, e.printerId)
  {
    var i :| 0 <= i < |layout| && layout[i] == e;
  }

  /** Writing another floor with other printers does not undo a floor that is done. */
  lemma StaysDone(db: Db, after: Db, ids: IdMap, firstNew: Id, d: Target<FileFloor>, id: Id, f: FileFloor)
    requires Done(db, ids, firstNew, d) && d.id != id && Disjoint(ids, d.value, f)
    requires ElsewhereLeave(db.grid, id, Layout(ids, f), after.grid)
    requires d.id in after.floors && after.floors[d.id] == db.floors[d.id]
    ensures Done(after, ids, firstNew, d)
  {
    var layout := Layout(ids, d.value);
    if layout != [] || d.id >= firstNew {
      forall p, x, y ensures Stands(after.grid, p, Cell(d.id, x, y)) <==> Entry(p, x, y) in layout {
        if Entry(p, x, y) in layout { EntryNames(layout, Entry(p, x, y)); }
      }
    }
  }

  /** What holds of the floors of one file together. */
  ghost predicate Compatible(known: set<Id>, ids: IdMap, fs: seq<FileFloor>) {
    && NoDuplicates(fs)
    && (forall f :: f in fs ==> ValidName(f.name) && ValidEntries(Layout(ids, f)) && ClashFree(Layout(ids, f))
                                && forall i :: 0 <= i < |Layout(ids, f)| ==> Layout(ids, f)[i].printerId in known)
    && (forall f, g :: f in fs && g in fs && f != g ==> Disjoint(ids, f, g))
  }

  ghost predicate NamesDiffer(fs: seq<FileFloor>) {
    forall f, g :: f in fs && g in fs && Lower(f.name) == Lower(g.name) ==> f == g
  }

  /** The rows of the floors that have been written so far. */
  ghost predicate AllDone(db: Db, ids: IdMap, firstNew: Id, done: seq<Target<FileFloor>>) {
    forall d :: d in done ==> Done(db, ids, firstNew, d)
  }

  ghost predicate Apart(ids: IdMap, done: seq<Target<FileFloor>>, id: Id, f: FileFloor) {
    forall d :: d in done ==> d.id != id && Disjoint(ids, d.value, f)
  }

  function NewTargets(next: Id, fs: seq<FileFloor>): (r: seq<Target<FileFloor>>)
    ensures |r| == |fs| && forall i :: 0 <= i < |fs| ==> r[i] == Target(next + i, fs[i])
  {
    seq(|fs|, i requires 0 <= i < |fs| => Target(next + i, fs[i]))
  }

  ghost predicate GridOn(config: Config) {
    config.exportFloorGrid && config.exportPrinters
  }

  ghost predicate CreatedSoFar(start: Db, db: Db, ids: IdMap, fs: seq<FileFloor>) {
    && Consistent(db) && db.printers == start.printers && db.nextFloor == start.nextFloor + |fs|
    && (forall id :: id in db.floors <==> id in start.floors || start.nextFloor <= id < db.nextFloor)
    && (forall id :: id in start.floors ==> db.floors[id] == start.floors[id])
    && AllDone(db, ids, start.nextFloor, NewTargets(start.nextFloor, fs))
  }

  lemma OneMoreCreated(start: Db, db: Db, ids: IdMap, front: seq<FileFloor>, f: FileFloor)
    requires CreatedSoFar(start, db, ids, front) && Acceptable(db, f.name, Layout(ids, f))
    requires forall g :: g in front ==> Disjoint(ids, g, f)
    ensures CreatedSoFar(start, CreateFloor(db, f.name, f.order, Layout(ids, f)).db, ids, front + [f])
  {
    var (fs, firstNew) := (front + [f], start.nextFloor);
    CreateShows(db, f.name, f.order, Layout(ids, f));
    var after := CreateFloor(db, f.name, f.order, Layout(ids, f)).db;
    forall d | d in NewTargets(firstNew, fs) ensures Done(after, ids, firstNew, d) {
      var i :| 0 <= i < |fs| && NewTargets(firstNew, fs)[i] == d;
      if i < |front| {
        assert NewTargets(firstNew, front)[i] == d;
        StaysDone(db, after, ids, firstNew, d, db.nextFloor, f);
      }
    }
  }

  /** The create loop gives each new floor its own row and its own printers. */
  lemma {:induction false} CreatesFloors(start: Floors, fs: seq<FileFloor>, config: Config, ids: IdMap)
    requires Consistent(start.store.db) && GridOn(config) && Compatible(start.store.db.printers, ids, fs)
    ensures CreatedSoFar(start.store.db, CreateFloors(start, fs, config, ids).store.db, ids, fs)
  {
    if fs != [] {
      var (front, f) := (fs[..|fs| - 1], fs[|fs| - 1]);
      assert fs == front + [f];
      CompatiblePrefix(start.store.db.printers, ids, front, f);
      CreatesFloors(start, front, config, ids);
      NextCreated(start, front, f, config, ids, CreateFloors(start, front, config, ids));
    }
  }

  lemma NextCreated(start: Floors, front: seq<FileFloor>, f: FileFloor, config: Config, ids: IdMap, before: Floors)
    requires before == CreateFloors(start, front, config, ids) && GridOn(config)
    requires CreatedSoFar(start.store.db, before.store.db, ids, front)
    requires Acceptable(before.store.db, f.name, Layout(ids, f)) && forall g :: g in front ==> Disjoint(ids, g, f)
    ensures CreatedSoFar(start.store.db, CreateFloors(start, front + [f], config, ids).store.db, ids, front + [f])
  {
    CreateFloorAppend(start, front, f, config, ids);
    OneMoreCreated(start.store.db, before.store.db, ids, front, f);
  }

  lemma CompatiblePrefix(known: set<Id>, ids: IdMap, front: seq<FileFloor>, f: FileFloor)
    requires Compatible(known, ids, front + [f])
    ensures Compatible(known, ids, front) && forall g :: g in front ==> Disjoint(ids, g, f)
    ensures forall db: Db :: db.printers == known ==> Acceptable(db, f.name, Layout(ids, f))
  {
    var fs := front + [f];
    assert f in fs && forall g :: g in front ==> g in fs;
    forall g | g in front ensures g != f {
      var i :| 0 <= i < |front| && front[i] == g;
      assert fs[i] == g && fs[|front|] == f;
    }
    forall i, j | 0 <= i < j < |front| ensures front[i] != front[j] { assert fs[i] != fs[j]; }
  }

  ghost predicate UpdatedSoFar(start: Db, db: Db, ids: IdMap, firstNew: Id, done: seq<Target<FileFloor>>) {
    && Consistent(db) && db.printers == start.printers && db.nextFloor == start.nextFloor
    && db.floors.Keys == start.floors.Keys
    && (forall id :: id in db.floors && (forall d :: d in done ==> d.id != id) ==> db.floors[id] == start.floors[id])
    && AllDone(db, ids, firstNew, done)
  }

  /** The floor may be written to this row, next to those that are done. */
  ghost predicate Writable(db: Db, ids: IdMap, firstNew: Id, done: seq<Target<FileFloor>>, u: Target<FileFloor>) {
    && u.id in db.floors && u.id < firstNew
    && Acceptable(db, u.value.name, Layout(ids, u.value)) && Apart(ids, done, u.id, u.value)
  }

  lemma OneMoreUpdated(start: Db, db: Db, ids: IdMap, firstNew: Id, done: seq<Target<FileFloor>>, u: Target<FileFloor>)
    requires UpdatedSoFar(start, db, ids, firstNew, done) && Writable(db, ids, firstNew, done, u)
    ensures UpdatedSoFar(start, UpdateFloor(db, u.id, u.value.name, u.value.order, Layout(ids, u.value)).db, ids,
              firstNew, done + [u])
  {
    UpdateShows(db, u.id, u.value.name, u.value.order, Layout(ids, u.value));
    var after := UpdateFloor(db, u.id, u.value.name, u.value.order, Layout(ids, u.value)).db;
    forall d | d in done + [u] ensures Done(after, ids, firstNew, d) {
      if d in done { StaysDone(db, after, ids, firstNew, d, u.id, u.value); }
    }
  }

  ghost predicate AllWritable(db: Db, ids: IdMap, firstNew: Id, done: seq<Target<FileFloor>>,
                              us: seq<Target<FileFloor>>) {
    && (forall u :: u in us ==> Writable(db, ids, firstNew, done, u))
    && (forall i, j :: 0 <= i < j < |us| ==> us[i].id != us[j].id && Disjoint(ids, us[i].value, us[j].value))
  }

  /** The update loop writes each matched floor and leaves the ones already done alone. */
  lemma {:induction false} UpdatesFloors(start: Floors, us: seq<Target<FileFloor>>, config: Config, ids: IdMap,
                                         firstNew: Id, done: seq<Target<FileFloor>>)
    requires Consistent(start.store.db) && GridOn(config) && AllDone(start.store.db, ids, firstNew, done)
    requires AllWritable(start.store.db, ids, firstNew, done, us)
    ensures UpdatedSoFar(start.store.db, UpdateFloors(start, us, config, ids).store.db, ids, firstNew, done + us)
  {
    if us == [] {
      assert done + us == done;
    } else {
      var (front, u) := (us[..|us| - 1], us[|us| - 1]);
      assert us == front + [u];
      WritablePrefix(start.store.db, ids, firstNew, done, front, u);
      UpdatesFloors(start, front, config, ids, firstNew, done);
      var (before, after) := (UpdateFloors(start, front, config, ids), UpdateFloors(start, us, config, ids));
      NextUpdate(start, front, u, config, ids, before);
      NextUpdated(start.store.db, before.store.db, after.store.db, front, u, ids, firstNew, done);
    }
  }

  lemma NextUpdated(start: Db, before: Db, after: Db, front: seq<Target<FileFloor>>, u: Target<FileFloor>, ids: IdMap,
                    firstNew: Id, done: seq<Target<FileFloor>>)
    requires after == UpdateFloor(before, u.id, u.value.name, u.value.order, Layout(ids, u.value)).db
    requires Writable(start, ids, firstNew, done, u) && Apart(ids, front, u.id, u.value)
    requires UpdatedSoFar(start, before, ids, firstNew, done + front)
    ensures UpdatedSoFar(start, after, ids, firstNew, done + (front + [u]))
  {
    StillWritable(start, before, ids, firstNew, done, front, u);
    OneMoreUpdated(start, before, ids, firstNew, done + front, u);
    assert done + (front + [u]) == done + front + [u];
  }

  lemma NextUpdate(start: Floors, front: seq<Target<FileFloor>>, u: Target<FileFloor>, config: Config, ids: IdMap,
                   before: Floors)
    requires before == UpdateFloors(start, front, config, ids) && GridOn(config)
    ensures UpdateFloors(start, front + [u], config, ids).store.db
            == UpdateFloor(before.store.db, u.id, u.value.name, u.value.order, Layout(ids, u.value)).db
  {
    UpdateFloorAppend(start, front, u, config, ids);
  }

  lemma WritablePrefix(db: Db, ids: IdMap, firstNew: Id, done: seq<Target<FileFloor>>, front: seq<Target<FileFloor>>,
                       u: Target<FileFloor>)
    requires AllWritable(db, ids, firstNew, done, front + [u])
    ensures AllWritable(db, ids, firstNew, done, front) && Writable(db, ids, firstNew, done, u)
    ensures Apart(ids, front, u.id, u.value)
  {
    var us := front + [u];
    assert us[|front|] == u && u in us;
    forall v | v in front ensures v in us && v.id != u.id && Disjoint(ids, v.value, u.value) {
      var i :| 0 <= i < |front| && front[i] == v;
      assert us[i] == v;
    }
    forall i, j | 0 <= i < j < |front|
      ensures front[i].id != front[j].id && Disjoint(ids, front[i].value, front[j].value)
    {
      assert us[i] == front[i] && us[j] == front[j];
    }
  }

  lemma StillWritable(start: Db, db: Db, ids: IdMap, firstNew: Id, done: seq<Target<FileFloor>>,
                      front: seq<Target<FileFloor>>, u: Target<FileFloor>)
    requires Writable(start, ids, firstNew, done, u) && Apart(ids, front, u.id, u.value)
    requires UpdatedSoFar(start, db, ids, firstNew, done + front)
    ensures Writable(db, ids, firstNew, done + front, u)
  {
  }
}
