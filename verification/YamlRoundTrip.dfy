/** Exporting a farm and importing the file into an empty farm gives the same farm under new ids. */
module YamlRoundTrip {
  import opened Common
  import opened Text
  import opened FloorGrid
  import opened FloorDb
  import opened FloorCache
  import opened Yaml
  import opened YamlIsolation
  import opened YamlPrinters
  import opened YamlFloors
  import opened YamlTwice

  /** A farm without printers, floors and tags, whatever ids were used before. */
  ghost predicate Empty(farm: Farm) {
    && farm.printers == map[] && farm.tags == map[] && farm.members == {}
    && farm.store.db.printers == {} && farm.store.db.floors == map[] && farm.store.db.grid == map[]
  }

  ghost predicate CacheFresh(store: Store) {
    Apply(store, ListCache).cache == map f | f in store.db.floors :: ToDto(store.db, f)
  }

  ghost predicate Bijection(m: IdMap, from: set<Id>, to: set<Id>) {
    m.Keys == from && InjectiveIds(m) && m.Values == to
  }

  /** Tag `t` has the same members as tag `copy`, up to renaming. */
  ghost predicate SameMembers(members: set<(Id, Id)>, copies: set<(Id, Id)>, pm: IdMap, t: Id, copy: Id) {
    forall p :: p in pm ==> ((t, p) in members <==> (copy, pm[p]) in copies)
  }

  /** The same farm under renamed ids; the colours of tags are lost. */
  ghost predicate Isomorphic(a: Farm, b: Farm, pm: IdMap, fm: IdMap, tm: IdMap) {
    && Bijection(pm, a.printers.Keys, b.printers.Keys)
    && Bijection(fm, a.store.db.floors.Keys, b.store.db.floors.Keys)
    && Bijection(tm, a.tags.Keys, b.tags.Keys)
    && (forall p :: p in a.printers ==> b.printers[pm[p]] == a.printers[p])
    && (forall f :: f in a.store.db.floors ==> b.store.db.floors[fm[f]] == a.store.db.floors[f])
    && (forall t :: t in a.tags ==> b.tags[tm[t]] == Tag(a.tags[t].name, None))
    && (forall p, f, x, y :: p in a.printers && f in a.store.db.floors ==>
          (Stands(a.store.db.grid, p, Cell(f, x, y)) <==> Stands(b.store.db.grid, pm[p], Cell(fm[f], x, y))))
    && (forall t :: t in a.tags ==> SameMembers(a.members, b.members, pm, t, tm[t]))
    && WellFormed(b)
  }

  /** The k-th key gets the id `next + k`. */
  ghost predicate Consecutive(keys: seq<Id>, next: Id, m: IdMap) {
    m.Keys == (set k | k in keys) && forall i :: 0 <= i < |keys| ==> keys[i] in m && m[keys[i]] == next + i
  }

  lemma ConsecutiveIsBijection(keys: seq<Id>, next: Id, m: IdMap, from: set<Id>, to: set<Id>)
    requires NoDuplicates(keys) && Consecutive(keys, next, m)
    requires from == (set k | k in keys) && forall k :: k in to <==> next <= k < next + |keys|
    ensures Bijection(m, from, to)
  {
    forall i, j | i in m && j in m && m[i] == m[j] ensures i == j {
      var a :| 0 <= a < |keys| && keys[a] == i;
      var b :| 0 <= b < |keys| && keys[b] == j;
    }
    forall k | k in to ensures k in m.Values { assert m[keys[k - next]] == k; }
    forall k | k in m.Values ensures k in to {
      var i :| i in m && m[i] == k;
      var a :| 0 <= a < |keys| && keys[a] == i;
    }
  }

  // ---------- importing into an empty farm inserts everything ----------

  lemma {:induction false} NoPrinterMatches(row: PrinterRow, strategies: seq<PrinterStrategy>)
    ensures MatchPrinter(map[], row, strategies).None?
  {
    if strategies != [] { NoPrinterMatches(row, strategies[1..]); }
  }

  lemma {:induction false} AllPrintersInserted(ps: seq<FilePrinter>, strategies: seq<PrinterStrategy>)
    ensures PrintersToInsert(map[], ps, strategies) == ps && PrintersToUpdate(map[], ps, strategies) == []
  {
    if ps != [] {
      AllPrintersInserted(ps[..|ps| - 1], strategies);
      NoPrinterMatches(ps[|ps| - 1].row, strategies);
    }
  }

  lemma {:induction false} AllFloorsInserted(floors: map<Id, Floor>, fs: seq<FileFloor>, strategy: FloorStrategy)
    requires floors == map[]
    ensures FloorsToInsert(floors, fs, strategy) == fs && FloorsToUpdate(floors, fs, strategy) == []
  {
    if fs != [] {
      var (front, last) := (fs[..|fs| - 1], fs[|fs| - 1]);
      assert front + [last] == fs;
      AllFloorsInserted(floors, front, strategy);
      NoFloorMatches(floors, last, strategy);
      FloorInsertsAppend(floors, front, last, strategy);
      FloorUpdatesAppend(floors, front, last, strategy);
    }
  }

  lemma NoFloorMatches(floors: map<Id, Floor>, f: FileFloor, strategy: FloorStrategy)
    requires floors == map[]
    ensures MatchFloor(floors, f, strategy).None?
  {
    assert FloorsNamed(floors, f.name) == {} && FloorsAt(floors, f.order) == {};
  }

  lemma {:induction false} AllTagsInserted(ts: seq<FileTag>)
    ensures TagsToInsert(map[], ts) == ts && TagsToUpdate(map[], ts) == []
  {
    if ts != [] { AllTagsInserted(ts[1..]); }
  }

  // ---------- printers ----------

  function PrinterKeys(ps: seq<FilePrinter>): (r: seq<Id>)
    ensures |r| == |ps| && forall i :: 0 <= i < |ps| ==> r[i] == ps[i].id
  {
    seq(|ps|, i requires 0 <= i < |ps| => ps[i].id)
  }

  /** The printers have the rows next, next + 1, ... in file order. */
  ghost predicate InsertedInOrder(next: Id, ps: seq<FilePrinter>, s: Printers) {
    && s.next == next + |ps| && Consecutive(PrinterKeys(ps), next, s.ids)
    && (forall k :: k in s.rows <==> next <= k < s.next)
    && (forall i :: 0 <= i < |ps| ==> s.rows[next + i] == ps[i].row)
  }

  lemma OneMoreConsecutive(keys: seq<Id>, next: Id, m: IdMap, k: Id)
    requires Consecutive(keys, next, m) && k !in keys
    ensures Consecutive(keys + [k], next, m[k := next + |keys|])
  {
    assert (set x | x in keys + [k]) == (set x | x in keys) + {k};
    forall i | 0 <= i < |keys| ensures keys[i] != k { assert keys[i] in keys; }
  }

  lemma PrefixNoDuplicates<T>(front: seq<T>, last: T)
    requires NoDuplicates(front + [last])
    ensures NoDuplicates(front) && last !in front
  {
    var s := front + [last];
    forall i, j | 0 <= i < j < |front| ensures front[i] != front[j] { assert s[i] != s[j]; }
    forall i | 0 <= i < |front| ensures front[i] != last { assert s[i] != s[|front|]; }
  }

  lemma {:induction false} PrintersGetConsecutiveIds(next: Id, ps: seq<FilePrinter>)
    requires NoDuplicates(PrinterKeys(ps))
    ensures InsertedInOrder(next, ps, CreatePrinters(Printers(map[], next, map[]), ps, {}))
  {
    if ps != [] {
      var (front, last) := (ps[..|ps| - 1], ps[|ps| - 1]);
      assert PrinterKeys(ps) == PrinterKeys(front) + [last.id];
      PrefixNoDuplicates(PrinterKeys(front), last.id);
      PrintersGetConsecutiveIds(next, front);
      assert ps == front + [last];
      OneMoreInserted(next, front, last, CreatePrinters(Printers(map[], next, map[]), front, {}));
    }
  }

  lemma OneMoreInserted(next: Id, front: seq<FilePrinter>, last: FilePrinter, s: Printers)
    requires InsertedInOrder(next, front, s) && last.id !in PrinterKeys(front)
    ensures InsertedInOrder(next, front + [last],
              Printers(s.rows[s.next := last.row], s.next + 1, s.ids[last.id := s.next]))
  {
    OneMoreConsecutive(PrinterKeys(front), next, s.ids, last.id);
    assert PrinterKeys(front + [last]) == PrinterKeys(front) + [last.id];
  }

  // ---------- floors ----------

  function FloorKeys(fs: seq<FileFloor>): (r: seq<Id>)
    ensures |r| == |fs| && forall i :: 0 <= i < |fs| ==> r[i] == fs[i].id
  {
    seq(|fs|, i requires 0 <= i < |fs| => fs[i].id)
  }

  lemma {:induction false} FloorsGetConsecutiveIds(start: Floors, fs: seq<FileFloor>, config: Config, ids: IdMap)
    requires NoDuplicates(FloorKeys(fs)) && start.ids == map[]
    requires Consistent(start.store.db) && GridOn(config) && Compatible(start.store.db.printers, ids, fs)
    ensures Consecutive(FloorKeys(fs), start.store.db.nextFloor, CreateFloors(start, fs, config, ids).ids)
  {
    if fs != [] {
      var (front, f) := (fs[..|fs| - 1], fs[|fs| - 1]);
      assert fs == front + [f] && FloorKeys(fs) == FloorKeys(front) + [f.id];
      PrefixNoDuplicates(FloorKeys(front), f.id);
      CompatiblePrefix(start.store.db.printers, ids, front, f);
      FloorsGetConsecutiveIds(start, front, config, ids);
      CreatesFloors(start, front, config, ids);
      OneMoreFloorId(start, CreateFloors(start, front, config, ids), front, f, config, ids);
    }
  }

  lemma OneMoreFloorId(start: Floors, before: Floors, front: seq<FileFloor>, f: FileFloor, config: Config, ids: IdMap)
    requires GridOn(config) && CreatedSoFar(start.store.db, before.store.db, ids, front) && f.id !in FloorKeys(front)
    requires Acceptable(before.store.db, f.name, Layout(ids, f))
    requires Consecutive(FloorKeys(front), start.store.db.nextFloor, before.ids)
    ensures Consecutive(FloorKeys(front) + [f.id], start.store.db.nextFloor, CreateOneFloor(before, f, config, ids).ids)
  {
    CreateShows(before.store.db, f.name, f.order, Layout(ids, f));
    OneMoreConsecutive(FloorKeys(front), start.store.db.nextFloor, before.ids, f.id);
  }

  lemma ListedEntries(grid: Placement, f: Id, ids: seq<Id>, layout: seq<Entry>)
    requires Injective(grid) && NoDuplicates(ids) && forall p :: p in ids <==> p in grid && grid[p].floorId == f
    requires |layout| == |ids| && forall i :: 0 <= i < |ids| ==>
               ids[i] in grid && layout[i] == Entry(ids[i], grid[ids[i]].x, grid[ids[i]].y)
    ensures EntriesOf(grid, f, layout)
  {
    forall i | 0 <= i < |layout| ensures Stands(grid, layout[i].printerId, CellOn(f, layout[i])) {
      assert ids[i] in ids;
    }
    forall i, k | 0 <= i < k < |layout| ensures !Clash(layout[i], layout[k]) {
      assert Stands(grid, layout[i].printerId, CellOn(f, layout[i]))
             && Stands(grid, layout[k].printerId, CellOn(f, layout[k]));
    }
    forall p, x, y ensures Entry(p, x, y) in layout <==> Stands(grid, p, Cell(f, x, y)) {
      if Entry(p, x, y) in layout {
        var i :| 0 <= i < |layout| && layout[i] == Entry(p, x, y);
        assert Stands(grid, layout[i].printerId, CellOn(f, layout[i]));
      }
      if Stands(grid, p, Cell(f, x, y)) {
        assert p in ids;
        var i :| 0 <= i < |ids| && ids[i] == p;
        assert layout[i] == Entry(p, x, y);
      }
    }
  }

  /** An exported floor lists exactly the printers that stand on it. */
  lemma ExportedEntries(db: Db, f: Id)
    requires Consistent(db) && f in db.floors
    ensures var e := ExportFloor(f, ToDto(db, f));
            && ValidName(e.name) && EntriesOf(db.grid, f, e.printers) && ValidEntries(e.printers)
  {
    var dto := ToDto(db, f);
    var ids := SortBy(dto.printers.Keys, Ascending());
    var layout := ListEntries(ids, dto.printers);
    assert forall p :: p in ids <==> p in db.grid && db.grid[p].floorId == f;
    assert forall i :: 0 <= i < |ids| ==> ids[i] in ids;
    ListedEntries(db.grid, f, ids, layout);
  }

  /** Renaming keeps each entry of a floor, and adds none. */
  lemma RenamedEntry(ids: IdMap, layout: seq<Entry>, p: Id, x: int, y: int)
    requires InjectiveIds(ids) && p in ids
    ensures Entry(ids[p], x, y) in MapEntries(ids, layout) <==> Entry(p, x, y) in layout
  {
    MapEntriesMember(ids, layout, Entry(ids[p], x, y));
    if Entry(p, x, y) in layout {
      var i :| 0 <= i < |layout| && layout[i] == Entry(p, x, y);
    }
  }

  lemma NamedOnFloor(grid: Placement, f: Id, layout: seq<Entry>, p: Id)
    requires EntriesOf(grid, f, layout) && Names(layout, p)
    ensures p in grid && grid[p].floorId == f
  {
    var i :| 0 <= i < |layout| && layout[i].printerId == p;
    assert Entry(p, layout[i].x, layout[i].y) in layout;
    assert Stands(grid, p, Cell(f, layout[i].x, layout[i].y));
  }

  /** The exported floors are valid, and no printer is on two of them. */
  lemma ExportedFloorsClean(db: Db, cache: map<Id, FloorDto>)
    requires Consistent(db) && cache == map f | f in db.floors :: ToDto(db, f)
    ensures var fs := ExportFloors(cache);
            && PlacedOnce(fs) && NoDuplicates(FloorKeys(fs)) && NoDuplicates(fs)
            && (set k | k in FloorKeys(fs)) == db.floors.Keys
            && (forall i :: 0 <= i < |fs| ==>
                    fs[i].id in db.floors && fs[i] == ExportFloor(fs[i].id, ToDto(db, fs[i].id)))
            && (forall i :: 0 <= i < |fs| ==> ValidName(fs[i].name) && ValidEntries(fs[i].printers))
  {
    var fs := ExportFloors(cache);
    var ids := SortBy(cache.Keys, Ascending());
    forall i | 0 <= i < |fs| ensures fs[i].id == ids[i] && EntriesOf(db.grid, ids[i], fs[i].printers)
                                     && ValidName(fs[i].name) && ValidEntries(fs[i].printers) {
      ExportedEntries(db, ids[i]);
    }
    forall i, j, p | 0 <= i < j < |fs| ensures !(Names(fs[i].printers, p) && Names(fs[j].printers, p)) {
      assert ids[i] != ids[j];
      if Names(fs[i].printers, p) { NamedOnFloor(db.grid, ids[i], fs[i].printers, p); }
      if Names(fs[j].printers, p) { NamedOnFloor(db.grid, ids[j], fs[j].printers, p); }
    }
    assert FloorKeys(fs) == ids;
    assert cache.Keys == db.floors.Keys;
  }

  // ---------- the theorem ----------

  lemma PrintersRoundTrip(farm: Farm, target: Farm, file: File)
    requires WellFormed(farm) && Empty(target) && file.printers == ExportPrinters(farm)
    ensures var s := ImportPrinters(target, file, {});
            && Bijection(s.ids, farm.printers.Keys, s.rows.Keys)
            && (forall p :: p in farm.printers ==> s.rows[s.ids[p]] == farm.printers[p])
            && (forall k :: k in s.rows ==> k < s.next)
  {
    var keys := SortBy(farm.printers.Keys, Ascending());
    PrintersExported(farm, keys, file.printers);
    PrintersIntoEmpty(target, file);
    CopiedPrinters(farm.printers, keys, file.printers, target.nextPrinter, ImportPrinters(target, file, {}));
  }

  lemma PrintersExported(farm: Farm, keys: seq<Id>, ps: seq<FilePrinter>)
    requires keys == SortBy(farm.printers.Keys, Ascending()) && ps == ExportPrinters(farm)
    ensures keys == PrinterKeys(ps) && NoDuplicates(keys) && (forall p :: p in keys <==> p in farm.printers)
    ensures forall i :: 0 <= i < |keys| ==> keys[i] in farm.printers && ps[i].row == farm.printers[keys[i]]
  {
  }

  lemma PrintersIntoEmpty(target: Farm, file: File)
    requires Empty(target) && NoDuplicates(PrinterKeys(file.printers))
    ensures InsertedInOrder(target.nextPrinter, file.printers, ImportPrinters(target, file, {}))
  {
    AllPrintersInserted(file.printers, file.config.printerStrategies);
    PrintersGetConsecutiveIds(target.nextPrinter, file.printers);
  }

  lemma CopiedPrinters(rows: map<Id, PrinterRow>, keys: seq<Id>, ps: seq<FilePrinter>, next: Id, s: Printers)
    requires NoDuplicates(keys) && (forall p :: p in keys <==> p in rows) && keys == PrinterKeys(ps)
    requires forall i :: 0 <= i < |keys| ==> keys[i] in rows && ps[i].row == rows[keys[i]]
    requires InsertedInOrder(next, ps, s)
    ensures Bijection(s.ids, rows.Keys, s.rows.Keys)
    ensures forall p :: p in rows ==> p in s.ids && s.ids[p] in s.rows && s.rows[s.ids[p]] == rows[p]
  {
    CopiedPrinterIds(rows, keys, next, s);
    forall p | p in rows ensures p in s.ids && s.ids[p] in s.rows && s.rows[s.ids[p]] == rows[p] {
      assert p in keys;
      var i :| 0 <= i < |keys| && keys[i] == p;
      CopiedPrinter(keys, ps, next, s, i);
    }
  }

  lemma CopiedPrinter(keys: seq<Id>, ps: seq<FilePrinter>, next: Id, s: Printers, i: nat)
    requires keys == PrinterKeys(ps) && InsertedInOrder(next, ps, s) && i < |keys|
    ensures keys[i] in s.ids && s.ids[keys[i]] in s.rows && s.rows[s.ids[keys[i]]] == ps[i].row
  {
    assert s.ids[keys[i]] == next + i && next <= next + i < s.next;
  }

  lemma CopiedPrinterIds(rows: map<Id, PrinterRow>, keys: seq<Id>, next: Id, s: Printers)
    requires NoDuplicates(keys) && (forall p :: p in keys <==> p in rows) && Consecutive(keys, next, s.ids)
    requires forall k :: k in s.rows <==> next <= k < next + |keys|
    ensures Bijection(s.ids, rows.Keys, s.rows.Keys)
  {
    assert rows.Keys == set k | k in keys;
    ConsecutiveIsBijection(keys, next, s.ids, rows.Keys, s.rows.Keys);
  }

  lemma FloorsIntoEmpty(store: Store, file: File, pm: IdMap)
    requires store.db.floors == map[]
    ensures var created := CreateFloors(Floors(store, map[]), file.floors, file.config, pm);
            ImportFloors(store, file, pm) == created.(store := Apply(created.store, LoadStore))
  {
    AllFloorsInserted(store.db.floors, file.floors, file.config.floorStrategy);
  }

  /** After the floor phase every floor has its copy, with the same printers in the same cells. */
  lemma FloorsRoundTrip(farm: Farm, store: Store, file: File, pm: IdMap)
    requires WellFormed(farm) && CacheFresh(farm.store) && GridOn(file.config)
    requires file.floors == ExportFloors(Apply(farm.store, ListCache).cache)
    requires Consistent(store.db) && store.db.floors == map[] && Bijection(pm, farm.printers.Keys, store.db.printers)
    ensures var s := ImportFloors(store, file, pm);
            var (a, b) := (farm.store.db, s.store.db);
            && Consistent(b) && b.printers == store.db.printers
            && Bijection(s.ids, a.floors.Keys, b.floors.Keys)
            && (forall f :: f in a.floors ==> b.floors[s.ids[f]] == a.floors[f])
            && (forall p, f, x, y :: p in farm.printers && f in a.floors ==>
                  (Stands(a.grid, p, Cell(f, x, y)) <==> Stands(b.grid, pm[p], Cell(s.ids[f], x, y))))
  {
    var (a, fs, next) := (farm.store.db, file.floors, store.db.nextFloor);
    ExportedFloorsClean(a, Apply(farm.store, ListCache).cache);
    assert forall i :: i in pm ==> pm[i] in pm.Values;
    LayoutsCompatible(store.db.printers, pm, fs);
    FloorsIntoEmpty(store, file, pm);
    CreatesFloors(Floors(store, map[]), fs, file.config, pm);
    FloorsGetConsecutiveIds(Floors(store, map[]), fs, file.config, pm);
    var s := ImportFloors(store, file, pm);
    CopiedFloors(a, s.store.db, fs, pm, next, s.ids);
  }

  lemma CopiedFloors(a: Db, b: Db, fs: seq<FileFloor>, pm: IdMap, next: Id, fm: IdMap)
    requires Consistent(a) && InjectiveIds(pm) && NoDuplicates(FloorKeys(fs)) && Consecutive(FloorKeys(fs), next, fm)
    requires (set k | k in FloorKeys(fs)) == a.floors.Keys
    requires forall i :: 0 <= i < |fs| ==> fs[i].id in a.floors && fs[i] == ExportFloor(fs[i].id, ToDto(a, fs[i].id))
    requires (forall id :: id in b.floors <==> next <= id < next + |fs|) && AllDone(b, pm, next, NewTargets(next, fs))
    ensures Bijection(fm, a.floors.Keys, b.floors.Keys)
    ensures forall f :: f in a.floors ==> f in fm && fm[f] in b.floors && b.floors[fm[f]] == a.floors[f]
    ensures forall p, f, x, y :: p in pm && f in a.floors ==>
              (Stands(a.grid, p, Cell(f, x, y)) <==> Stands(b.grid, pm[p], Cell(fm[f], x, y)))
  {
    ConsecutiveIsBijection(FloorKeys(fs), next, fm, a.floors.Keys, b.floors.Keys);
    forall f | f in a.floors
      ensures f in fm && fm[f] in b.floors && b.floors[fm[f]] == a.floors[f]
      ensures forall p, x, y :: p in pm ==>
                (Stands(a.grid, p, Cell(f, x, y)) <==> Stands(b.grid, pm[p], Cell(fm[f], x, y)))
    {
      assert f in FloorKeys(fs);
      EachFloorCopied(a, b, fs, pm, next, fm, f);
    }
  }

  lemma EachFloorCopied(a: Db, b: Db, fs: seq<FileFloor>, pm: IdMap, next: Id, fm: IdMap, f: Id)
    requires Consistent(a) && InjectiveIds(pm) && Consecutive(FloorKeys(fs), next, fm) && f in FloorKeys(fs)
    requires forall i :: 0 <= i < |fs| ==> fs[i].id in a.floors && fs[i] == ExportFloor(fs[i].id, ToDto(a, fs[i].id))
    requires (forall id :: id in b.floors <==> next <= id < next + |fs|) && AllDone(b, pm, next, NewTargets(next, fs))
    ensures f in a.floors && f in fm && fm[f] in b.floors && b.floors[fm[f]] == a.floors[f]
    ensures forall p, x, y :: p in pm ==>
              (Stands(a.grid, p, Cell(f, x, y)) <==> Stands(b.grid, pm[p], Cell(fm[f], x, y)))
  {
    var i :| 0 <= i < |fs| && FloorKeys(fs)[i] == f;
    assert NewTargets(next, fs)[i] == Target(next + i, fs[i]);
    assert fm[f] == next + i;
    OneFloorRoundTrip(a, b, pm, next, fs[i], next + i);
  }

  lemma OneFloorRoundTrip(a: Db, b: Db, pm: IdMap, next: Id, f: FileFloor, id: Id)
    requires Consistent(a) && f.id in a.floors && f == ExportFloor(f.id, ToDto(a, f.id))
    requires id >= next && Done(b, pm, next, Target(id, f)) && InjectiveIds(pm)
    ensures b.floors[id] == a.floors[f.id]
    ensures forall p, x, y :: p in pm ==>
              (Stands(a.grid, p, Cell(f.id, x, y)) <==> Stands(b.grid, pm[p], Cell(id, x, y)))
  {
    ExportedEntries(a, f.id);
    forall p, x, y | p in pm ensures Stands(a.grid, p, Cell(f.id, x, y)) <==> Stands(b.grid, pm[p], Cell(id, x, y)) {
      RenamedEntry(pm, f.printers, p, x, y);
      assert Stands(b.grid, pm[p], Cell(id, x, y)) <==> Entry(pm[p], x, y) in Layout(pm, f);
    }
  }

  /** The renaming of tags; the import does not return it. */
  function TagIds(keys: seq<Id>, next: Id): IdMap {
    map i | 0 <= i < |keys| && keys[i] !in keys[..i] :: keys[i] := next + i
  }

  lemma TagsRoundTrip(farm: Farm, start: Tags, file: File, pm: IdMap)
    requires file.tags == ExportTags(farm) && start.tags == map[] && start.members == {}
    requires InjectiveIds(pm) && pm.Keys == farm.printers.Keys
    ensures CopiedTags(farm, ImportTags(start, file, pm), pm, TagIds(SortBy(farm.tags.Keys, Ascending()), start.next))
  {
    var keys := SortBy(farm.tags.Keys, Ascending());
    TagsExported(farm, keys, file.tags);
    TagsIntoEmpty(start, file, pm);
    TagsCopied(farm, start.next, keys, file.tags, pm, ImportTags(start, file, pm));
  }

  lemma TagsExported(farm: Farm, keys: seq<Id>, ts: seq<FileTag>)
    requires keys == SortBy(farm.tags.Keys, Ascending()) && ts == ExportTags(farm)
    ensures NoDuplicates(keys) && farm.tags.Keys == (set t | t in keys) && |ts| == |keys|
    ensures forall i :: 0 <= i < |keys| ==> IsExportOf(farm, keys[i], ts[i])
  {
  }

  lemma TagsIntoEmpty(start: Tags, file: File, pm: IdMap)
    requires start.tags == map[] && start.members == {}
    ensures TagRows(start.next, file.tags, pm, ImportTags(start, file, pm))
  {
    var ts := file.tags;
    AllTagsInserted(ts);
    CreatesTags(start, ts, pm);
    CreatedFromNothing(ts, pm, start, CreateTags(start, ts, pm));
  }

  ghost predicate CopiedTags(farm: Farm, s: Tags, pm: IdMap, tm: IdMap)
    requires pm.Keys == farm.printers.Keys
  {
    && Bijection(tm, farm.tags.Keys, s.tags.Keys)
    && (forall t :: t in farm.tags ==> CopiedTag(farm, s, pm, t, tm[t]))
    && (forall m :: m in s.members ==> m.0 in s.tags && m.1 in pm.Values)
    && (forall t :: t in s.tags ==> t < s.next)
  }

  ghost predicate IsExportOf(farm: Farm, t: Id, copy: FileTag) {
    t in farm.tags && copy == FileTag(farm.tags[t].name, None, SortBy(MembersOf(farm.members, t), Ascending()))
  }

  /** Row `id` holds the imported tag, with its renamed members. */
  ghost predicate TagRow(s: Tags, id: Id, t: FileTag, pm: IdMap) {
    && id in s.tags && s.tags[id] == Tag(t.name, t.color)
    && forall p :: (id, p) in s.members <==> p in MapMembers(pm, t.printers)
  }

  /** The rows of tags created from nothing. */
  ghost predicate TagRows(next: Id, ts: seq<FileTag>, pm: IdMap, s: Tags) {
    && s.next == next + |ts|
    && (forall t :: t in s.tags <==> next <= t < next + |ts|)
    && (forall i :: 0 <= i < |ts| ==> TagRow(s, next + i, ts[i], pm))
    && (forall m :: m in s.members ==> m.0 in s.tags && m.1 in pm.Values)
  }

  lemma CreatedFromNothing(ts: seq<FileTag>, pm: IdMap, start: Tags, s: Tags)
    requires start.tags == map[] && start.members == {} && TagsCreated(start, ts, pm, s)
    ensures TagRows(start.next, ts, pm, s)
  {
    MembersRenamed(ts, pm, start, s);
    forall i | 0 <= i < |ts| ensures TagRow(s, start.next + i, ts[i], pm) {}
  }

  lemma TagsCopied(farm: Farm, next: Id, keys: seq<Id>, ts: seq<FileTag>, pm: IdMap, s: Tags)
    requires InjectiveIds(pm) && pm.Keys == farm.printers.Keys
    requires NoDuplicates(keys) && farm.tags.Keys == (set t | t in keys) && |ts| == |keys|
    requires forall i :: 0 <= i < |keys| ==> IsExportOf(farm, keys[i], ts[i])
    requires TagRows(next, ts, pm, s)
    ensures CopiedTags(farm, s, pm, TagIds(keys, next))
  {
    TagIdsConsecutive(keys, next);
    ConsecutiveIsBijection(keys, next, TagIds(keys, next), farm.tags.Keys, s.tags.Keys);
    EachTagCopied(farm, next, keys, ts, pm, s, TagIds(keys, next));
  }

  lemma EachTagCopied(farm: Farm, next: Id, keys: seq<Id>, ts: seq<FileTag>, pm: IdMap, s: Tags, tm: IdMap)
    requires InjectiveIds(pm) && Consecutive(keys, next, tm) && |ts| == |keys|
    requires forall i :: 0 <= i < |keys| ==> IsExportOf(farm, keys[i], ts[i]) && TagRow(s, next + i, ts[i], pm)
    ensures forall t :: t in keys ==> t in tm && CopiedTag(farm, s, pm, t, tm[t])
  {
    forall t | t in keys ensures t in tm && CopiedTag(farm, s, pm, t, tm[t]) {
      var i :| 0 <= i < |keys| && keys[i] == t;
      TagCopied(farm, t, ts[i], pm, s, next + i);
    }
  }

  ghost predicate CopiedTag(farm: Farm, s: Tags, pm: IdMap, t: Id, copy: Id) {
    && t in farm.tags && copy in s.tags && s.tags[copy] == Tag(farm.tags[t].name, None)
    && SameMembers(farm.members, s.members, pm, t, copy)
  }

  lemma TagCopied(farm: Farm, t: Id, copy: FileTag, pm: IdMap, s: Tags, id: Id)
    requires InjectiveIds(pm) && IsExportOf(farm, t, copy) && TagRow(s, id, copy, pm)
    ensures CopiedTag(farm, s, pm, t, id)
  {
    forall p | p in pm ensures (t, p) in farm.members <==> (id, pm[p]) in s.members {
      RenamedMember(farm, pm, t, p);
    }
  }

  lemma MembersRenamed(ts: seq<FileTag>, pm: IdMap, start: Tags, s: Tags)
    requires start.tags == map[] && TagsCreated(start, ts, pm, s)
    ensures forall m :: m in s.members ==> m.1 in pm.Values
  {
    forall m | m in s.members ensures m.1 in pm.Values {
      var i := m.0 - start.next;
      assert m == (start.next + i, m.1) && m.1 in MapMembers(pm, ts[i].printers);
    }
  }

  lemma TagIdsConsecutive(keys: seq<Id>, next: Id)
    requires NoDuplicates(keys)
    ensures Consecutive(keys, next, TagIds(keys, next))
  {
    assert forall i :: 0 <= i < |keys| ==> keys[i] !in keys[..i];
    forall k | k in keys ensures k in TagIds(keys, next) {
      var i :| 0 <= i < |keys| && keys[i] == k;
    }
  }

  lemma RenamedMember(farm: Farm, pm: IdMap, t: Id, p: Id)
    requires InjectiveIds(pm) && p in pm
    ensures pm[p] in MapMembers(pm, SortBy(MembersOf(farm.members, t), Ascending())) <==> (t, p) in farm.members
  {
    var ps := SortBy(MembersOf(farm.members, t), Ascending());
    assert p in ps <==> (t, p) in farm.members;
    if p in ps {
      var i :| 0 <= i < |ps| && ps[i] == p;
    }
    if pm[p] in MapMembers(pm, ps) {
      var i :| 0 <= i < |ps| && ps[i] in pm && pm[ps[i]] == pm[p];
    }
  }

  /** Round trip: importing the export of a farm, whose floor cache is fresh, into an empty farm where nothing
      fails gives the same printers, floors, cells, tags and memberships under new ids. */
  lemma RoundTrip(farm: Farm, target: Farm, printerStrategies: seq<PrinterStrategy>, floorStrategy: FloorStrategy)
    requires WellFormed(farm) && CacheFresh(farm.store) && WellFormed(target) && Empty(target)
    ensures var r := Import(target, Export(farm, printerStrategies, floorStrategy), {});
            exists tm :: Isomorphic(farm, r.farm, r.printerIdMap, r.floorIdMap, tm)
  {
    var file := Export(farm, printerStrategies, floorStrategy);
    ExportedFloorsClean(farm.store.db, Apply(farm.store, ListCache).cache);
    assert ValidFile(file);
    PrintersRoundTrip(farm, target, file);
    var printers := ImportPrinters(target, file, {});
    var store := target.store.(db := target.store.db.(printers := printers.rows.Keys));
    ConsistentWithMorePrinters(target.store.db, printers.rows.Keys);
    FloorsRoundTrip(farm, store, file, printers.ids);
    var tags := Tags(target.tags, target.nextTag, target.members);
    TagsRoundTrip(farm, tags, file, printers.ids);
    var r := Import(target, file, {});
    var tm := TagIds(SortBy(farm.tags.Keys, Ascending()), target.nextTag);
    assert WellFormed(r.farm);
    assert Isomorphic(farm, r.farm, r.printerIdMap, r.floorIdMap, tm);
  }
}
