/** The floor phase as a whole, and a second run of it over its own result. */
module YamlFloorPhase {
  import opened Common
  import opened Text
  import opened FloorGrid
  import opened FloorDb
  import opened FloorCache
  import opened Yaml
  import opened YamlFloors

  lemma {:induction false} FloorInsertsFromFile(floors: map<Id, Floor>, fs: seq<FileFloor>, strategy: FloorStrategy,
                                                f: FileFloor)
    ensures f in FloorsToInsert(floors, fs, strategy) <==> f in fs && MatchFloor(floors, f, strategy).None?
  {
    if fs != [] {
      FloorInsertsFromFile(floors, fs[..|fs| - 1], strategy, f);
      assert fs == fs[..|fs| - 1] + [fs[|fs| - 1]];
    }
  }

  lemma {:induction false} FloorUpdatesFromFile(floors: map<Id, Floor>, fs: seq<FileFloor>, strategy: FloorStrategy,
                                                u: Target<FileFloor>)
    ensures u in FloorsToUpdate(floors, fs, strategy)
            <==> u.value in fs && MatchFloor(floors, u.value, strategy) == Some(u.id)
  {
    if fs != [] {
      FloorUpdatesFromFile(floors, fs[..|fs| - 1], strategy, u);
      assert fs == fs[..|fs| - 1] + [fs[|fs| - 1]];
    }
  }

  lemma {:induction false} FloorInsertsNoDuplicates(floors: map<Id, Floor>, fs: seq<FileFloor>, strategy: FloorStrategy)
    requires NoDuplicates(fs)
    ensures NoDuplicates(FloorsToInsert(floors, fs, strategy))
  {
    if fs != [] {
      var (front, last) := (fs[..|fs| - 1], fs[|fs| - 1]);
      FloorInsertsNoDuplicates(floors, front, strategy);
      FloorInsertsFromFile(floors, front, strategy, last);
      if MatchFloor(floors, last, strategy).None? { AppendNoDuplicates(FloorsToInsert(floors, front, strategy), last); }
    }
  }

  lemma {:induction false} FloorUpdatesNoDuplicates(floors: map<Id, Floor>, fs: seq<FileFloor>, strategy: FloorStrategy)
    requires NoDuplicates(fs)
    ensures NoDuplicates(FloorsToUpdate(floors, fs, strategy))
  {
    if fs != [] {
      var (front, last) := (fs[..|fs| - 1], fs[|fs| - 1]);
      FloorUpdatesNoDuplicates(floors, front, strategy);
      var found := MatchFloor(floors, last, strategy);
      if found.Some? {
        FloorUpdatesFromFile(floors, front, strategy, Target(found.value, last));
        AppendNoDuplicates(FloorsToUpdate(floors, front, strategy), Target(found.value, last));
      }
    }
  }

  /** The two lists by name: floors of the file without, and with, a floor of that name in the farm. */
  lemma ListsByName(floors: map<Id, Floor>, fs: seq<FileFloor>)
    requires NoDuplicates(fs)
    ensures NoDuplicates(FloorsToInsert(floors, fs, FloorByName))
            && NoDuplicates(FloorsToUpdate(floors, fs, FloorByName))
    ensures forall f :: f in FloorsToInsert(floors, fs, FloorByName) <==> f in fs && FloorsNamed(floors, f.name) == {}
    ensures forall u ::
              u in FloorsToUpdate(floors, fs, FloorByName) <==>
              u.value in fs && Least(FloorsNamed(floors, u.value.name), u.id)
  {
    FloorInsertsNoDuplicates(floors, fs, FloorByName);
    FloorUpdatesNoDuplicates(floors, fs, FloorByName);
    forall f: FileFloor
      ensures f in FloorsToInsert(floors, fs, FloorByName) <==> f in fs && FloorsNamed(floors, f.name) == {}
    {
      FloorInsertsFromFile(floors, fs, FloorByName, f);
    }
    forall u: Target<FileFloor>
      ensures u in FloorsToUpdate(floors, fs, FloorByName)
              <==> u.value in fs && Least(FloorsNamed(floors, u.value.name), u.id)
    {
      FloorUpdatesFromFile(floors, fs, FloorByName, u);
      FirstIsLeast(FloorsNamed(floors, u.value.name), u.id);
    }
  }

  lemma InsertsCompatible(known: set<Id>, ids: IdMap, fs: seq<FileFloor>, inserts: seq<FileFloor>)
    requires Compatible(known, ids, fs) && NoDuplicates(inserts) && forall f :: f in inserts ==> f in fs
    ensures Compatible(known, ids, inserts)
  {
  }

  /** The matched floors may all be written, next to the created ones. */
  lemma UpdatesWritable(start: Db, db: Db, ids: IdMap, fs: seq<FileFloor>, inserts: seq<FileFloor>,
                        us: seq<Target<FileFloor>>)
    requires Consistent(start) && Compatible(start.printers, ids, fs) && NamesDiffer(fs)
             && CreatedSoFar(start, db, ids, inserts)
    requires forall f :: f in inserts ==> f in fs && FloorsNamed(start.floors, f.name) == {}
    requires NoDuplicates(us) && forall u :: u in us ==>
               u.value in fs && Least(FloorsNamed(start.floors, u.value.name), u.id)
    ensures AllWritable(db, ids, start.nextFloor, NewTargets(start.nextFloor, inserts), us)
  {
    var done := NewTargets(start.nextFloor, inserts);
    forall u | u in us ensures Writable(db, ids, start.nextFloor, done, u) {
      assert u.id in FloorsNamed(start.floors, u.value.name);
      forall d | d in done ensures d.id != u.id && Disjoint(ids, d.value, u.value) {
        var i :| 0 <= i < |done| && done[i] == d;
        assert inserts[i] in inserts;
      }
    }
    forall i, j | 0 <= i < j < |us| ensures us[i].id != us[j].id && Disjoint(ids, us[i].value, us[j].value) {
      SameTarget(start.floors, us[i], us[j]);
      assert us[i] in us && us[j] in us;
      assert us[i].value != us[j].value;
    }
  }

  /** Targets found by name coincide as soon as their rows or their floors do. */
  lemma SameTarget(floors: map<Id, Floor>, u: Target<FileFloor>, v: Target<FileFloor>)
    requires Least(FloorsNamed(floors, u.value.name), u.id) && Least(FloorsNamed(floors, v.value.name), v.id)
    ensures u.value == v.value ==> u == v
    ensures u.id == v.id ==> Lower(u.value.name) == Lower(v.value.name)
  {
  }

  /** Every floor of the file is written, and is what its name now finds. */
  ghost predicate Found(db: Db, ids: IdMap, firstNew: Id, f: FileFloor, id: Id) {
    Done(db, ids, firstNew, Target(id, f)) && Least(FloorsNamed(db.floors, f.name), id)
  }

  lemma FoundUpdated(start: Db, created: Db, db: Db, ids: IdMap, inserts: seq<FileFloor>, us: seq<Target<FileFloor>>,
                     u: Target<FileFloor>)
    requires CreatedSoFar(start, created, ids, inserts)
    requires UpdatedSoFar(created, db, ids, start.nextFloor, NewTargets(start.nextFloor, inserts) + us)
    requires Consistent(start) && u in us && MatchedByName(start, us)
    ensures Found(db, ids, start.nextFloor, u.value, u.id)
  {
    assert u in NewTargets(start.nextFloor, inserts) + us;
    forall k | k in FloorsNamed(db.floors, u.value.name) ensures u.id <= k {
      if k in start.floors {
        NameStays(start, created, db, ids, inserts, us, k);
        assert k in FloorsNamed(start.floors, u.value.name);
      }
    }
  }

  ghost predicate MatchedByName(start: Db, us: seq<Target<FileFloor>>) {
    forall u :: u in us ==> Least(FloorsNamed(start.floors, u.value.name), u.id)
  }

  /** A floor that was there keeps its name up to case, also when it is overwritten. */
  lemma NameStays(start: Db, created: Db, db: Db, ids: IdMap, inserts: seq<FileFloor>, us: seq<Target<FileFloor>>,
                  k: Id)
    requires CreatedSoFar(start, created, ids, inserts) && MatchedByName(start, us) && Consistent(start)
    requires UpdatedSoFar(created, db, ids, start.nextFloor, NewTargets(start.nextFloor, inserts) + us)
    requires k in start.floors
    ensures k in db.floors && Lower(db.floors[k].name) == Lower(start.floors[k].name)
  {
    var done := NewTargets(start.nextFloor, inserts) + us;
    if d :| d in done && d.id == k {
      assert d in us;
      assert Done(db, ids, start.nextFloor, d);
      assert k in FloorsNamed(start.floors, d.value.name);
    }
  }

  lemma FoundCreated(start: Db, created: Db, db: Db, ids: IdMap, inserts: seq<FileFloor>, us: seq<Target<FileFloor>>,
                     i: nat)
    requires CreatedSoFar(start, created, ids, inserts)
    requires UpdatedSoFar(created, db, ids, start.nextFloor, NewTargets(start.nextFloor, inserts) + us)
    requires i < |inserts| && FloorsNamed(start.floors, inserts[i].name) == {} && NoDuplicates(inserts)
    requires NamesDiffer(inserts) && MatchedByName(start, us) && Consistent(start)
    ensures Found(db, ids, start.nextFloor, inserts[i], start.nextFloor + i)
  {
    CreatedIsDone(start, created, db, ids, inserts, us, i);
    forall k | k in db.floors && Lower(db.floors[k].name) == Lower(inserts[i].name) ensures k == start.nextFloor + i {
      OnlyCreatedNamed(start, created, db, ids, inserts, us, i, k);
    }
  }

  lemma OnlyCreatedNamed(start: Db, created: Db, db: Db, ids: IdMap, inserts: seq<FileFloor>,
                         us: seq<Target<FileFloor>>, i: nat, k: Id)
    requires CreatedSoFar(start, created, ids, inserts)
    requires UpdatedSoFar(created, db, ids, start.nextFloor, NewTargets(start.nextFloor, inserts) + us)
    requires i < |inserts| && FloorsNamed(start.floors, inserts[i].name) == {} && NoDuplicates(inserts)
    requires NamesDiffer(inserts) && MatchedByName(start, us) && Consistent(start)
    requires k in db.floors && Lower(db.floors[k].name) == Lower(inserts[i].name)
    ensures k == start.nextFloor + i
  {
    if k in start.floors { NotNamedBefore(start, created, db, ids, inserts, us, inserts[i].name, k); }
    CreatedNamed(start, created, db, ids, inserts, us, i, k);
  }

  lemma CreatedIsDone(start: Db, created: Db, db: Db, ids: IdMap, inserts: seq<FileFloor>, us: seq<Target<FileFloor>>,
                      i: nat)
    requires UpdatedSoFar(created, db, ids, start.nextFloor, NewTargets(start.nextFloor, inserts) + us)
    requires i < |inserts|
    ensures Done(db, ids, start.nextFloor, Target(start.nextFloor + i, inserts[i]))
  {
    var done := NewTargets(start.nextFloor, inserts);
    assert done[i] == Target(start.nextFloor + i, inserts[i]) && done[i] in done + us;
  }

  lemma NotNamedBefore(start: Db, created: Db, db: Db, ids: IdMap, inserts: seq<FileFloor>, us: seq<Target<FileFloor>>,
                       name: string, k: Id)
    requires CreatedSoFar(start, created, ids, inserts) && MatchedByName(start, us) && Consistent(start)
    requires UpdatedSoFar(created, db, ids, start.nextFloor, NewTargets(start.nextFloor, inserts) + us)
    requires k in start.floors && FloorsNamed(start.floors, name) == {}
    ensures k in db.floors && Lower(db.floors[k].name) != Lower(name)
  {
    NameStays(start, created, db, ids, inserts, us, k);
    assert k !in FloorsNamed(start.floors, name);
  }

  lemma CreatedNamed(start: Db, created: Db, db: Db, ids: IdMap, inserts: seq<FileFloor>, us: seq<Target<FileFloor>>,
                     i: nat, k: Id)
    requires CreatedSoFar(start, created, ids, inserts) && NamesDiffer(inserts) && NoDuplicates(inserts)
    requires UpdatedSoFar(created, db, ids, start.nextFloor, NewTargets(start.nextFloor, inserts) + us)
    requires i < |inserts| && k in db.floors && k !in start.floors && Lower(db.floors[k].name) == Lower(inserts[i].name)
    ensures k == start.nextFloor + i
  {
    var j := k - start.nextFloor;
    CreatedIsDone(start, created, db, ids, inserts, us, j);
    assert inserts[j] in inserts && inserts[i] in inserts;
  }

  /** After the floor phase the database is consistent, and every floor of the file is found under its name
      with its own row and its own printers. */
  lemma PhaseWritesFloors(store: Store, file: File, ids: IdMap)
    requires Consistent(store.db) && Compatible(store.db.printers, ids, file.floors) && NamesDiffer(file.floors)
    requires GridOn(file.config) && file.config.floorStrategy == FloorByName
    ensures var db := ImportFloors(store, file, ids).store.db;
            && Consistent(db) && db.printers == store.db.printers
            && (forall f :: f in file.floors ==> exists id :: Found(db, ids, store.db.nextFloor, f, id))
  {
    var (start, fs) := (store.db, file.floors);
    var inserts := FloorsToInsert(start.floors, fs, FloorByName);
    var us := FloorsToUpdate(start.floors, fs, FloorByName);
    ListsByName(start.floors, fs);
    InsertsCompatible(start.printers, ids, fs, inserts);
    var created := CreateFloors(Floors(store, map[]), inserts, file.config, ids);
    CreatesFloors(Floors(store, map[]), inserts, file.config, ids);
    UpdatesWritable(start, created.store.db, ids, fs, inserts, us);
    UpdatesFloors(created, us, file.config, ids, start.nextFloor, NewTargets(start.nextFloor, inserts));
    var db := UpdateFloors(created, us, file.config, ids).store.db;
    forall f | f in fs ensures exists id :: Found(db, ids, start.nextFloor, f, id) {
      if FloorsNamed(start.floors, f.name) == {} {
        assert f in inserts;
        var i :| 0 <= i < |inserts| && inserts[i] == f;
        FoundCreated(start, created.store.db, db, ids, inserts, us, i);
        assert Found(db, ids, start.nextFloor, f, start.nextFloor + i);
      } else {
        var u := Target(First(FloorsNamed(start.floors, f.name)).value, f);
        FoundUpdated(start, created.store.db, db, ids, inserts, us, u);
        assert Found(db, ids, start.nextFloor, f, u.id);
      }
    }
  }

  // ---------- importing the same floors again ----------

  /** Writing a floor that is done changes nothing, in the database and in a refreshed cache. */
  lemma RewriteIsIdentity(store: Store, ids: IdMap, firstNew: Id, u: Target<FileFloor>)
    requires Consistent(store.db) && Done(store.db, ids, firstNew, u)
    requires Acceptable(store.db, u.value.name, Layout(ids, u.value))
    requires u.id in store.cache && store.cache[u.id] == ToDto(store.db, u.id)
    ensures Apply(store, Update(u.id, u.value.name, u.value.order, Layout(ids, u.value))) == store
  {
    ReinstallIsIdentity(store.db.grid, store.db.printers, u.id, Layout(ids, u.value));
  }

  lemma {:induction false} RewritesAreIdentity(s: Floors, us: seq<Target<FileFloor>>, config: Config, ids: IdMap,
                                               firstNew: Id)
    requires Consistent(s.store.db) && GridOn(config)
    requires forall u :: u in us ==>
               Done(s.store.db, ids, firstNew, u) && Acceptable(s.store.db, u.value.name, Layout(ids, u.value))
                                     && u.id in s.store.cache && s.store.cache[u.id] == ToDto(s.store.db, u.id)
    ensures UpdateFloors(s, us, config, ids).store == s.store
  {
    if us != [] {
      RewritesAreIdentity(s, us[..|us| - 1], config, ids, firstNew);
      assert us[|us| - 1] in us;
      RewriteIsIdentity(s.store, ids, firstNew, us[|us| - 1]);
    }
  }

  lemma {:induction false} NothingToInsert(floors: map<Id, Floor>, fs: seq<FileFloor>)
    requires forall f :: f in fs ==> FloorsNamed(floors, f.name) != {}
    ensures FloorsToInsert(floors, fs, FloorByName) == []
  {
    if fs != [] {
      NothingToInsert(floors, fs[..|fs| - 1]);
      assert fs[|fs| - 1] in fs;
    }
  }

  /** Importing the floors a second time changes neither database nor cache. */
  lemma SecondFloorPhaseIsIdentity(store: Store, file: File, ids: IdMap, firstNew: Id)
    requires Consistent(store.db) && Compatible(store.db.printers, ids, file.floors)
    requires GridOn(file.config) && file.config.floorStrategy == FloorByName
    requires forall f :: f in file.floors ==> exists id :: Found(store.db, ids, firstNew, f, id)
    requires forall id :: id in store.db.floors ==> id in store.cache && store.cache[id] == ToDto(store.db, id)
    ensures ImportFloors(store, file, ids).store == store
  {
    var (floors, fs) := (store.db.floors, file.floors);
    var us := FloorsToUpdate(floors, fs, FloorByName);
    ListsByName(floors, fs);
    forall f | f in fs ensures FloorsNamed(floors, f.name) != {} {
      var id :| Found(store.db, ids, firstNew, f, id);
    }
    NothingToInsert(floors, fs);
    forall u | u in us
      ensures Done(store.db, ids, firstNew, u) && Acceptable(store.db, u.value.name, Layout(ids, u.value))
    {
      var id :| Found(store.db, ids, firstNew, u.value, id);
      assert id == u.id;
    }
    RewritesAreIdentity(Floors(store, map[]), us, file.config, ids, firstNew);
    assert Apply(store, LoadStore) == store;
  }
}
