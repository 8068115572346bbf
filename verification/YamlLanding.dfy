/** Which floors and tags of the farm an import writes, and with what. */
module YamlLanding {
  import opened Common
  import opened Text
  import opened FloorGrid
  import opened FloorDb
  import opened FloorCache
  import opened FloorLaws
  import opened Yaml
  import opened YamlFloors
  import opened YamlFloorPhase
  import opened YamlTwice
  import opened YamlMatching

  // ---------- tags ----------

  ghost predicate TagKnown(tags: map<Id, Tag>, name: string) {
    exists t :: t in tags && Lower(tags[t].name) == Lower(name)
  }

  /** The first n tags of the file are new; the one behind them, if there is one, is known. */
  ghost predicate NewTags(tags: map<Id, Tag>, ts: seq<FileTag>, n: nat) {
    && n <= |ts| && (forall i :: 0 <= i < n ==> !TagKnown(tags, ts[i].name))
    && (n < |ts| ==> TagKnown(tags, ts[n].name))
  }

  /** Printer p is renamed to from one of these file ids. */
  ghost predicate RenamedFromOne(ids: IdMap, files: seq<Id>, p: Id) {
    exists i :: 0 <= i < |files| && files[i] in ids && ids[files[i]] == p
  }

  ghost predicate LeastTag(tags: map<Id, Tag>, name: string, t: Id) {
    && t in tags && Lower(tags[t].name) == Lower(name)
    && forall u :: u in tags && Lower(tags[u].name) == Lower(name) ==> t <= u
  }

  /** The tags afterwards: old ones as they were, then the n new ones with name, colour and renamed members; the known
      tag behind them has exactly its renamed members, every other old tag the members it had. */
  ghost predicate TagsImported(start: Tags, ts: seq<FileTag>, ids: IdMap, n: nat, s: Tags)
    requires n <= |ts|
  {
    && s.next == start.next + n
    && (forall t :: t in s.tags <==> t in start.tags || start.next <= t < s.next)
    && (forall t :: t in start.tags ==> s.tags[t] == start.tags[t])
    && (forall i :: 0 <= i < n ==> s.tags[start.next + i] == Tag(ts[i].name, ts[i].color))
    && (forall i, p: Id :: 0 <= i < n ==>
          ((start.next + i, p) in s.members <==> RenamedFromOne(ids, ts[i].printers, p)))
    && (forall t, p: Id :: t in start.tags ==>
          ((t, p) in s.members <==>
           if n < |ts| && LeastTag(start.tags, ts[n].name, t) then RenamedFromOne(ids, ts[n].printers, p)
           else (t, p) in start.members))
    && (forall m :: m in s.members ==> m.0 in s.tags)
  }

  lemma {:induction false} TagsSplit(tags: map<Id, Tag>, ts: seq<FileTag>) returns (n: nat)
    ensures NewTags(tags, ts, n) && TagsToInsert(tags, ts) == ts[..n]
    ensures n == |ts| ==> TagsToUpdate(tags, ts) == []
    ensures n < |ts| ==> exists t :: LeastTag(tags, ts[n].name, t) && TagsToUpdate(tags, ts) == [Target(t, ts[n])]
  {
    if ts == [] {
      n := 0;
    } else {
      var found := First(TagsNamed(tags, ts[0].name));
      if found.Some? {
        n := 0;
        assert forall u :: u in tags && Lower(tags[u].name) == Lower(ts[0].name) ==> u in TagsNamed(tags, ts[0].name);
        assert LeastTag(tags, ts[0].name, found.value);
      } else {
        forall t | t in tags ensures Lower(tags[t].name) != Lower(ts[0].name) {
          assert t !in TagsNamed(tags, ts[0].name);
        }
        var rest := TagsSplit(tags, ts[1..]);
        n := rest + 1;
        assert ts[..n] == [ts[0]] + ts[1..][..rest];
        forall i | 0 <= i < n ensures !TagKnown(tags, ts[i].name) {
          if i > 0 { assert ts[i] == ts[1..][i - 1]; }
        }
        if n < |ts| { assert ts[n] == ts[1..][rest]; }
      }
    }
  }

  lemma MembersAreRenamed(ids: IdMap, files: seq<Id>, p: Id)
    ensures p in MapMembers(ids, files) <==> RenamedFromOne(ids, files, p)
  {
  }

  /** The tag phase: tags up to the first known one are created, that one is updated, the rest are dropped. */
  lemma ImportedTags(start: Tags, file: File, ids: IdMap) returns (n: nat)
    requires TagsWellFormed(start)
    ensures NewTags(start.tags, file.tags, n) && TagsImported(start, file.tags, ids, n, ImportTags(start, file, ids))
  {
    var ts := file.tags;
    n := TagsSplit(start.tags, ts);
    CreatesTags(start, ts[..n], ids);
    var created := CreateTags(start, ts[..n], ids);
    CreatedMembers(start, ts[..n], ids, created);
    if n == |ts| {
      assert ts[..n] == ts;
    } else {
      var t :| LeastTag(start.tags, ts[n].name, t) && TagsToUpdate(start.tags, ts) == [Target(t, ts[n])];
      OneTagUpdate(created, ts[n], t, ids);
      UpdatedMembers(start, ts, ids, n, t, created);
    }
  }

  lemma CreatedMembers(start: Tags, ts: seq<FileTag>, ids: IdMap, s: Tags)
    requires TagsWellFormed(start) && TagsCreated(start, ts, ids, s)
    ensures TagsImported(start, ts, ids, |ts|, s)
  {
    forall i, p: Id | 0 <= i < |ts|
      ensures (start.next + i, p) in s.members <==> RenamedFromOne(ids, ts[i].printers, p)
    {
      MembersAreRenamed(ids, ts[i].printers, p);
    }
  }

  lemma UpdatedMembers(start: Tags, ts: seq<FileTag>, ids: IdMap, n: nat, t: Id, s: Tags)
    requires TagsWellFormed(start) && n < |ts| && LeastTag(start.tags, ts[n].name, t)
    requires TagsImported(start, ts[..n], ids, n, s)
    ensures TagsImported(start, ts, ids, n, s.(members := SetMembers(s.members, t, MapMembers(ids, ts[n].printers))))
  {
    var wanted := MapMembers(ids, ts[n].printers);
    var members := SetMembers(s.members, t, wanted);
    SetMembersExactly(s.members, t, wanted);
    forall u: Id, p: Id | u != t ensures (u, p) in members <==> (u, p) in s.members {
      assert (u, p) !in Paired(t, wanted);
    }
    forall p: Id ensures p in wanted <==> RenamedFromOne(ids, ts[n].printers, p) {
      MembersAreRenamed(ids, ts[n].printers, p);
    }
    forall m | m in members ensures m.0 in s.tags {
      if m.0 != t { assert m == (m.0, m.1) && (m.0, m.1) in s.members; }
    }
  }

  // ---------- floors ----------

  /** What the strategies compare; ids are never compared. */
  predicate SameFloor(strategy: FloorStrategy, existing: Floor, f: FileFloor) {
    match strategy
    case FloorByName => Lower(existing.name) == Lower(f.name)
    case FloorByOrder => existing.order == f.order
    case FloorById => false
  }

  ghost predicate LeastFloor(floors: map<Id, Floor>, f: FileFloor, strategy: FloorStrategy, id: Id) {
    && id in floors && SameFloor(strategy, floors[id], f)
    && forall k :: k in floors && SameFloor(strategy, floors[k], f) ==> id <= k
  }

  ghost predicate FloorUnmatched(floors: map<Id, Floor>, f: FileFloor, strategy: FloorStrategy) {
    forall k :: k in floors ==> !SameFloor(strategy, floors[k], f)
  }

  /** No two floors of the file can match one floor of the farm. */
  ghost predicate KeysDiffer(fs: seq<FileFloor>, strategy: FloorStrategy) {
    forall i, j :: 0 <= i < j < |fs| ==> !SameKey(strategy, fs[i], fs[j])
  }

  predicate SameKey(strategy: FloorStrategy, f: FileFloor, g: FileFloor) {
    match strategy
    case FloorByName => Lower(f.name) == Lower(g.name)
    case FloorByOrder => f.order == g.order
    case FloorById => false
  }

  lemma MatchFloorIs(floors: map<Id, Floor>, f: FileFloor, strategy: FloorStrategy)
    ensures MatchFloor(floors, f, strategy).None? <==> FloorUnmatched(floors, f, strategy)
    ensures forall id: Id :: MatchFloor(floors, f, strategy) == Some(id) <==> LeastFloor(floors, f, strategy, id)
  {
    assert forall k :: k in FloorsNamed(floors, f.name) <==> k in floors && SameFloor(FloorByName, floors[k], f);
    assert forall k :: k in FloorsAt(floors, f.order) <==> k in floors && SameFloor(FloorByOrder, floors[k], f);
  }

  /** The floors that match nothing, in order. */
  ghost function FloorNewcomers(floors: map<Id, Floor>, fs: seq<FileFloor>, strategy: FloorStrategy): seq<FileFloor> {
    if fs == [] then [] else
      FloorNewcomers(floors, fs[..|fs| - 1], strategy)
      + if FloorUnmatched(floors, fs[|fs| - 1], strategy) then [fs[|fs| - 1]] else []
  }

  lemma {:induction false} NewcomersInserted(floors: map<Id, Floor>, fs: seq<FileFloor>, strategy: FloorStrategy)
    ensures FloorsToInsert(floors, fs, strategy) == FloorNewcomers(floors, fs, strategy)
  {
    if fs != [] {
      NewcomersInserted(floors, fs[..|fs| - 1], strategy);
      MatchFloorIs(floors, fs[|fs| - 1], strategy);
    }
  }

  /** A floor of the file puts printer p into this cell. */
  ghost predicate PlacedBy(ids: IdMap, f: FileFloor, p: Id, x: int, y: int) {
    exists i :: 0 <= i < |f.printers| && f.printers[i].printerId in ids && ids[f.printers[i].printerId] == p
                && f.printers[i].x == x && f.printers[i].y == y
  }

  /** Some printer on the floor has been imported. */
  ghost predicate AnyKnown(ids: IdMap, f: FileFloor) {
    exists i :: 0 <= i < |f.printers| && f.printers[i].printerId in ids
  }

  /** The row has the file floor's name and order, and shows exactly its known printers in their cells; a floor that
      was there keeps its printers when the file knows none for it. */
  ghost predicate FloorWritten(db: Db, ids: IdMap, f: FileFloor, id: Id, isNew: bool) {
    && id in db.floors && db.floors[id].name == f.name && db.floors[id].order == f.order
    && (isNew || AnyKnown(ids, f) ==>
          forall p, x, y :: Stands(db.grid, p, Cell(id, x, y)) <==> PlacedBy(ids, f, p, x, y))
  }

  /** Matched floors are overwritten, unmatched ones added, and the others keep name and order. */
  ghost predicate FloorsImported(start: Db, db: Db, ids: IdMap, fs: seq<FileFloor>, strategy: FloorStrategy) {
    var newcomers := FloorNewcomers(start.floors, fs, strategy);
    && Consistent(db) && db.printers == start.printers && db.nextFloor == start.nextFloor + |newcomers|
    && (forall id :: id in db.floors <==> id in start.floors || start.nextFloor <= id < db.nextFloor)
    && (forall f, id :: f in fs && LeastFloor(start.floors, f, strategy, id) ==> FloorWritten(db, ids, f, id, false))
    && (forall m :: 0 <= m < |newcomers| ==> FloorWritten(db, ids, newcomers[m], start.nextFloor + m, true))
    && (forall id :: id in start.floors && (forall f :: f in fs ==> !LeastFloor(start.floors, f, strategy, id)) ==>
          db.floors[id] == start.floors[id])
  }

  lemma DoneIsWritten(db: Db, ids: IdMap, firstNew: Id, f: FileFloor, id: Id)
    requires Done(db, ids, firstNew, Target(id, f))
    ensures FloorWritten(db, ids, f, id, id >= firstNew)
  {
    forall p, x, y ensures Entry(p, x, y) in Layout(ids, f) <==> PlacedBy(ids, f, p, x, y) {
      MapEntriesMember(ids, f.printers, Entry(p, x, y));
    }
    if AnyKnown(ids, f) {
      var i :| 0 <= i < |f.printers| && f.printers[i].printerId in ids;
      var e := f.printers[i];
      assert PlacedBy(ids, f, ids[e.printerId], e.x, e.y);
      assert Entry(ids[e.printerId], e.x, e.y) in Layout(ids, f);
    }
  }

  /** The matched floors may all be written, next to the created ones. */
  lemma MatchedAreWritable(start: Db, db: Db, ids: IdMap, fs: seq<FileFloor>, strategy: FloorStrategy,
                           inserts: seq<FileFloor>, us: seq<Target<FileFloor>>)
    requires Consistent(start) && Compatible(start.printers, ids, fs) && KeysDiffer(fs, strategy)
    requires CreatedSoFar(start, db, ids, inserts) && NoDuplicates(us)
    requires forall f :: f in inserts ==> f in fs && FloorUnmatched(start.floors, f, strategy)
    requires forall u :: u in us ==> u.value in fs && LeastFloor(start.floors, u.value, strategy, u.id)
    ensures AllWritable(db, ids, start.nextFloor, NewTargets(start.nextFloor, inserts), us)
  {
    var done := NewTargets(start.nextFloor, inserts);
    forall u | u in us ensures Writable(db, ids, start.nextFloor, done, u) {
      forall d | d in done ensures d.id != u.id && Disjoint(ids, d.value, u.value) {
        var i :| 0 <= i < |done| && done[i] == d;
        assert inserts[i] in inserts;
      }
    }
    forall i, j | 0 <= i < j < |us| ensures us[i].id != us[j].id && Disjoint(ids, us[i].value, us[j].value) {
      assert us[i] in us && us[j] in us;
      SameRowSameFloor(start.floors, fs, strategy, us[i], us[j]);
    }
  }

  /** Targets coincide as soon as their rows or their floors do. */
  lemma SameRowSameFloor(floors: map<Id, Floor>, fs: seq<FileFloor>, strategy: FloorStrategy, u: Target<FileFloor>,
                         v: Target<FileFloor>)
    requires KeysDiffer(fs, strategy) && u.value in fs && v.value in fs
    requires LeastFloor(floors, u.value, strategy, u.id) && LeastFloor(floors, v.value, strategy, v.id)
    ensures u.value == v.value || u.id == v.id ==> u == v
  {
    var i :| 0 <= i < |fs| && fs[i] == u.value;
    var j :| 0 <= j < |fs| && fs[j] == v.value;
  }

  /** Every strategy: the two lists are the matched and the unmatched floors. */
  lemma ListsByStrategy(floors: map<Id, Floor>, fs: seq<FileFloor>, strategy: FloorStrategy)
    requires NoDuplicates(fs)
    ensures NoDuplicates(FloorsToInsert(floors, fs, strategy)) && NoDuplicates(FloorsToUpdate(floors, fs, strategy))
    ensures forall f :: f in FloorsToInsert(floors, fs, strategy) <==> f in fs && FloorUnmatched(floors, f, strategy)
    ensures forall u :: u in FloorsToUpdate(floors, fs, strategy) <==>
                        u.value in fs && LeastFloor(floors, u.value, strategy, u.id)
  {
    FloorInsertsNoDuplicates(floors, fs, strategy);
    FloorUpdatesNoDuplicates(floors, fs, strategy);
    forall f: FileFloor
      ensures f in FloorsToInsert(floors, fs, strategy) <==> f in fs && FloorUnmatched(floors, f, strategy) {
      FloorInsertsFromFile(floors, fs, strategy, f);
      MatchFloorIs(floors, f, strategy);
    }
    forall u: Target<FileFloor>
      ensures u in FloorsToUpdate(floors, fs, strategy) <==>
              u.value in fs && LeastFloor(floors, u.value, strategy, u.id)
    {
      FloorUpdatesFromFile(floors, fs, strategy, u);
      MatchFloorIs(floors, u.value, strategy);
    }
  }

  /** The floor phase, for every comparison strategy. */
  lemma ImportedFloors(store: Store, file: File, ids: IdMap)
    requires Consistent(store.db) && Compatible(store.db.printers, ids, file.floors) && GridOn(file.config)
    requires KeysDiffer(file.floors, file.config.floorStrategy)
    ensures FloorsImported(store.db, ImportFloors(store, file, ids).store.db, ids, file.floors,
                           file.config.floorStrategy)
  {
    var (start, fs, strategy) := (store.db, file.floors, file.config.floorStrategy);
    var inserts := FloorsToInsert(start.floors, fs, strategy);
    var us := FloorsToUpdate(start.floors, fs, strategy);
    ListsByStrategy(start.floors, fs, strategy);
    NewcomersInserted(start.floors, fs, strategy);
    InsertsCompatible(start.printers, ids, fs, inserts);
    var created := CreateFloors(Floors(store, map[]), inserts, file.config, ids);
    CreatesFloors(Floors(store, map[]), inserts, file.config, ids);
    MatchedAreWritable(start, created.store.db, ids, fs, strategy, inserts, us);
    UpdatesFloors(created, us, file.config, ids, start.nextFloor, NewTargets(start.nextFloor, inserts));
    WrittenInPhase(start, created.store.db, UpdateFloors(created, us, file.config, ids).store.db, ids, fs, strategy,
                   inserts, us);
  }

  lemma WrittenInPhase(start: Db, created: Db, db: Db, ids: IdMap, fs: seq<FileFloor>, strategy: FloorStrategy,
                       inserts: seq<FileFloor>, us: seq<Target<FileFloor>>)
    requires Consistent(start) && CreatedSoFar(start, created, ids, inserts)
    requires inserts == FloorNewcomers(start.floors, fs, strategy)
    requires UpdatedSoFar(created, db, ids, start.nextFloor, NewTargets(start.nextFloor, inserts) + us)
    requires forall u :: u in us <==> u.value in fs && LeastFloor(start.floors, u.value, strategy, u.id)
    ensures FloorsImported(start, db, ids, fs, strategy)
  {
    var done := NewTargets(start.nextFloor, inserts) + us;
    forall f, id | f in fs && LeastFloor(start.floors, f, strategy, id) ensures FloorWritten(db, ids, f, id, false) {
      assert Target(id, f) in us && Target(id, f) in done;
      DoneIsWritten(db, ids, start.nextFloor, f, id);
    }
    forall m | 0 <= m < |inserts| ensures FloorWritten(db, ids, inserts[m], start.nextFloor + m, true) {
      assert done[m] == Target(start.nextFloor + m, inserts[m]) && done[m] in done;
      DoneIsWritten(db, ids, start.nextFloor, inserts[m], start.nextFloor + m);
    }
    forall id | id in start.floors && (forall f :: f in fs ==> !LeastFloor(start.floors, f, strategy, id))
      ensures db.floors[id] == start.floors[id]
    {
      forall d | d in done ensures d.id != id {
        if d in us { assert LeastFloor(start.floors, d.value, strategy, d.id); }
      }
    }
  }

  // ---------- what floor ids are renamed to ----------

  ghost predicate FloorIdsDiffer(fs: seq<FileFloor>) {
    forall i, j :: 0 <= i < j < |fs| ==> fs[i].id != fs[j].id
  }

  lemma FloorIdsDifferPrefix(front: seq<FileFloor>, f: FileFloor)
    requires FloorIdsDiffer(front + [f])
    ensures FloorIdsDiffer(front) && !HasFloorId(front, f.id)
  {
    var fs := front + [f];
    assert fs[|front|] == f && forall i :: 0 <= i < |front| ==> fs[i] == front[i];
  }

  ghost predicate HasFloorId(fs: seq<FileFloor>, k: Id) {
    exists i :: 0 <= i < |fs| && fs[i].id == k
  }

  /** Created floors get the next ids; nothing else is renamed. */
  ghost predicate FloorIdsCreated(before: IdMap, next: Id, fs: seq<FileFloor>, r: IdMap) {
    && (forall i {:trigger Lookup(r, fs[i].id)} :: 0 <= i < |fs| ==> Lookup(r, fs[i].id) == Some(next + i))
    && (forall k :: !HasFloorId(fs, k) ==> Lookup(r, k) == Lookup(before, k))
  }

  /** The next floor may be created, under the next id. */
  lemma CreateReady(start: Floors, front: seq<FileFloor>, f: FileFloor, config: Config, ids: IdMap)
    requires Consistent(start.store.db) && GridOn(config) && Compatible(start.store.db.printers, ids, front + [f])
    ensures Compatible(start.store.db.printers, ids, front)
    ensures var db := CreateFloors(start, front, config, ids).store.db;
            && Consistent(db) && Acceptable(db, f.name, Layout(ids, f))
            && db.nextFloor == start.store.db.nextFloor + |front|
  {
    CompatiblePrefix(start.store.db.printers, ids, front, f);
    CreatesFloors(start, front, config, ids);
  }

  lemma {:induction false} CreatesRenameFloors(start: Floors, fs: seq<FileFloor>, config: Config, ids: IdMap)
    requires Consistent(start.store.db) && GridOn(config) && Compatible(start.store.db.printers, ids, fs)
    requires FloorIdsDiffer(fs)
    ensures FloorIdsCreated(start.ids, start.store.db.nextFloor, fs, CreateFloors(start, fs, config, ids).ids)
  {
    if fs != [] {
      var (front, f) := (fs[..|fs| - 1], fs[|fs| - 1]);
      assert fs == front + [f];
      FloorIdsDifferPrefix(front, f);
      CreateReady(start, front, f, config, ids);
      CreatesRenameFloors(start, front, config, ids);
      OneMoreCreateRenames(start, front, f, config, ids, CreateFloors(start, front, config, ids));
    }
  }

  lemma OneMoreCreateRenames(start: Floors, front: seq<FileFloor>, f: FileFloor, config: Config, ids: IdMap,
                             before: Floors)
    requires before == CreateFloors(start, front, config, ids) && GridOn(config)
    requires Consistent(before.store.db) && Acceptable(before.store.db, f.name, Layout(ids, f))
    requires before.store.db.nextFloor == start.store.db.nextFloor + |front|
    requires FloorIdsCreated(start.ids, start.store.db.nextFloor, front, before.ids)
    requires !HasFloorId(front, f.id)
    ensures FloorIdsCreated(start.ids, start.store.db.nextFloor, front + [f],
                            CreateFloors(start, front + [f], config, ids).ids)
  {
    var next := start.store.db.nextFloor + |front|;
    NextFloorId(start, front, f, config, ids, before, next);
    OneMoreFloorId(front, f, before.ids, start.ids, start.store.db.nextFloor, next, before.ids[f.id := next]);
  }

  lemma NextFloorId(start: Floors, front: seq<FileFloor>, f: FileFloor, config: Config, ids: IdMap, before: Floors,
                    next: Id)
    requires before == CreateFloors(start, front, config, ids) && GridOn(config)
    requires Consistent(before.store.db) && Acceptable(before.store.db, f.name, Layout(ids, f))
    requires next == before.store.db.nextFloor
    ensures CreateFloors(start, front + [f], config, ids).ids == before.ids[f.id := next]
  {
    CreateFloorAppend(start, front, f, config, ids);
    CreateRenames(before, f, config, ids);
  }

  lemma CreateRenames(s: Floors, f: FileFloor, config: Config, ids: IdMap)
    requires Consistent(s.store.db) && GridOn(config) && Acceptable(s.store.db, f.name, Layout(ids, f))
    ensures CreateOneFloor(s, f, config, ids).ids == s.ids[f.id := s.store.db.nextFloor]
  {
    CreateShows(s.store.db, f.name, f.order, Layout(ids, f));
  }

  lemma UpdateRenames(s: Floors, u: Target<FileFloor>, config: Config, ids: IdMap)
    requires Consistent(s.store.db) && GridOn(config) && u.id in s.store.db.floors
    requires Acceptable(s.store.db, u.value.name, Layout(ids, u.value))
    ensures UpdateOneFloor(s, u, config, ids).ids == s.ids[u.value.id := u.id]
  {
    UpdateShows(s.store.db, u.id, u.value.name, u.value.order, Layout(ids, u.value));
  }

  lemma OneMoreFloorId(front: seq<FileFloor>, f: FileFloor, before: IdMap, start: IdMap, next: Id, given: Id, r: IdMap)
    requires !HasFloorId(front, f.id) && FloorIdsCreated(start, next, front, before)
    requires given == next + |front| && r == before[f.id := given]
    ensures FloorIdsCreated(start, next, front + [f], r)
  {
    var fs := front + [f];
    assert fs[|front|] == f && forall i :: 0 <= i < |front| ==> fs[i] == front[i];
    forall k | !HasFloorId(fs, k) ensures Lookup(r, k) == Lookup(start, k) {
      forall i | 0 <= i < |front| ensures front[i].id != k { assert fs[i].id != k; }
      assert fs[|front|].id != k && !HasFloorId(front, k);
    }
    forall i | 0 <= i < |fs| ensures Lookup(r, fs[i].id) == Some(next + i) {
      if i < |front| { assert Lookup(before, front[i].id) == Some(next + i); }
    }
  }

  ghost predicate TargetIdsDiffer(us: seq<Target<FileFloor>>) {
    forall i, j :: 0 <= i < j < |us| ==> us[i].value.id != us[j].value.id
  }

  lemma TargetIdsDifferPrefix(front: seq<Target<FileFloor>>, u: Target<FileFloor>)
    requires TargetIdsDiffer(front + [u])
    ensures TargetIdsDiffer(front) && forall v :: v in front ==> v.value.id != u.value.id
  {
    var us := front + [u];
    assert us[|front|] == u && forall i :: 0 <= i < |front| ==> us[i] == front[i];
  }

  /** Overwritten floors are renamed to their rows; nothing else is. */
  ghost predicate FloorIdsUpdated(before: IdMap, us: seq<Target<FileFloor>>, r: IdMap) {
    && (forall u :: u in us ==> Lookup(r, u.value.id) == Some(u.id))
    && (forall k :: (forall u :: u in us ==> u.value.id != k) ==> Lookup(r, k) == Lookup(before, k))
  }

  lemma OneMoreTargetId(front: seq<Target<FileFloor>>, u: Target<FileFloor>, start: IdMap, before: IdMap)
    requires FloorIdsUpdated(start, front, before) && forall v :: v in front ==> v.value.id != u.value.id
    ensures FloorIdsUpdated(start, front + [u], before[u.value.id := u.id])
  {
    var us := front + [u];
    assert u in us && forall v :: v in front ==> v in us;
    forall k | forall v :: v in us ==> v.value.id != k
      ensures Lookup(before[u.value.id := u.id], k) == Lookup(start, k) {
      assert u.value.id != k;
    }
  }

  /** The next floor may be overwritten. */
  lemma UpdateReady(start: Floors, front: seq<Target<FileFloor>>, u: Target<FileFloor>, config: Config, ids: IdMap,
                    firstNew: Id, done: seq<Target<FileFloor>>)
    requires Consistent(start.store.db) && GridOn(config) && AllDone(start.store.db, ids, firstNew, done)
    requires AllWritable(start.store.db, ids, firstNew, done, front + [u])
    ensures AllWritable(start.store.db, ids, firstNew, done, front)
    ensures var db := UpdateFloors(start, front, config, ids).store.db;
            Consistent(db) && u.id in db.floors && Acceptable(db, u.value.name, Layout(ids, u.value))
  {
    WritablePrefix(start.store.db, ids, firstNew, done, front, u);
    UpdatesFloors(start, front, config, ids, firstNew, done);
    StillWritable(start.store.db, UpdateFloors(start, front, config, ids).store.db, ids, firstNew, done, front, u);
  }

  lemma {:induction false} UpdatesRenameFloors(start: Floors, us: seq<Target<FileFloor>>, config: Config, ids: IdMap,
                                               firstNew: Id, done: seq<Target<FileFloor>>)
    requires Consistent(start.store.db) && GridOn(config) && AllDone(start.store.db, ids, firstNew, done)
    requires AllWritable(start.store.db, ids, firstNew, done, us) && TargetIdsDiffer(us)
    ensures FloorIdsUpdated(start.ids, us, UpdateFloors(start, us, config, ids).ids)
  {
    if us != [] {
      var (front, u) := (us[..|us| - 1], us[|us| - 1]);
      assert us == front + [u];
      TargetIdsDifferPrefix(front, u);
      UpdateReady(start, front, u, config, ids, firstNew, done);
      UpdatesRenameFloors(start, front, config, ids, firstNew, done);
      OneMoreUpdateRenames(start, front, u, config, ids, UpdateFloors(start, front, config, ids));
    }
  }

  lemma OneMoreUpdateRenames(start: Floors, front: seq<Target<FileFloor>>, u: Target<FileFloor>, config: Config,
                             ids: IdMap, before: Floors)
    requires before == UpdateFloors(start, front, config, ids) && GridOn(config)
    requires Consistent(before.store.db) && u.id in before.store.db.floors
    requires Acceptable(before.store.db, u.value.name, Layout(ids, u.value))
    requires FloorIdsUpdated(start.ids, front, before.ids) && forall v :: v in front ==> v.value.id != u.value.id
    ensures FloorIdsUpdated(start.ids, front + [u], UpdateFloors(start, front + [u], config, ids).ids)
  {
    UpdateFloorAppend(start, front, u, config, ids);
    UpdateRenames(before, u, config, ids);
    OneMoreTargetId(front, u, start.ids, before.ids);
  }

  ghost predicate FloorIdsImported(start: Db, fs: seq<FileFloor>, strategy: FloorStrategy, r: IdMap) {
    var newcomers := FloorNewcomers(start.floors, fs, strategy);
    && (forall f, id: Id :: f in fs && LeastFloor(start.floors, f, strategy, id) ==> Lookup(r, f.id) == Some(id))
    && (forall m :: 0 <= m < |newcomers| ==> Lookup(r, newcomers[m].id) == Some(start.nextFloor + m))
  }

  /** The floor ids an import returns: of a matched floor the row it matched, of the others their new rows. */
  lemma ImportedFloorIds(store: Store, file: File, ids: IdMap)
    requires Consistent(store.db) && Compatible(store.db.printers, ids, file.floors) && GridOn(file.config)
    requires KeysDiffer(file.floors, file.config.floorStrategy) && FloorIdsDiffer(file.floors)
    ensures FloorIdsImported(store.db, file.floors, file.config.floorStrategy, ImportFloors(store, file, ids).ids)
  {
    var (start, fs, strategy) := (store.db, file.floors, file.config.floorStrategy);
    var inserts := FloorsToInsert(start.floors, fs, strategy);
    var us := FloorsToUpdate(start.floors, fs, strategy);
    ListsByStrategy(start.floors, fs, strategy);
    NewcomersInserted(start.floors, fs, strategy);
    InsertsCompatible(start.printers, ids, fs, inserts);
    ListIdsDiffer(start.floors, fs, strategy, inserts, us);
    var created := CreateFloors(Floors(store, map[]), inserts, file.config, ids);
    CreatesFloors(Floors(store, map[]), inserts, file.config, ids);
    CreatesRenameFloors(Floors(store, map[]), inserts, file.config, ids);
    MatchedAreWritable(start, created.store.db, ids, fs, strategy, inserts, us);
    UpdatesRenameFloors(created, us, file.config, ids, start.nextFloor, NewTargets(start.nextFloor, inserts));
    FloorIdsCombine(start, fs, strategy, inserts, us, map[], created.ids,
                    UpdateFloors(created, us, file.config, ids).ids);
  }

  lemma FloorIdsCombine(start: Db, fs: seq<FileFloor>, strategy: FloorStrategy, inserts: seq<FileFloor>,
                        us: seq<Target<FileFloor>>, before: IdMap, created: IdMap, r: IdMap)
    requires inserts == FloorNewcomers(start.floors, fs, strategy)
    requires FloorIdsCreated(before, start.nextFloor, inserts, created)
    requires FloorIdsUpdated(created, us, r)
    requires forall f, u :: f in inserts && u in us ==> f.id != u.value.id
    requires forall u :: u in us <==> u.value in fs && LeastFloor(start.floors, u.value, strategy, u.id)
    ensures FloorIdsImported(start, fs, strategy, r)
  {
    forall f, id: Id | f in fs && LeastFloor(start.floors, f, strategy, id) ensures Lookup(r, f.id) == Some(id) {
      assert Target(id, f) in us;
    }
    forall m | 0 <= m < |inserts| ensures Lookup(r, inserts[m].id) == Some(start.nextFloor + m) {
      assert inserts[m] in inserts;
    }
  }

  lemma SameIdSameFloor(fs: seq<FileFloor>, f: FileFloor, g: FileFloor)
    requires FloorIdsDiffer(fs) && f in fs && g in fs && f.id == g.id
    ensures f == g
  {
    var i :| 0 <= i < |fs| && fs[i] == f;
    var j :| 0 <= j < |fs| && fs[j] == g;
  }

  lemma ListIdsDiffer(floors: map<Id, Floor>, fs: seq<FileFloor>, strategy: FloorStrategy, inserts: seq<FileFloor>,
                      us: seq<Target<FileFloor>>)
    requires FloorIdsDiffer(fs) && NoDuplicates(inserts) && NoDuplicates(us) && KeysDiffer(fs, strategy)
    requires forall f :: f in inserts <==> f in fs && FloorUnmatched(floors, f, strategy)
    requires forall u :: u in us <==> u.value in fs && LeastFloor(floors, u.value, strategy, u.id)
    ensures FloorIdsDiffer(inserts) && TargetIdsDiffer(us)
    ensures forall f, u :: f in inserts && u in us ==> f.id != u.value.id
  {
    forall i, j | 0 <= i < j < |inserts| ensures inserts[i].id != inserts[j].id {
      assert inserts[i] in inserts && inserts[j] in inserts;
      if inserts[i].id == inserts[j].id { SameIdSameFloor(fs, inserts[i], inserts[j]); }
    }
    forall i, j | 0 <= i < j < |us| ensures us[i].value.id != us[j].value.id {
      assert us[i] in us && us[j] in us;
      if us[i].value.id == us[j].value.id {
        SameIdSameFloor(fs, us[i].value, us[j].value);
        SameRowSameFloor(floors, fs, strategy, us[i], us[j]);
      }
    }
    forall f, u | f in inserts && u in us ensures f.id != u.value.id {
      if f.id == u.value.id { SameIdSameFloor(fs, f, u.value); }
    }
  }

  // ---------- the whole import ----------

  /** An import with printers and grid, for every list of printer strategies and every floor strategy: when the file
      floors cannot match one another's rows and every printer is placed at most once, each floor of the file
      overwrites the least floor it matches or is added, with the printers the import renamed. */
  lemma ImportLandsFloors(farm: Farm, file: File, fails: set<FilePrinter>)
    requires WellFormed(farm) && ValidFile(file) && GridOn(file.config) && NoDuplicates(file.floors)
    requires LandApart(farm.printers, file.printers, file.config.printerStrategies, fails)
    requires KeysDiffer(file.floors, file.config.floorStrategy) && PlacedOnce(file.floors)
    ensures var r := Import(farm, file, fails);
            var start := farm.store.db.(printers := r.farm.printers.Keys);
            && FloorsImported(start, r.farm.store.db, r.printerIdMap, file.floors, file.config.floorStrategy)
            && (FloorIdsDiffer(file.floors) ==>
                  FloorIdsImported(start, file.floors, file.config.floorStrategy, r.floorIdMap))
  {
    var printers := ImportPrinters(farm, file, fails);
    RenamedApart(farm, file, fails);
    ImportedPrinters(farm, file, fails);
    var store := farm.store.(db := farm.store.db.(printers := printers.rows.Keys));
    ConsistentWithMorePrinters(farm.store.db, printers.rows.Keys);
    LayoutsCompatible(printers.rows.Keys, printers.ids, file.floors);
    ImportedFloors(store, file, printers.ids);
    if FloorIdsDiffer(file.floors) { ImportedFloorIds(store, file, printers.ids); }
  }

  /** When every floor of the file matches a floor of the farm, none is added. */
  lemma NoFloorAdded(farm: Farm, file: File, fails: set<FilePrinter>)
    requires WellFormed(farm) && ValidFile(file) && GridOn(file.config) && NoDuplicates(file.floors)
    requires LandApart(farm.printers, file.printers, file.config.printerStrategies, fails)
    requires KeysDiffer(file.floors, file.config.floorStrategy) && PlacedOnce(file.floors)
    requires forall f :: f in file.floors ==> !FloorUnmatched(farm.store.db.floors, f, file.config.floorStrategy)
    ensures Import(farm, file, fails).farm.store.db.floors.Keys == farm.store.db.floors.Keys
  {
    ImportLandsFloors(farm, file, fails);
    NoFloorNew(farm.store.db.floors, file.floors, file.config.floorStrategy);
  }

  lemma {:induction false} NoFloorNew(floors: map<Id, Floor>, fs: seq<FileFloor>, strategy: FloorStrategy)
    requires forall f :: f in fs ==> !FloorUnmatched(floors, f, strategy)
    ensures FloorNewcomers(floors, fs, strategy) == []
  {
    if fs != [] {
      assert fs[|fs| - 1] in fs;
      NoFloorNew(floors, fs[..|fs| - 1], strategy);
    }
  }

  /** The tags of an import. */
  lemma ImportLandsTags(farm: Farm, file: File, fails: set<FilePrinter>) returns (n: nat)
    requires WellFormed(farm) && ValidFile(file)
    ensures var r := Import(farm, file, fails);
            && NewTags(farm.tags, file.tags, n)
            && TagsImported(Tags(farm.tags, farm.nextTag, farm.members), file.tags, r.printerIdMap, n,
                            Tags(r.farm.tags, r.farm.nextTag, r.farm.members))
  {
    n := ImportedTags(Tags(farm.tags, farm.nextTag, farm.members), file, ImportPrinters(farm, file, fails).ids);
  }

  /** The floor is written: name and places are good, and every printer on it is known. */
  ghost predicate Writes(known: set<Id>, f: FileFloor, config: Config, ids: IdMap) {
    var layout := EntriesFor(config, ids, f.printers);
    !BadInput(f.name, layout) && !NamesUnknown(known, layout)
  }

  ghost predicate WrittenAs(known: set<Id>, f: FileFloor, config: Config, ids: IdMap, k: Id) {
    f.id == k && Writes(known, f, config, ids)
  }

  /** Later floors find the printers and floors there were. */
  ghost predicate Grown(before: Db, after: Db) {
    after.printers == before.printers && before.floors.Keys <= after.floors.Keys
  }

  lemma CreateRenamesIff(s: Floors, f: FileFloor, config: Config, ids: IdMap)
    ensures var r := CreateOneFloor(s, f, config, ids);
            && Grown(s.store.db, r.store.db)
            && r.ids == if Writes(s.store.db.printers, f, config, ids)
                        then s.ids[f.id := s.store.db.nextFloor] else s.ids
  {
    CreateAnswers(s.store.db, f.name, f.order, EntriesFor(config, ids, f.printers));
  }

  lemma UpdateRenamesIff(s: Floors, u: Target<FileFloor>, config: Config, ids: IdMap)
    requires u.id in s.store.db.floors
    ensures var r := UpdateOneFloor(s, u, config, ids);
            && Grown(s.store.db, r.store.db)
            && r.ids == if Writes(s.store.db.printers, u.value, config, ids) then s.ids[u.value.id := u.id] else s.ids
  {
    UpdateAnswers(s.store.db, u.id, u.value.name, u.value.order, EntriesFor(config, ids, u.value.printers));
  }

  lemma {:induction false} CreatesRenameIff(s: Floors, fs: seq<FileFloor>, config: Config, ids: IdMap, k: Id)
    ensures var r := CreateFloors(s, fs, config, ids);
            && Grown(s.store.db, r.store.db)
            && (k in r.ids <==> k in s.ids || exists f :: f in fs && WrittenAs(s.store.db.printers, f, config, ids, k))
  {
    if fs != [] {
      var (front, last) := (fs[..|fs| - 1], fs[|fs| - 1]);
      assert forall f :: f in fs <==> f in front || f == last;
      CreatesRenameIff(s, front, config, ids, k);
      CreateRenamesIff(CreateFloors(s, front, config, ids), last, config, ids);
      assert WrittenAs(s.store.db.printers, last, config, ids, k)
             <==> last.id == k && Writes(s.store.db.printers, last, config, ids);
    }
  }

  lemma {:induction false} UpdatesRenameIff(s: Floors, us: seq<Target<FileFloor>>, config: Config, ids: IdMap, k: Id)
    requires forall u :: u in us ==> u.id in s.store.db.floors
    ensures var r := UpdateFloors(s, us, config, ids);
            && Grown(s.store.db, r.store.db)
            && (k in r.ids <==>
                  k in s.ids || exists u :: u in us && WrittenAs(s.store.db.printers, u.value, config, ids, k))
  {
    if us != [] {
      var (front, last) := (us[..|us| - 1], us[|us| - 1]);
      assert forall u :: u in us <==> u in front || u == last;
      UpdatesRenameIff(s, front, config, ids, k);
      UpdateRenamesIff(UpdateFloors(s, front, config, ids), last, config, ids);
    }
  }

  lemma FloorPhaseRenamesIff(store: Store, file: File, ids: IdMap, k: Id)
    ensures k in ImportFloors(store, file, ids).ids <==>
              exists f :: f in file.floors && WrittenAs(store.db.printers, f, file.config, ids, k)
  {
    var (floors, fs, strategy, config) := (store.db.floors, file.floors, file.config.floorStrategy, file.config);
    var (inserts, us) := (FloorsToInsert(floors, fs, strategy), FloorsToUpdate(floors, fs, strategy));
    forall u | u in us ensures u.id in floors && u.value in fs { FloorUpdatesFromFile(floors, fs, strategy, u); }
    forall f ensures f in inserts ==> f in fs { FloorInsertsFromFile(floors, fs, strategy, f); }
    forall f | f in fs ensures f in inserts || exists u :: u in us && u.value == f {
      FloorInsertsFromFile(floors, fs, strategy, f);
      var found := MatchFloor(floors, f, strategy);
      if found.Some? { FloorUpdatesFromFile(floors, fs, strategy, Target(found.value, f)); }
    }
    CreatesRenameIff(Floors(store, map[]), inserts, config, ids, k);
    UpdatesRenameIff(CreateFloors(Floors(store, map[]), inserts, config, ids), us, config, ids, k);
  }

  /** Whatever the file and the strategies: the import reports a file floor as imported exactly when some floor with
      that id has a good name, good places and, as they are written, printers that exist. */
  lemma ImportRenamesFloorIff(farm: Farm, file: File, fails: set<FilePrinter>, k: Id)
    requires ValidFile(file)
    ensures var r := Import(farm, file, fails);
            k in r.floorIdMap <==>
              exists f :: f in file.floors && WrittenAs(r.farm.printers.Keys, f, file.config, r.printerIdMap, k)
  {
    var printers := ImportPrinters(farm, file, fails);
    FloorPhaseRenamesIff(farm.store.(db := farm.store.db.(printers := printers.rows.Keys)), file, printers.ids, k);
  }

  /** A file in which some floor name is shorter than three characters, or some position lies outside 0 to 12, is
      refused and changes nothing. */
  lemma InvalidFileRefused(farm: Farm, file: File, fails: set<FilePrinter>, i: nat)
    requires i < |file.floors|
    requires |file.floors[i].name| < 3
             || exists k :: 0 <= k < |file.floors[i].printers| &&
                  var e := file.floors[i].printers[k]; e.x < 0 || e.x > 12 || e.y < 0 || e.y > 12
    ensures Import(farm, file, fails) == ImportResult(farm, map[], map[])
  {
  }

  // ---------- imports without printers or grid ----------

  function Identity(known: set<Id>): IdMap {
    map k | k in known :: k
  }

  lemma {:induction false} IdentityMaps(known: set<Id>, layout: seq<Entry>)
    requires forall i :: 0 <= i < |layout| ==> layout[i].printerId in known
    ensures MapEntries(Identity(known), layout) == layout
  {
    if layout != [] { IdentityMaps(known, layout[..|layout| - 1]); }
  }

  ghost predicate AllNamed(fs: seq<FileFloor>, known: set<Id>) {
    forall f :: f in fs ==> forall i :: 0 <= i < |f.printers| ==> f.printers[i].printerId in known
  }

  lemma {:induction false} CreatesAsNamed(s: Floors, fs: seq<FileFloor>, config: Config, on: Config, ids: IdMap,
                                          known: set<Id>)
    requires !GridOn(config) && GridOn(on) && AllNamed(fs, known)
    ensures CreateFloors(s, fs, config, ids) == CreateFloors(s, fs, on, Identity(known))
  {
    if fs != [] {
      var f := fs[|fs| - 1];
      assert f in fs;
      CreatesAsNamed(s, fs[..|fs| - 1], config, on, ids, known);
      IdentityMaps(known, f.printers);
    }
  }

  lemma {:induction false} UpdatesAsNamed(s: Floors, us: seq<Target<FileFloor>>, config: Config, on: Config, ids: IdMap,
                                          known: set<Id>)
    requires !GridOn(config) && GridOn(on)
    requires forall u :: u in us ==> forall i :: 0 <= i < |u.value.printers| ==> u.value.printers[i].printerId in known
    ensures UpdateFloors(s, us, config, ids) == UpdateFloors(s, us, on, Identity(known))
  {
    if us != [] {
      var u := us[|us| - 1];
      assert u in us;
      UpdatesAsNamed(s, us[..|us| - 1], config, on, ids, known);
      IdentityMaps(known, u.value.printers);
    }
  }

  /** With printers or grid switched off, positions are neither renamed nor filtered. */
  lemma PositionsAsNamed(store: Store, file: File, on: File, ids: IdMap, known: set<Id>)
    requires !GridOn(file.config) && AllNamed(file.floors, known)
    requires on == file.(config := file.config.(exportPrinters := true, exportFloorGrid := true))
    ensures ImportFloors(store, file, ids) == ImportFloors(store, on, Identity(known))
  {
    var (floors, fs, strategy) := (store.db.floors, file.floors, file.config.floorStrategy);
    forall f | f in FloorsToInsert(floors, fs, strategy) ensures f in fs {
      FloorInsertsFromFile(floors, fs, strategy, f);
    }
    forall u | u in FloorsToUpdate(floors, fs, strategy) ensures u.value in fs {
      FloorUpdatesFromFile(floors, fs, strategy, u);
    }
    var inserts := FloorsToInsert(floors, fs, strategy);
    CreatesAsNamed(Floors(store, map[]), inserts, file.config, on.config, ids, known);
    UpdatesAsNamed(CreateFloors(Floors(store, map[]), inserts, file.config, ids), FloorsToUpdate(floors, fs, strategy),
                   file.config, on.config, ids, known);
  }
}
