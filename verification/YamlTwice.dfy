/** Importing a file twice is the same as importing it once. */
module YamlTwice {
  import opened Common
  import opened Text
  import opened FloorGrid
  import opened FloorDb
  import opened FloorCache
  import opened Yaml
  import opened YamlIsolation
  import opened YamlPrinters
  import opened YamlFloors
  import opened YamlFloorPhase

  // ---------- tags ----------

  ghost predicate TagsWellFormed(s: Tags) {
    && (forall t :: t in s.tags ==> t < s.next)
    && (forall m :: m in s.members ==> m.0 in s.tags)
  }

  /** New tags get the next ids, one by one, and exactly the renamed members. */
  ghost predicate TagsCreated(start: Tags, ts: seq<FileTag>, ids: IdMap, s: Tags) {
    && s.next == start.next + |ts|
    && (forall t :: t in s.tags <==> t in start.tags || start.next <= t < s.next)
    && (forall t :: t in start.tags ==> s.tags[t] == start.tags[t])
    && (forall i :: 0 <= i < |ts| ==> s.tags[start.next + i] == Tag(ts[i].name, ts[i].color))
    && (forall m :: m in s.members && m.0 < start.next ==> m in start.members)
    && (forall m :: m in start.members ==> m in s.members)
    && (forall m :: m in s.members ==> m.0 in s.tags)
    && (forall i, p :: 0 <= i < |ts| ==> ((start.next + i, p) in s.members <==> p in MapMembers(ids, ts[i].printers)))
  }

  lemma {:induction false} CreatesTags(start: Tags, ts: seq<FileTag>, ids: IdMap)
    requires TagsWellFormed(start)
    ensures TagsCreated(start, ts, ids, CreateTags(start, ts, ids))
  {
    if ts != [] {
      CreatesTags(start, ts[..|ts| - 1], ids);
      OneMoreTag(start, ts[..|ts| - 1], ts[|ts| - 1], ids, CreateTags(start, ts[..|ts| - 1], ids));
      assert ts == ts[..|ts| - 1] + [ts[|ts| - 1]];
    }
  }

  lemma OneMoreTag(start: Tags, front: seq<FileTag>, t: FileTag, ids: IdMap, s: Tags)
    requires TagsWellFormed(start) && TagsCreated(start, front, ids, s)
    ensures TagsCreated(start, front + [t], ids,
                        Tags(s.tags[s.next := Tag(t.name, t.color)], s.next + 1,
                              s.members + Paired(s.next, MapMembers(ids, t.printers))))
  {
    var added := Paired(s.next, MapMembers(ids, t.printers));
    assert forall m :: m in added ==> m.0 == s.next && m.1 in MapMembers(ids, t.printers);
    assert forall p :: p in MapMembers(ids, t.printers) ==> (s.next, p) in added;
  }

  /** Setting the members of a tag a second time, from t's members being exactly `first`. */
  lemma SetMembersAgainIff(members: set<(Id, Id)>, t: Id, first: set<Id>, second: set<Id>)
    requires forall p :: (t, p) in members <==> p in first
    ensures SetMembers(members, t, second) == members <==> first == second
  {
    var again := SetMembers(members, t, second);
    forall p ensures (t, p) in again <==> p in second { assert p in second ==> (t, p) in Paired(t, second); }
    if first == second {
      forall m | m in members && m.0 == t ensures m.1 in second { assert m == (t, m.1); }
      assert forall m :: m in Paired(t, second) ==> m.0 == t && m.1 in second;
      assert again == members;
    }
    if again == members {
      forall p ensures p in first <==> p in second { assert (t, p) in members <==> (t, p) in again; }
    }
  }

  lemma SetMembersExactly(members: set<(Id, Id)>, t: Id, wanted: set<Id>)
    ensures forall p :: (t, p) in SetMembers(members, t, wanted) <==> p in wanted
  {
    assert forall p :: p in wanted ==> (t, p) in Paired(t, wanted);
  }

  /** The second import only rewrites the members of the file's first tag: nothing changes exactly when its
      renaming makes the same members of them. */
  lemma TagsTwiceIff(start: Tags, file: File, ids: IdMap, again: IdMap)
    requires TagsWellFormed(start)
    ensures var s := ImportTags(start, file, ids);
            ImportTags(s, file, again) == s
            <==> (file.tags == [] || MapMembers(ids, file.tags[0].printers) == MapMembers(again, file.tags[0].printers))
  {
    var ts := file.tags;
    if ts != [] {
      var wanted := MapMembers(ids, ts[0].printers);
      if TagsNamed(start.tags, ts[0].name) != {} {
        var t := First(TagsNamed(start.tags, ts[0].name)).value;
        OneTagUpdate(start, ts[0], t, ids);
        var s := start.(members := SetMembers(start.members, t, wanted));
        assert ImportTags(start, file, ids) == s;
        OneTagUpdate(s, ts[0], t, again);
        SetMembersExactly(start.members, t, wanted);
        SetMembersAgainIff(s.members, t, wanted, MapMembers(again, ts[0].printers));
      } else {
        NewFirstTag(start, file, ids, again);
      }
    }
  }

  lemma OneTagUpdate(s: Tags, t: FileTag, id: Id, ids: IdMap)
    ensures UpdateTags(s, [Target(id, t)], ids) == s.(members := SetMembers(s.members, id, MapMembers(ids, t.printers)))
  {
    assert UpdateTags(s, [Target(id, t)][..0], ids) == s;
  }

  lemma {:induction false} UpdateTargetsExist(tags: map<Id, Tag>, ts: seq<FileTag>)
    ensures |TagsToUpdate(tags, ts)| <= 1
    ensures forall u :: u in TagsToUpdate(tags, ts) ==> u.id in tags
  {
    if ts != [] && First(TagsNamed(tags, ts[0].name)).None? { UpdateTargetsExist(tags, ts[1..]); }
  }

  lemma NewFirstTag(start: Tags, file: File, ids: IdMap, again: IdMap)
    requires TagsWellFormed(start) && file.tags != [] && TagsNamed(start.tags, file.tags[0].name) == {}
    ensures var s := ImportTags(start, file, ids);
            ImportTags(s, file, again) == s
            <==> MapMembers(ids, file.tags[0].printers) == MapMembers(again, file.tags[0].printers)
  {
    var (ts, t) := (file.tags, start.next);
    var inserts := TagsToInsert(start.tags, ts);
    var updates := TagsToUpdate(start.tags, ts);
    assert inserts[0] == ts[0];
    CreatesTags(start, inserts, ids);
    var created := CreateTags(start, inserts, ids);
    UpdateTargetsExist(start.tags, ts);
    var s := UpdateTags(created, updates, ids);
    if updates != [] {
      assert updates[0] in updates && updates == [updates[0]];
      OneTagUpdate(created, updates[0].value, updates[0].id, ids);
    }
    var wanted := MapMembers(ids, ts[0].printers);
    assert s.tags == created.tags;
    forall p ensures (t, p) in s.members <==> p in wanted {
      assert (start.next + 0, p) in created.members <==> p in wanted;
      if updates != [] {
        assert updates[0].id != t;
        assert (t, p) !in Paired(updates[0].id, MapMembers(ids, updates[0].value.printers));
      }
    }
    NewTagFound(start, inserts, ids, created);
    OneTagUpdate(s, ts[0], t, again);
    SetMembersAgainIff(s.members, t, wanted, MapMembers(again, ts[0].printers));
  }

  lemma NewTagFound(start: Tags, inserts: seq<FileTag>, ids: IdMap, s: Tags)
    requires TagsCreated(start, inserts, ids, s) && inserts != [] && TagsNamed(start.tags, inserts[0].name) == {}
    ensures First(TagsNamed(s.tags, inserts[0].name)) == Some(start.next)
  {
    assert s.tags[start.next + 0] == Tag(inserts[0].name, inserts[0].color);
    forall t | t in start.tags ensures t !in TagsNamed(s.tags, inserts[0].name) {
      assert t !in TagsNamed(start.tags, inserts[0].name);
    }
    FirstIsLeast(TagsNamed(s.tags, inserts[0].name), start.next);
  }

  // ---------- the theorem ----------

  /** In the file every printer is placed at most once, and no cell of a floor is used twice. */
  ghost predicate PlacedOnce(fs: seq<FileFloor>) {
    && (forall i :: 0 <= i < |fs| ==> ClashFree(fs[i].printers))
    && (forall i, j, p :: 0 <= i < j < |fs| ==> !(Names(fs[i].printers, p) && Names(fs[j].printers, p)))
  }

  ghost predicate DistinctFloorNames(fs: seq<FileFloor>) {
    forall i, j :: 0 <= i < j < |fs| ==> Lower(fs[i].name) != Lower(fs[j].name)
  }

  lemma LayoutsCompatible(known: set<Id>, ids: IdMap, fs: seq<FileFloor>)
    requires InjectiveIds(ids) && (forall i :: i in ids ==> ids[i] in known) && PlacedOnce(fs) && NoDuplicates(fs)
    requires forall i :: 0 <= i < |fs| ==> ValidName(fs[i].name) && ValidEntries(fs[i].printers)
    ensures Compatible(known, ids, fs)
  {
    forall f | f in fs
      ensures ValidName(f.name) && ValidEntries(Layout(ids, f)) && ClashFree(Layout(ids, f))
      ensures forall i :: 0 <= i < |Layout(ids, f)| ==> Layout(ids, f)[i].printerId in known
    {
      MapEntriesClashFree(ids, f.printers);
      MapEntriesKnown(ids, f.printers, known);
    }
    forall f, g | f in fs && g in fs && f != g ensures Disjoint(ids, f, g) {
      var i :| 0 <= i < |fs| && fs[i] == f;
      var j :| 0 <= j < |fs| && fs[j] == g;
      forall p ensures !(Names(Layout(ids, f), p) && Names(Layout(ids, g), p)) {
        assert forall q :: !(Names(f.printers, q) && Names(g.printers, q));
        if Names(Layout(ids, f), p) { RenamedFrom(ids, f.printers, p); }
        if Names(Layout(ids, g), p) { RenamedFrom(ids, g.printers, p); }
      }
    }
  }

  lemma RenamedFrom(ids: IdMap, layout: seq<Entry>, p: Id)
    requires Names(MapEntries(ids, layout), p)
    ensures exists q :: Names(layout, q) && q in ids && ids[q] == p
  {
    MapEntriesNames(ids, layout, p);
    var i :| 0 <= i < |layout| && layout[i].printerId in ids && ids[layout[i].printerId] == p;
    assert Names(layout, layout[i].printerId);
  }

  lemma ConsistentWithMorePrinters(db: Db, printers: set<Id>)
    requires Consistent(db) && db.printers <= printers
    ensures Consistent(db.(printers := printers))
  {
  }

  ghost predicate ComparedByName(file: File) {
    file.config.printerStrategies == [ByName] && file.config.floorStrategy == FloorByName && GridOn(file.config)
  }

  lemma SeparateFloors(fs: seq<FileFloor>)
    requires DistinctFloorNames(fs)
    ensures NoDuplicates(fs) && NamesDiffer(fs)
  {
    forall f, g | f in fs && g in fs && Lower(f.name) == Lower(g.name) ensures f == g {
      var i :| 0 <= i < |fs| && fs[i] == f;
      var j :| 0 <= j < |fs| && fs[j] == g;
    }
  }

  // ---------- two renamings of the same file ids ----------

  /** Two ways of renaming the same file ids to rows that say which file id they came from. */
  ghost predicate TwoRenamings(ids: IdMap, again: IdMap) {
    && InjectiveIds(ids) && InjectiveIds(again) && (forall k :: k in ids <==> k in again)
    && (forall j, k :: j in ids && k in again && ids[j] == again[k] ==> j == k)
  }

  ghost predicate AlikeAt(ids: IdMap, again: IdMap, k: Id) {
    k in ids && k in again ==> ids[k] == again[k]
  }

  /** File id k occurs in the layout of a floor. */
  ghost predicate OnSomeFloor(file: File, k: Id) {
    exists f :: f in file.floors && Names(f.printers, k)
  }

  ghost predicate OnFirstTag(file: File, k: Id) {
    file.tags != [] && k in file.tags[0].printers
  }

  lemma MembersAlikeIff(ids: IdMap, again: IdMap, ps: seq<Id>)
    requires TwoRenamings(ids, again)
    ensures MapMembers(ids, ps) == MapMembers(again, ps) <==> forall k :: k in ps ==> AlikeAt(ids, again, k)
  {
    var (first, second) := (MapMembers(ids, ps), MapMembers(again, ps));
    if first == second {
      forall k | k in ps && k in ids ensures ids[k] == again[k] {
        var i :| 0 <= i < |ps| && ps[i] == k;
        assert ids[ps[i]] in first;
        var j :| 0 <= j < |ps| && ps[j] in again && again[ps[j]] == ids[k];
      }
    }
    if forall k :: k in ps ==> AlikeAt(ids, again, k) {
      forall r ensures r in first <==> r in second {
        if r in first {
          var i :| 0 <= i < |ps| && ps[i] in ids && ids[ps[i]] == r;
          assert AlikeAt(ids, again, ps[i]) && again[ps[i]] in second;
        }
        if r in second {
          var i :| 0 <= i < |ps| && ps[i] in again && again[ps[i]] == r;
          assert AlikeAt(ids, again, ps[i]) && ids[ps[i]] in first;
        }
      }
    }
  }

  lemma {:induction false} LayoutAlike(ids: IdMap, again: IdMap, entries: seq<Entry>)
    requires (forall k :: k in ids <==> k in again) && forall k :: Names(entries, k) ==> AlikeAt(ids, again, k)
    ensures MapEntries(ids, entries) == MapEntries(again, entries)
  {
    if entries != [] {
      var (front, last) := (entries[..|entries| - 1], entries[|entries| - 1]);
      forall k | Names(front, k) ensures Names(entries, k) {
        var i :| 0 <= i < |front| && front[i].printerId == k;
        assert entries[i].printerId == k;
      }
      assert Names(entries, last.printerId);
      LayoutAlike(ids, again, front);
    }
  }

  /** One floor shows a file id in one cell, so it cannot show it under two renamings. */
  lemma ShownOnce(db: Db, ids: IdMap, again: IdMap, firstNew: Id, secondNew: Id, f: FileFloor, a: Id, b: Id, k: Id)
    requires Consistent(db) && Found(db, ids, firstNew, f, a) && Found(db, again, secondNew, f, b)
    requires Names(f.printers, k)
    ensures AlikeAt(ids, again, k)
  {
    if k in ids && k in again {
      var i :| 0 <= i < |f.printers| && f.printers[i].printerId == k;
      var e := f.printers[i];
      MapEntriesMember(ids, f.printers, Entry(ids[k], e.x, e.y));
      MapEntriesMember(again, f.printers, Entry(again[k], e.x, e.y));
      assert Stands(db.grid, ids[k], Cell(a, e.x, e.y)) && Stands(db.grid, again[k], Cell(b, e.x, e.y));
    }
  }

  /** A second floor phase changes nothing exactly when it renames the printers on the floors as the first did. */
  lemma FloorsTwiceIff(store: Store, file: File, ids: IdMap, again: IdMap)
    requires Consistent(store.db) && ComparedByName(file) && ValidFile(file)
    requires DistinctFloorNames(file.floors) && PlacedOnce(file.floors) && TwoRenamings(ids, again)
    requires forall i :: i in ids ==> ids[i] in store.db.printers && again[i] in store.db.printers
    ensures var once := ImportFloors(store, file, ids).store;
            && once.db.printers == store.db.printers
            && (ImportFloors(once, file, again).store == once
                <==> forall k :: OnSomeFloor(file, k) ==> AlikeAt(ids, again, k))
  {
    var known := store.db.printers;
    SeparateFloors(file.floors);
    LayoutsCompatible(known, ids, file.floors);
    LayoutsCompatible(known, again, file.floors);
    PhaseWritesFloors(store, file, ids);
    var once := ImportFloors(store, file, ids).store;
    ImportedCacheFresh(store, file, ids, once);
    PhaseWritesFloors(once, file, again);
    if ImportFloors(once, file, again).store == once {
      FloorsShowAlike(once.db, file, ids, again, store.db.nextFloor, once.db.nextFloor);
    }
    if forall k :: OnSomeFloor(file, k) ==> AlikeAt(ids, again, k) {
      AlikeFloorsFound(once.db, file, ids, again, store.db.nextFloor);
      SecondFloorPhaseIsIdentity(once, file, again, store.db.nextFloor);
    }
  }

  lemma ImportedCacheFresh(store: Store, file: File, ids: IdMap, once: Store)
    requires once == ImportFloors(store, file, ids).store
    ensures forall id :: id in once.db.floors ==> id in once.cache && once.cache[id] == ToDto(once.db, id)
  {
  }

  lemma FloorsShowAlike(db: Db, file: File, ids: IdMap, again: IdMap, firstNew: Id, secondNew: Id)
    requires Consistent(db)
    requires forall f :: f in file.floors ==> exists id :: Found(db, ids, firstNew, f, id)
    requires forall f :: f in file.floors ==> exists id :: Found(db, again, secondNew, f, id)
    ensures forall k :: OnSomeFloor(file, k) ==> AlikeAt(ids, again, k)
  {
    forall k | OnSomeFloor(file, k) ensures AlikeAt(ids, again, k) {
      var f :| f in file.floors && Names(f.printers, k);
      var a :| Found(db, ids, firstNew, f, a);
      var b :| Found(db, again, secondNew, f, b);
      ShownOnce(db, ids, again, firstNew, secondNew, f, a, b, k);
    }
  }

  lemma AlikeFloorsFound(db: Db, file: File, ids: IdMap, again: IdMap, firstNew: Id)
    requires (forall k :: k in ids <==> k in again) && forall k :: OnSomeFloor(file, k) ==> AlikeAt(ids, again, k)
    requires forall f :: f in file.floors ==> exists id :: Found(db, ids, firstNew, f, id)
    ensures forall f :: f in file.floors ==> exists id :: Found(db, again, firstNew, f, id)
  {
    forall f | f in file.floors ensures exists id :: Found(db, again, firstNew, f, id) {
      forall k | Names(f.printers, k) ensures AlikeAt(ids, again, k) { assert OnSomeFloor(file, k); }
      LayoutAlike(ids, again, f.printers);
      var id :| Found(db, ids, firstNew, f, id);
      assert Found(db, again, firstNew, f, id);
    }
  }

  // ---------- the theorem ----------

  /** The rest of the file refers to this file id: on a floor, or on the one tag that a second import updates. */
  ghost predicate Mentioned(file: File, k: Id) {
    OnSomeFloor(file, k) || OnFirstTag(file, k)
  }

  /** Every file id that floors or the first tag refer to is settled. */
  ghost predicate AllSettled(farm: Farm, file: File, fails: set<FilePrinter>) {
    forall k :: Mentioned(file, k) ==> Settled(farm.printers, file.printers, fails, k)
  }

  /** With comparison by name, distinct names and every printer placed at most once, a second import of the same
      file changes no printer, floor, placement, tag or membership, whichever printers fail, exactly when every
      file id that is referred to is settled. */
  lemma ImportTwiceIsOnceIff(farm: Farm, file: File, fails: set<FilePrinter>)
    requires WellFormed(farm) && ComparedByName(file) && DistinctNames(file.printers)
    requires DistinctFloorNames(file.floors) && PlacedOnce(file.floors)
    ensures var once := Import(farm, file, fails).farm;
            Import(once, file, fails).farm == once <==> (ValidFile(file) ==> AllSettled(farm, file, fails))
  {
    if ValidFile(file) {
      DistinctAreSeparate(file.printers);
      var s := ImportPrinters(farm, file, fails);
      var once := Import(farm, file, fails).farm;
      var again := ImportPrinters(once, file, fails);
      BothRenamings(farm, file, fails, once);
      var store := farm.store.(db := farm.store.db.(printers := s.rows.Keys));
      ConsistentWithMorePrinters(farm.store.db, s.rows.Keys);
      FloorsTwiceIff(store, file, s.ids, again.ids);
      var tags := Tags(farm.tags, farm.nextTag, farm.members);
      TagsTwiceIff(tags, file, s.ids, again.ids);
      if file.tags != [] { MembersAlikeIff(s.ids, again.ids, file.tags[0].printers); }
      assert Import(once, file, fails).farm == once
        <==> ImportFloors(once.store, file, again.ids).store == once.store
             && ImportTags(Tags(once.tags, once.nextTag, once.members), file, again.ids)
                == Tags(once.tags, once.nextTag, once.members);
    }
  }

  /** The renamings of the two imports of one file: on rows of their own, and equal on the settled ids. */
  lemma BothRenamings(farm: Farm, file: File, fails: set<FilePrinter>, once: Farm)
    requires WellFormed(farm) && Separate(file.printers) && file.config.printerStrategies == [ByName]
    requires var s := ImportPrinters(farm, file, fails); once.printers == s.rows && once.nextPrinter == s.next
    ensures var (s, again) := (ImportPrinters(farm, file, fails), ImportPrinters(once, file, fails));
            && again.rows == s.rows && again.next == s.next && TwoRenamings(s.ids, again.ids)
            && farm.printers.Keys <= s.rows.Keys
            && (forall k :: k in s.ids ==> s.ids[k] in s.rows && again.ids[k] in s.rows)
            && (forall k :: AlikeAt(s.ids, again.ids, k) <==> Settled(farm.printers, file.printers, fails, k))
  {
    var (s, again) := (ImportPrinters(farm, file, fails), ImportPrinters(once, file, fails));
    var at := RowsAt(farm, file, fails);
    PhaseImports(farm, file, fails);
    SecondPhase(farm.printers, farm.nextPrinter, once, file, fails, s, at);
    RenamingsCompared(farm.printers, farm.nextPrinter, file.printers, fails, s, at, again.ids);
  }

  lemma RenamingsCompared(rows: map<Id, PrinterRow>, next: Id, ps: seq<FilePrinter>, fails: set<FilePrinter>,
                          s: Printers,
                          at: map<FilePrinter, Id>, again: IdMap)
    requires Imported(rows, next, ps, fails, s, at) && Separate(ps)
    requires (forall k: Id :: FirstRenaming(rows, ps, fails, at, s.ids, k)) && SecondRenaming(ps, fails, at, again)
    ensures TwoRenamings(s.ids, again) && forall k :: k in s.ids ==> s.ids[k] in s.rows && again[k] in s.rows
    ensures forall k :: AlikeAt(s.ids, again, k) <==> Settled(rows, ps, fails, k)
  {
    RenamingInjective(rows, next, ps, fails, s, at);
    forall k: Id
      ensures k in again <==> k in s.ids
      ensures AlikeAt(s.ids, again, k) <==> Settled(rows, ps, fails, k)
    {
      assert FirstRenaming(rows, ps, fails, at, s.ids, k);
      RenamedAlikeIff(rows, next, ps, fails, s, at, again, k);
      if k !in s.ids { NobodyCarries(rows, next, ps, fails, s, at, k); }
    }
    forall k | k in again ensures SecondCarrier(ps, fails, at, again, k) {
      assert Renames(LastCarrier(ps, fails, k), at, map[], again, k);
    }
    SecondRowsOwn(rows, next, ps, fails, s, at, again);
  }

  lemma NobodyCarries(rows: map<Id, PrinterRow>, next: Id, ps: seq<FilePrinter>, fails: set<FilePrinter>, s: Printers,
                      at: map<FilePrinter, Id>, k: Id)
    requires Imported(rows, next, ps, fails, s, at) && k !in s.ids
    ensures Settled(rows, ps, fails, k)
  {
    forall p | p in ps && p.id == k ensures p in fails { assert p !in at; }
  }

  /** The second import renames k to the row of a printer that carries it. */
  ghost predicate SecondCarrier(ps: seq<FilePrinter>, fails: set<FilePrinter>, at: map<FilePrinter, Id>, ids: IdMap,
                                k: Id)
    requires k in ids
  {
    var last := LastCarrier(ps, fails, k);
    last.Some? && last.value in at && last.value.id == k && ids[k] == at[last.value]
  }

  lemma SecondRowsOwn(rows: map<Id, PrinterRow>, next: Id, ps: seq<FilePrinter>, fails: set<FilePrinter>, s: Printers,
                      at: map<FilePrinter, Id>, again: IdMap)
    requires Imported(rows, next, ps, fails, s, at) && Separate(ps)
    requires forall k :: k in again ==> SecondCarrier(ps, fails, at, again, k)
    ensures InjectiveIds(again) && forall k :: k in again ==> again[k] in s.rows
    ensures forall j, k :: j in s.ids && k in again && s.ids[j] == again[k] ==> j == k
  {
    forall j, k | j in again && k in again && again[j] == again[k] ensures j == k {
      var (p, q) := (LastCarrier(ps, fails, j).value, LastCarrier(ps, fails, k).value);
      RowsInjective(rows, next, ps, fails, s, at, p, q);
    }
    forall j, k | j in s.ids && k in again && s.ids[j] == again[k] ensures j == k {
      var p :| p in at && p.id == j && s.ids[j] == at[p];
      RowsInjective(rows, next, ps, fails, s, at, p, LastCarrier(ps, fails, k).value);
    }
  }

  /** Distinct file ids are settled. */
  lemma DistinctIdsSettled(farm: Farm, file: File, fails: set<FilePrinter>)
    requires forall i, j :: 0 <= i < j < |file.printers| ==> file.printers[i].id != file.printers[j].id
    ensures AllSettled(farm, file, fails)
  {
  }

  /** The farm has printer a; the file gives a and a new printer b the same id and places that id on a floor.
      The first import puts a in the cell, the second one b. */
  lemma SharedIdMovesPrinter(farm: Farm, file: File, a: PrinterRow, b: PrinterRow)
    requires WellFormed(farm) && ComparedByName(file) && Lower(a.name) != Lower(b.name)
    requires farm.printers == map[1 := a]
    requires file.printers == [FilePrinter(7, a), FilePrinter(7, b)] && file.tags == []
    requires file.floors == [FileFloor(1, "one", 0, [Entry(7, 0, 0)])]
    ensures var once := Import(farm, file, {}).farm; Import(once, file, {}).farm != once
  {
    var (p, q) := (FilePrinter(7, a), FilePrinter(7, b));
    assert file.printers == [p] + [q];
    assert LastCarrier(file.printers, {}, 7) == Some(q);
    assert 1 in PrintersNamed(farm.printers, a.name) && PrintersNamed(farm.printers, b.name) == {};
    assert p in file.printers && !Settled(farm.printers, file.printers, {}, 7);
    assert Names(file.floors[0].printers, 7) by { assert file.floors[0].printers[0].printerId == 7; }
    assert file.floors[0] in file.floors && Mentioned(file, 7);
    ImportTwiceIsOnceIff(farm, file, {});
  }
}
