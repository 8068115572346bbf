/** Failure isolation: printers that cannot be written drop out of the import, together with their places and
    tag memberships, and nothing else changes. */
module YamlIsolation {
  import opened Common
  import opened FloorGrid
  import opened FloorDb
  import opened FloorCache
  import opened Yaml

  /** The file ids that only failing printers carry. */
  function FailedIds(ps: seq<FilePrinter>, fails: set<FilePrinter>): set<Id> {
    set i | 0 <= i < |ps| && (forall p :: p in ps && p.id == ps[i].id ==> p in fails) :: ps[i].id
  }

  function KeepPrinters(ps: seq<FilePrinter>, fails: set<FilePrinter>): seq<FilePrinter> {
    if ps == [] then [] else
      KeepPrinters(ps[..|ps| - 1], fails) + if ps[|ps| - 1] in fails then [] else [ps[|ps| - 1]]
  }

  function KeepEntries(layout: seq<Entry>, gone: set<Id>): seq<Entry> {
    if layout == [] then [] else
      var last := layout[|layout| - 1];
      KeepEntries(layout[..|layout| - 1], gone) + if last.printerId in gone then [] else [last]
  }

  function KeepIds(ps: seq<Id>, gone: set<Id>): seq<Id> {
    if ps == [] then [] else KeepIds(ps[..|ps| - 1], gone) + if ps[|ps| - 1] in gone then [] else [ps[|ps| - 1]]
  }

  function KeepFloor(f: FileFloor, gone: set<Id>): FileFloor {
    f.(printers := KeepEntries(f.printers, gone))
  }

  function KeepFloors(fs: seq<FileFloor>, gone: set<Id>): (r: seq<FileFloor>)
    ensures |r| == |fs| && forall i :: 0 <= i < |fs| ==> r[i] == KeepFloor(fs[i], gone)
  {
    seq(|fs|, i requires 0 <= i < |fs| => KeepFloor(fs[i], gone))
  }

  function KeepTag(t: FileTag, gone: set<Id>): FileTag {
    t.(printers := KeepIds(t.printers, gone))
  }

  function KeepTags(ts: seq<FileTag>, gone: set<Id>): (r: seq<FileTag>)
    ensures |r| == |ts| && forall i :: 0 <= i < |ts| ==> r[i] == KeepTag(ts[i], gone)
  {
    seq(|ts|, i requires 0 <= i < |ts| => KeepTag(ts[i], gone))
  }

  /** Only an import of printers and grid filters the positions on a floor; any other takes them as they are. */
  function FloorsWithout(file: File, gone: set<Id>): seq<FileFloor> {
    if file.config.exportFloorGrid && file.config.exportPrinters then KeepFloors(file.floors, gone) else file.floors
  }

  /** The file with the failing printers, and every mention of their ids, removed. */
  function Without(file: File, fails: set<FilePrinter>): File {
    var gone := FailedIds(file.printers, fails);
    file.(printers := KeepPrinters(file.printers, fails),
          floors := FloorsWithout(file, gone), tags := KeepTags(file.tags, gone))
  }

  // ---------- printers ----------

  lemma InsertsAppend(rows: map<Id, PrinterRow>, front: seq<FilePrinter>, last: FilePrinter,
                      strategies: seq<PrinterStrategy>)
    ensures PrintersToInsert(rows, front + [last], strategies)
            == if MatchPrinter(rows, last.row, strategies).None? then PrintersToInsert(rows, front, strategies) + [last]
               else PrintersToInsert(rows, front, strategies)
  {
    assert (front + [last])[..|front|] == front;
    assert PrintersToInsert(rows, front, strategies) + [] == PrintersToInsert(rows, front, strategies);
  }

  lemma KeepAppend(front: seq<FilePrinter>, last: FilePrinter, fails: set<FilePrinter>)
    ensures KeepPrinters(front + [last], fails)
            == if last in fails then KeepPrinters(front, fails) else KeepPrinters(front, fails) + [last]
  {
    assert (front + [last])[..|front|] == front;
    assert KeepPrinters(front, fails) + [] == KeepPrinters(front, fails);
  }

  lemma {:induction false} KeptInserts(rows: map<Id, PrinterRow>, ps: seq<FilePrinter>,
                                       strategies: seq<PrinterStrategy>, fails: set<FilePrinter>)
    ensures PrintersToInsert(rows, KeepPrinters(ps, fails), strategies)
            == KeepPrinters(PrintersToInsert(rows, ps, strategies), fails)
  {
    if ps != [] {
      KeptInserts(rows, ps[..|ps| - 1], strategies, fails);
      KeptInsertsNext(rows, ps[..|ps| - 1], ps[|ps| - 1], strategies, fails);
      assert ps == ps[..|ps| - 1] + [ps[|ps| - 1]];
    }
  }

  lemma KeptInsertsNext(rows: map<Id, PrinterRow>, front: seq<FilePrinter>, last: FilePrinter,
                        strategies: seq<PrinterStrategy>, fails: set<FilePrinter>)
    requires PrintersToInsert(rows, KeepPrinters(front, fails), strategies)
             == KeepPrinters(PrintersToInsert(rows, front, strategies), fails)
    ensures PrintersToInsert(rows, KeepPrinters(front + [last], fails), strategies)
            == KeepPrinters(PrintersToInsert(rows, front + [last], strategies), fails)
  {
    InsertsAppend(rows, front, last, strategies);
    KeepAppend(front, last, fails);
    InsertsAppend(rows, KeepPrinters(front, fails), last, strategies);
    KeepAppend(PrintersToInsert(rows, front, strategies), last, fails);
  }

  function KeepTargets(us: seq<Target<FilePrinter>>, fails: set<FilePrinter>): seq<Target<FilePrinter>> {
    if us == [] then [] else
      KeepTargets(us[..|us| - 1], fails) + if us[|us| - 1].value in fails then [] else [us[|us| - 1]]
  }

  lemma {:induction false} KeptUpdates(rows: map<Id, PrinterRow>, ps: seq<FilePrinter>,
                                       strategies: seq<PrinterStrategy>, fails: set<FilePrinter>)
    ensures PrintersToUpdate(rows, KeepPrinters(ps, fails), strategies)
            == KeepTargets(PrintersToUpdate(rows, ps, strategies), fails)
  {
    if ps != [] {
      KeptUpdates(rows, ps[..|ps| - 1], strategies, fails);
      KeptUpdatesNext(rows, ps[..|ps| - 1], ps[|ps| - 1], strategies, fails);
      assert ps == ps[..|ps| - 1] + [ps[|ps| - 1]];
    }
  }

  lemma KeptUpdatesNext(rows: map<Id, PrinterRow>, front: seq<FilePrinter>, last: FilePrinter,
                        strategies: seq<PrinterStrategy>, fails: set<FilePrinter>)
    requires PrintersToUpdate(rows, KeepPrinters(front, fails), strategies)
             == KeepTargets(PrintersToUpdate(rows, front, strategies), fails)
    ensures PrintersToUpdate(rows, KeepPrinters(front + [last], fails), strategies)
            == KeepTargets(PrintersToUpdate(rows, front + [last], strategies), fails)
  {
    UpdatesAppend(rows, front, last, strategies);
    KeepAppend(front, last, fails);
    UpdatesAppend(rows, KeepPrinters(front, fails), last, strategies);
    var found := MatchPrinter(rows, last.row, strategies);
    if found.Some? { KeepTargetAppend(PrintersToUpdate(rows, front, strategies), Target(found.value, last), fails); }
  }

  lemma UpdatesAppend(rows: map<Id, PrinterRow>, front: seq<FilePrinter>, last: FilePrinter,
                      strategies: seq<PrinterStrategy>)
    ensures var found := MatchPrinter(rows, last.row, strategies);
            PrintersToUpdate(rows, front + [last], strategies)
            == if found.Some? then PrintersToUpdate(rows, front, strategies) + [Target(found.value, last)]
               else PrintersToUpdate(rows, front, strategies)
  {
    assert (front + [last])[..|front|] == front;
    assert PrintersToUpdate(rows, front, strategies) + [] == PrintersToUpdate(rows, front, strategies);
  }

  lemma KeepTargetAppend(front: seq<Target<FilePrinter>>, last: Target<FilePrinter>, fails: set<FilePrinter>)
    ensures KeepTargets(front + [last], fails)
            == if last.value in fails then KeepTargets(front, fails) else KeepTargets(front, fails) + [last]
  {
    assert (front + [last])[..|front|] == front;
    assert KeepTargets(front, fails) + [] == KeepTargets(front, fails);
  }

  lemma {:induction false} FailingCreatesSkipped(s: Printers, ps: seq<FilePrinter>, fails: set<FilePrinter>)
    ensures CreatePrinters(s, KeepPrinters(ps, fails), {}) == CreatePrinters(s, ps, fails)
  {
    if ps != [] {
      var (front, last) := (ps[..|ps| - 1], ps[|ps| - 1]);
      FailingCreatesSkipped(s, front, fails);
      var kept := KeepPrinters(front, fails);
      if last in fails {
        assert kept + [] == kept;
      } else {
        assert KeepPrinters(ps, fails)[..|kept|] == kept;
      }
    }
  }

  lemma {:induction false} FailingUpdatesSkipped(s: Printers, us: seq<Target<FilePrinter>>, fails: set<FilePrinter>)
    ensures UpdatePrinters(s, KeepTargets(us, fails), {}) == UpdatePrinters(s, us, fails)
  {
    if us != [] {
      var (front, last) := (us[..|us| - 1], us[|us| - 1]);
      FailingUpdatesSkipped(s, front, fails);
      var kept := KeepTargets(front, fails);
      if last.value in fails {
        assert kept + [] == kept;
      } else {
        assert KeepTargets(us, fails)[..|kept|] == kept;
      }
    }
  }

  // ---------- which ids are renamed ----------

  lemma {:induction false} CreatedIds(s: Printers, ps: seq<FilePrinter>, fails: set<FilePrinter>, k: Id)
    requires k in CreatePrinters(s, ps, fails).ids && k !in s.ids
    ensures exists p :: p in ps && p !in fails && p.id == k
  {
    var (front, last) := (ps[..|ps| - 1], ps[|ps| - 1]);
    if last !in fails && last.id == k {
    } else {
      CreatedIds(s, front, fails, k);
      var p :| p in front && p !in fails && p.id == k;
      assert p in ps;
    }
  }

  lemma {:induction false} UpdatedIds(s: Printers, us: seq<Target<FilePrinter>>, fails: set<FilePrinter>, k: Id)
    requires k in UpdatePrinters(s, us, fails).ids && k !in s.ids
    ensures exists u :: u in us && u.value !in fails && u.value.id == k
  {
    var (front, last) := (us[..|us| - 1], us[|us| - 1]);
    if last.value !in fails && last.value.id == k {
      assert last in us;
    } else {
      UpdatedIds(s, front, fails, k);
      var u :| u in front && u.value !in fails && u.value.id == k;
      assert u in us;
    }
  }

  lemma {:induction false} InsertsFromFile(rows: map<Id, PrinterRow>, ps: seq<FilePrinter>,
                                           strategies: seq<PrinterStrategy>, p: FilePrinter)
    ensures p in PrintersToInsert(rows, ps, strategies) <==> p in ps && MatchPrinter(rows, p.row, strategies).None?
  {
    if ps != [] {
      InsertsFromFile(rows, ps[..|ps| - 1], strategies, p);
      assert ps == ps[..|ps| - 1] + [ps[|ps| - 1]];
    }
  }

  lemma {:induction false} UpdatesFromFile(rows: map<Id, PrinterRow>, ps: seq<FilePrinter>,
                                           strategies: seq<PrinterStrategy>, u: Target<FilePrinter>)
    ensures u in PrintersToUpdate(rows, ps, strategies)
            <==> u.value in ps && MatchPrinter(rows, u.value.row, strategies) == Some(u.id)
  {
    if ps != [] {
      UpdatesFromFile(rows, ps[..|ps| - 1], strategies, u);
      assert ps == ps[..|ps| - 1] + [ps[|ps| - 1]];
    }
  }

  /** Only printers that did not fail are renamed. */
  lemma RenamedDidNotFail(farm: Farm, file: File, fails: set<FilePrinter>, k: Id)
    requires k in ImportPrinters(farm, file, fails).ids
    ensures exists p :: p in file.printers && p !in fails && p.id == k
  {
    var strategies := file.config.printerStrategies;
    var inserts := PrintersToInsert(farm.printers, file.printers, strategies);
    var updates := PrintersToUpdate(farm.printers, file.printers, strategies);
    var start := Printers(farm.printers, farm.nextPrinter, map[]);
    var created := CreatePrinters(start, inserts, fails);
    if k in created.ids {
      CreatedIds(start, inserts, fails, k);
      var p :| p in inserts && p !in fails && p.id == k;
      InsertsFromFile(farm.printers, file.printers, strategies, p);
    } else {
      UpdatedIds(created, updates, fails, k);
      var u :| u in updates && u.value !in fails && u.value.id == k;
      UpdatesFromFile(farm.printers, file.printers, strategies, u);
    }
  }

  lemma FailedIdsNotRenamed(farm: Farm, file: File, fails: set<FilePrinter>)
    ensures ImportPrinters(farm, file, fails).ids.Keys !! FailedIds(file.printers, fails)
  {
    forall k | k in ImportPrinters(farm, file, fails).ids ensures k !in FailedIds(file.printers, fails) {
      RenamedDidNotFail(farm, file, fails, k);
    }
  }

  // ---------- floors and tags see only the renaming ----------

  lemma {:induction false} KeptEntriesMapAlike(ids: IdMap, layout: seq<Entry>, gone: set<Id>)
    requires ids.Keys !! gone
    ensures MapEntries(ids, KeepEntries(layout, gone)) == MapEntries(ids, layout)
  {
    if layout != [] {
      KeptEntriesMapAlike(ids, layout[..|layout| - 1], gone);
      var kept := KeepEntries(layout[..|layout| - 1], gone);
      assert (kept + [layout[|layout| - 1]])[..|kept|] == kept;
      assert kept + [] == kept;
    }
  }

  lemma {:induction false} KeptMembersMapAlike(ids: IdMap, ps: seq<Id>, gone: set<Id>)
    requires ids.Keys !! gone
    ensures MapMembers(ids, KeepIds(ps, gone)) == MapMembers(ids, ps)
  {
    if ps != [] {
      var (front, last) := (ps[..|ps| - 1], ps[|ps| - 1]);
      KeptMembersMapAlike(ids, front, gone);
      MapMembersAppend(ids, front, last);
      MapMembersAppend(ids, KeepIds(front, gone), last);
      assert front + [last] == ps;
      assert KeepIds(front, gone) + [] == KeepIds(front, gone);
    }
  }

  lemma MapMembersAppend(ids: IdMap, ps: seq<Id>, p: Id)
    ensures MapMembers(ids, ps + [p]) == MapMembers(ids, ps) + if p in ids then {ids[p]} else {}
  {
    var all := ps + [p];
    forall x | x in MapMembers(ids, ps) ensures x in MapMembers(ids, all) {
      var i :| 0 <= i < |ps| && ps[i] in ids && ids[ps[i]] == x;
      assert all[i] == ps[i];
    }
    assert all[|ps|] == p;
  }

  lemma {:induction false} KeptFloorsToInsert(floors: map<Id, Floor>, fs: seq<FileFloor>, strategy: FloorStrategy,
                                              gone: set<Id>)
    ensures FloorsToInsert(floors, KeepFloors(fs, gone), strategy)
            == KeepFloors(FloorsToInsert(floors, fs, strategy), gone)
  {
    if fs != [] {
      var (front, f) := (fs[..|fs| - 1], fs[|fs| - 1]);
      assert front + [f] == fs;
      KeptFloorsToInsert(floors, front, strategy, gone);
      KeptFloorInsertsNext(floors, front, f, strategy, gone);
    }
  }

  lemma KeptFloorInsertsNext(floors: map<Id, Floor>, front: seq<FileFloor>, f: FileFloor, strategy: FloorStrategy,
                             gone: set<Id>)
    requires FloorsToInsert(floors, KeepFloors(front, gone), strategy)
             == KeepFloors(FloorsToInsert(floors, front, strategy), gone)
    ensures FloorsToInsert(floors, KeepFloors(front + [f], gone), strategy)
            == KeepFloors(FloorsToInsert(floors, front + [f], strategy), gone)
  {
    KeepFloorsAppend(front, f, gone);
    FloorInsertsAppend(floors, front, f, strategy);
    FloorInsertsAppend(floors, KeepFloors(front, gone), KeepFloor(f, gone), strategy);
    KeepFloorsAppend(FloorsToInsert(floors, front, strategy), f, gone);
  }

  lemma KeepFloorsAppend(front: seq<FileFloor>, f: FileFloor, gone: set<Id>)
    ensures KeepFloors(front + [f], gone) == KeepFloors(front, gone) + [KeepFloor(f, gone)]
  {
  }

  function KeepFloorTargets(us: seq<Target<FileFloor>>, gone: set<Id>): (r: seq<Target<FileFloor>>)
    ensures |r| == |us| && forall i :: 0 <= i < |us| ==> r[i] == Target(us[i].id, KeepFloor(us[i].value, gone))
  {
    seq(|us|, i requires 0 <= i < |us| => Target(us[i].id, KeepFloor(us[i].value, gone)))
  }

  lemma {:induction false} KeptFloorsToUpdate(floors: map<Id, Floor>, fs: seq<FileFloor>, strategy: FloorStrategy,
                                              gone: set<Id>)
    ensures FloorsToUpdate(floors, KeepFloors(fs, gone), strategy)
            == KeepFloorTargets(FloorsToUpdate(floors, fs, strategy), gone)
  {
    if fs != [] {
      var (front, f) := (fs[..|fs| - 1], fs[|fs| - 1]);
      assert front + [f] == fs;
      KeptFloorsToUpdate(floors, front, strategy, gone);
      KeptFloorUpdatesNext(floors, front, f, strategy, gone);
    }
  }

  lemma KeptFloorUpdatesNext(floors: map<Id, Floor>, front: seq<FileFloor>, f: FileFloor, strategy: FloorStrategy,
                             gone: set<Id>)
    requires FloorsToUpdate(floors, KeepFloors(front, gone), strategy)
             == KeepFloorTargets(FloorsToUpdate(floors, front, strategy), gone)
    ensures FloorsToUpdate(floors, KeepFloors(front + [f], gone), strategy)
            == KeepFloorTargets(FloorsToUpdate(floors, front + [f], strategy), gone)
  {
    KeepFloorsAppend(front, f, gone);
    FloorUpdatesAppend(floors, front, f, strategy);
    FloorUpdatesAppend(floors, KeepFloors(front, gone), KeepFloor(f, gone), strategy);
    var found := MatchFloor(floors, f, strategy);
    if found.Some? { KeepTargetsAppend(FloorsToUpdate(floors, front, strategy), Target(found.value, f), gone); }
  }

  lemma KeepTargetsAppend(front: seq<Target<FileFloor>>, u: Target<FileFloor>, gone: set<Id>)
    ensures KeepFloorTargets(front + [u], gone)
            == KeepFloorTargets(front, gone) + [Target(u.id, KeepFloor(u.value, gone))]
  {
  }

  lemma {:induction false} KeptFloorsCreateAlike(s: Floors, fs: seq<FileFloor>, config: Config, ids: IdMap,
                                                 gone: set<Id>)
    requires config.exportFloorGrid && config.exportPrinters && ids.Keys !! gone
    ensures CreateFloors(s, KeepFloors(fs, gone), config, ids) == CreateFloors(s, fs, config, ids)
  {
    if fs != [] {
      KeptFloorsCreateAlike(s, fs[..|fs| - 1], config, ids, gone);
      assert KeepFloors(fs, gone)[..|fs| - 1] == KeepFloors(fs[..|fs| - 1], gone);
      KeptEntriesMapAlike(ids, fs[|fs| - 1].printers, gone);
    }
  }

  lemma KeptFloorUpdatesAlike(s: Floors, u: Target<FileFloor>, config: Config, ids: IdMap, gone: set<Id>)
    requires config.exportFloorGrid && config.exportPrinters && ids.Keys !! gone
    ensures UpdateOneFloor(s, Target(u.id, KeepFloor(u.value, gone)), config, ids) == UpdateOneFloor(s, u, config, ids)
  {
    KeptEntriesMapAlike(ids, u.value.printers, gone);
  }

  lemma {:induction false} KeptFloorsUpdateAlike(s: Floors, us: seq<Target<FileFloor>>, config: Config, ids: IdMap,
                                                 gone: set<Id>)
    requires config.exportFloorGrid && config.exportPrinters && ids.Keys !! gone
    ensures UpdateFloors(s, KeepFloorTargets(us, gone), config, ids) == UpdateFloors(s, us, config, ids)
  {
    if us != [] {
      var (front, u) := (us[..|us| - 1], us[|us| - 1]);
      KeptFloorsUpdateAlike(s, front, config, ids, gone);
      assert KeepFloorTargets(us, gone)[..|us| - 1] == KeepFloorTargets(front, gone);
      KeptFloorUpdatesAlike(UpdateFloors(s, front, config, ids), u, config, ids, gone);
    }
  }

  lemma {:induction false} KeptTagsToInsert(tags: map<Id, Tag>, ts: seq<FileTag>, gone: set<Id>)
    ensures TagsToInsert(tags, KeepTags(ts, gone)) == KeepTags(TagsToInsert(tags, ts), gone)
  {
    if ts != [] {
      KeptTagsToInsert(tags, ts[1..], gone);
      assert KeepTags(ts, gone)[1..] == KeepTags(ts[1..], gone);
    }
  }

  function KeepTagTargets(us: seq<Target<FileTag>>, gone: set<Id>): (r: seq<Target<FileTag>>)
    ensures |r| == |us| && forall i :: 0 <= i < |us| ==> r[i] == Target(us[i].id, KeepTag(us[i].value, gone))
  {
    seq(|us|, i requires 0 <= i < |us| => Target(us[i].id, KeepTag(us[i].value, gone)))
  }

  lemma {:induction false} KeptTagsToUpdate(tags: map<Id, Tag>, ts: seq<FileTag>, gone: set<Id>)
    ensures TagsToUpdate(tags, KeepTags(ts, gone)) == KeepTagTargets(TagsToUpdate(tags, ts), gone)
  {
    if ts != [] {
      KeptTagsToUpdate(tags, ts[1..], gone);
      assert KeepTags(ts, gone)[1..] == KeepTags(ts[1..], gone);
    }
  }

  lemma {:induction false} KeptTagsCreateAlike(s: Tags, ts: seq<FileTag>, ids: IdMap, gone: set<Id>)
    requires ids.Keys !! gone
    ensures CreateTags(s, KeepTags(ts, gone), ids) == CreateTags(s, ts, ids)
  {
    if ts != [] {
      KeptTagsCreateAlike(s, ts[..|ts| - 1], ids, gone);
      assert KeepTags(ts, gone)[..|ts| - 1] == KeepTags(ts[..|ts| - 1], gone);
      KeptMembersMapAlike(ids, ts[|ts| - 1].printers, gone);
    }
  }

  lemma {:induction false} KeptTagsUpdateAlike(s: Tags, us: seq<Target<FileTag>>, ids: IdMap, gone: set<Id>)
    requires ids.Keys !! gone
    ensures UpdateTags(s, KeepTagTargets(us, gone), ids) == UpdateTags(s, us, ids)
  {
    if us != [] {
      KeptTagsUpdateAlike(s, us[..|us| - 1], ids, gone);
      assert KeepTagTargets(us, gone)[..|us| - 1] == KeepTagTargets(us[..|us| - 1], gone);
      KeptMembersMapAlike(ids, us[|us| - 1].value.printers, gone);
    }
  }

  lemma {:induction false} KeptEntriesValid(layout: seq<Entry>, gone: set<Id>)
    requires ValidEntries(layout)
    ensures ValidEntries(KeepEntries(layout, gone))
  {
    if layout != [] { KeptEntriesValid(layout[..|layout| - 1], gone); }
  }

  /** Whatever subset of the printers fails to be created or updated, the import gives the farm that the file
      without those printers, the positions of their ids and their memberships gives when nothing fails. An id
      that another printer of the file carries too stays. */
  lemma FailuresAreIsolated(farm: Farm, file: File, fails: set<FilePrinter>)
    requires ValidFile(file)
    ensures Import(farm, file, fails) == Import(farm, Without(file, fails), {})
  {
    var gone := FailedIds(file.printers, fails);
    var kept := Without(file, fails);
    var strategies := file.config.printerStrategies;
    forall i | 0 <= i < |file.floors| ensures ValidName(kept.floors[i].name) && ValidEntries(kept.floors[i].printers) {
      KeptEntriesValid(file.floors[i].printers, gone);
    }
    var start := Printers(farm.printers, farm.nextPrinter, map[]);
    var inserts := PrintersToInsert(farm.printers, file.printers, strategies);
    var updates := PrintersToUpdate(farm.printers, file.printers, strategies);
    KeptInserts(farm.printers, file.printers, strategies, fails);
    KeptUpdates(farm.printers, file.printers, strategies, fails);
    FailingCreatesSkipped(start, inserts, fails);
    FailingUpdatesSkipped(CreatePrinters(start, inserts, fails), updates, fails);
    var printers := ImportPrinters(farm, file, fails);
    assert ImportPrinters(farm, kept, {}) == printers;
    FailedIdsNotRenamed(farm, file, fails);

    var store := farm.store.(db := farm.store.db.(printers := printers.rows.Keys));
    FloorsSeeOnlyTheRenaming(store, file, printers.ids, gone);
    TagsSeeOnlyTheRenaming(Tags(farm.tags, farm.nextTag, farm.members), file, printers.ids, gone);
  }

  lemma FloorsSeeOnlyTheRenaming(store: Store, file: File, ids: IdMap, gone: set<Id>)
    requires ids.Keys !! gone
    ensures ImportFloors(store, file.(floors := FloorsWithout(file, gone)), ids) == ImportFloors(store, file, ids)
  {
    if file.config.exportFloorGrid && file.config.exportPrinters { KeptFloorsImportAlike(store, file, ids, gone); }
  }

  lemma KeptFloorsImportAlike(store: Store, file: File, ids: IdMap, gone: set<Id>)
    requires file.config.exportFloorGrid && file.config.exportPrinters && ids.Keys !! gone
    ensures ImportFloors(store, file.(floors := KeepFloors(file.floors, gone)), ids) == ImportFloors(store, file, ids)
  {
    var strategy := file.config.floorStrategy;
    var inserts := FloorsToInsert(store.db.floors, file.floors, strategy);
    KeptFloorsToInsert(store.db.floors, file.floors, strategy, gone);
    KeptFloorsToUpdate(store.db.floors, file.floors, strategy, gone);
    KeptFloorsCreateAlike(Floors(store, map[]), inserts, file.config, ids, gone);
    KeptFloorsUpdateAlike(CreateFloors(Floors(store, map[]), inserts, file.config, ids),
                          FloorsToUpdate(store.db.floors, file.floors, strategy), file.config, ids, gone);
  }

  lemma TagsSeeOnlyTheRenaming(tags: Tags, file: File, ids: IdMap, gone: set<Id>)
    requires ids.Keys !! gone
    ensures ImportTags(tags, file.(tags := KeepTags(file.tags, gone)), ids) == ImportTags(tags, file, ids)
  {
    var inserts := TagsToInsert(tags.tags, file.tags);
    KeptTagsToInsert(tags.tags, file.tags, gone);
    KeptTagsToUpdate(tags.tags, file.tags, gone);
    KeptTagsCreateAlike(tags, inserts, ids, gone);
    KeptTagsUpdateAlike(CreateTags(tags, inserts, ids), TagsToUpdate(tags.tags, file.tags), ids, gone);
  }
}
