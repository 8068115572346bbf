/** YamlService: the import as the loops that perform it. */
module YamlServiceModel {
  import opened Common
  import opened Text
  import opened FloorGrid
  import opened FloorDb
  import opened FloorCache
  import opened FloorServiceModel
  import opened FloorStoreModel
  import opened Yaml
  import opened YamlIsolation

  class YamlService {
    const floorStore: FloorStore
    var printers: map<Id, PrinterRow>
    var nextPrinter: Id
    var tags: map<Id, Tag>
    var nextTag: Id
    var members: set<(Id, Id)>

    ghost predicate Valid()
      reads this, floorStore, floorStore.floorService
    {
      floorStore.Valid() && floorStore.floorService.printers == printers.Keys
    }

    ghost function Farm(): Farm
      reads this, floorStore, floorStore.floorService
    {
      Yaml.Farm(printers, nextPrinter, floorStore.State(), tags, nextTag, members)
    }

    constructor (floorStore: FloorStore)
      requires floorStore.Valid() && floorStore.floorService.printers == {}
      ensures Valid() && this.floorStore == floorStore
      ensures Farm() == Yaml.Farm(map[], 1, floorStore.State(), map[], 1, {})
    {
      this.floorStore, printers, nextPrinter, tags, nextTag, members := floorStore, map[], 1, map[], 1, {};
    }

    // ---------- analysis ----------

    method AnalysePrintersUpsert(upsertPrinters: seq<FilePrinter>, strategies: seq<PrinterStrategy>)
      returns (updates: seq<Target<FilePrinter>>, inserts: seq<FilePrinter>)
      ensures updates == PrintersToUpdate(printers, upsertPrinters, strategies)
      ensures inserts == PrintersToInsert(printers, upsertPrinters, strategies)
    {
      updates, inserts := [], [];
      for i := 0 to |upsertPrinters|
        invariant updates == PrintersToUpdate(printers, upsertPrinters[..i], strategies)
        invariant inserts == PrintersToInsert(printers, upsertPrinters[..i], strategies)
      {
        var printer := upsertPrinters[i];
        var found: Option<Id> := None;
        var k := 0;
        while k < |strategies| && found.None?
          invariant 0 <= k <= |strategies|
          invariant MatchPrinter(printers, printer.row, strategies) ==
                    if found.Some? then found else MatchPrinter(printers, printer.row, strategies[k..])
        {
          match strategies[k] {
            case ByName => found := First(PrintersNamed(printers, printer.row.name));
            case ByUrl => found := First(PrintersAt(printers, printer.row.url));
            case ById =>
          }
          assert strategies[k..][1..] == strategies[k + 1..];
          k := k + 1;
        }
        if found.Some? {
          updates := updates + [Target(found.value, printer)];
        } else {
          inserts := inserts + [printer];
        }
        assert upsertPrinters[..i + 1][..i] == upsertPrinters[..i];
      }
      assert upsertPrinters[..|upsertPrinters|] == upsertPrinters;
    }

    method AnalyseFloorsUpsert(upsertFloors: seq<FileFloor>, strategy: FloorStrategy)
      returns (updates: seq<Target<FileFloor>>, inserts: seq<FileFloor>)
      ensures updates == FloorsToUpdate(floorStore.floorService.floors, upsertFloors, strategy)
      ensures inserts == FloorsToInsert(floorStore.floorService.floors, upsertFloors, strategy)
    {
      updates, inserts := [], [];
      var existing := floorStore.floorService.floors;
      for i := 0 to |upsertFloors|
        invariant updates == FloorsToUpdate(existing, upsertFloors[..i], strategy)
        invariant inserts == FloorsToInsert(existing, upsertFloors[..i], strategy)
      {
        var floor := upsertFloors[i];
        var found := MatchFloor(existing, floor, strategy);
        if found.Some? {
          updates := updates + [Target(found.value, floor)];
        } else {
          inserts := inserts + [floor];
        }
        assert upsertFloors[..i + 1][..i] == upsertFloors[..i];
      }
      assert upsertFloors[..|upsertFloors|] == upsertFloors;
    }

    method AnalyseUpsertTags(upsertTags: seq<FileTag>) returns (updates: seq<Target<FileTag>>, inserts: seq<FileTag>)
      ensures updates == TagsToUpdate(tags, upsertTags) && inserts == TagsToInsert(tags, upsertTags)
    {
      updates, inserts := [], [];
      for i := 0 to |upsertTags|
        invariant updates == []
        invariant TagsToUpdate(tags, upsertTags) == TagsToUpdate(tags, upsertTags[i..])
        invariant TagsToInsert(tags, upsertTags) == inserts + TagsToInsert(tags, upsertTags[i..])
      {
        var tag := upsertTags[i];
        var found := First(TagsNamed(tags, tag.name));
        if found.None? {
          inserts := inserts + [tag];
        } else {
          updates := [Target(found.value, tag)];
          return;
        }
        assert upsertTags[i..][1..] == upsertTags[i + 1..];
      }
    }

    // ---------- printers ----------

    method CreateAll(inserts: seq<FilePrinter>, fails: set<FilePrinter>, ids0: IdMap) returns (ids: IdMap)
      requires Valid()
      modifies this, floorStore.floorService
      ensures Valid() && Printers(printers, nextPrinter, ids) ==
                         CreatePrinters(Printers(old(printers), old(nextPrinter), ids0), inserts, fails)
      ensures floorStore.State()
              == old(floorStore.State()).(db := old(floorStore.State()).db.(printers := printers.Keys))
      ensures (tags, nextTag, members) == old((tags, nextTag, members))
    {
      ids := ids0;
      for i := 0 to |inserts|
        invariant Valid() && Printers(printers, nextPrinter, ids) ==
                             CreatePrinters(Printers(old(printers), old(nextPrinter), ids0), inserts[..i], fails)
        invariant floorStore.State()
                  == old(floorStore.State()).(db := old(floorStore.State()).db.(printers := printers.Keys))
        invariant (tags, nextTag, members) == old((tags, nextTag, members))
      {
        var newPrinter := inserts[i];
        if newPrinter !in fails {
          var id := nextPrinter;
          floorStore.floorService.PrinterCreated(id);
          printers, nextPrinter := printers[id := newPrinter.row], nextPrinter + 1;
          ids := ids[newPrinter.id := id];
        }
        assert inserts[..i + 1][..i] == inserts[..i];
      }
      assert inserts[..|inserts|] == inserts;
    }

    method UpdateAll(updates: seq<Target<FilePrinter>>, fails: set<FilePrinter>, ids0: IdMap) returns (ids: IdMap)
      requires Valid()
      modifies `printers
      ensures Valid() && printers.Keys == old(printers).Keys
      ensures Printers(printers, nextPrinter, ids)
              == UpdatePrinters(Printers(old(printers), nextPrinter, ids0), updates, fails)
    {
      ids := ids0;
      for i := 0 to |updates|
        invariant Valid() && printers.Keys == old(printers).Keys
        invariant Printers(printers, nextPrinter, ids) ==
                  UpdatePrinters(Printers(old(printers), nextPrinter, ids0), updates[..i], fails)
      {
        var u := updates[i];
        if u.value !in fails && u.id in printers {
          printers := printers[u.id := u.value.row];
          ids := ids[u.value.id := u.id];
        }
        assert updates[..i + 1][..i] == updates[..i];
      }
      assert updates[..|updates|] == updates;
    }

    // ---------- floors ----------

    method KnownPositions(positions: seq<Entry>, ids: IdMap) returns (known: seq<Entry>)
      ensures known == MapEntries(ids, positions)
    {
      known := [];
      for i := 0 to |positions|
        invariant known == MapEntries(ids, positions[..i])
      {
        var position := positions[i];
        if position.printerId in ids {
          known := known + [Entry(ids[position.printerId], position.x, position.y)];
        }
        assert positions[..i + 1][..i] == positions[..i];
      }
      assert positions[..|positions|] == positions;
    }

    method CreateFloorOf(floor: FileFloor, config: Config, ids: IdMap, floorIds0: IdMap) returns (floorIds: IdMap)
      requires Valid()
      modifies floorStore, floorStore.floorService
      ensures Valid()
      ensures Floors(floorStore.State(), floorIds)
              == CreateOneFloor(Floors(old(floorStore.State()), floorIds0), floor, config, ids)
    {
      var positions := floor.printers;
      if config.exportFloorGrid && config.exportPrinters {
        positions := KnownPositions(floor.printers, ids);
      }
      var created, error := floorStore.Create(floor.name, floor.order, positions);
      floorIds := if error.None? then floorIds0[floor.id := created] else floorIds0;
    }

    method CreateAllFloors(inserts: seq<FileFloor>, config: Config, ids: IdMap) returns (floorIds: IdMap)
      requires Valid()
      modifies floorStore, floorStore.floorService
      ensures Valid()
      ensures Floors(floorStore.State(), floorIds)
              == CreateFloors(Floors(old(floorStore.State()), map[]), inserts, config, ids)
    {
      floorIds := map[];
      for i := 0 to |inserts|
        invariant Valid()
        invariant Floors(floorStore.State(), floorIds) ==
                  CreateFloors(Floors(old(floorStore.State()), map[]), inserts[..i], config, ids)
      {
        floorIds := CreateFloorOf(inserts[i], config, ids, floorIds);
        assert inserts[..i + 1][..i] == inserts[..i];
      }
      assert inserts[..|inserts|] == inserts;
    }

    method UpdateFloorOf(update: Target<FileFloor>, config: Config, ids: IdMap, floorIds0: IdMap)
      returns (floorIds: IdMap)
      requires Valid()
      modifies floorStore, floorStore.floorService
      ensures Valid()
      ensures Floors(floorStore.State(), floorIds)
              == UpdateOneFloor(Floors(old(floorStore.State()), floorIds0), update, config, ids)
    {
      var floor := update.value;
      var positions := floor.printers;
      if config.exportFloorGrid && config.exportPrinters {
        positions := KnownPositions(floor.printers, ids);
      }
      var error := floorStore.Update(update.id, floor.name, floor.order, positions);
      floorIds := if error.None? then floorIds0[floor.id := update.id] else floorIds0;
    }

    method UpdateAllFloors(updates: seq<Target<FileFloor>>, config: Config, ids: IdMap, floorIds0: IdMap)
      returns (floorIds: IdMap)
      requires Valid()
      modifies floorStore, floorStore.floorService
      ensures Valid()
      ensures Floors(floorStore.State(), floorIds)
              == UpdateFloors(Floors(old(floorStore.State()), floorIds0), updates, config, ids)
    {
      floorIds := floorIds0;
      for i := 0 to |updates|
        invariant Valid()
        invariant Floors(floorStore.State(), floorIds) ==
                  UpdateFloors(Floors(old(floorStore.State()), floorIds0), updates[..i], config, ids)
      {
        floorIds := UpdateFloorOf(updates[i], config, ids, floorIds);
        assert updates[..i + 1][..i] == updates[..i];
      }
      assert updates[..|updates|] == updates;
    }

    // ---------- tags ----------

    method CreateAllTags(inserts: seq<FileTag>, ids: IdMap)
      modifies `tags, `nextTag, `members
      ensures Tags(tags, nextTag, members) == CreateTags(old(Tags(tags, nextTag, members)), inserts, ids)
    {
      for i := 0 to |inserts|
        invariant Tags(tags, nextTag, members) == CreateTags(old(Tags(tags, nextTag, members)), inserts[..i], ids)
      {
        var tag := inserts[i];
        var created := nextTag;
        ghost var before := members;
        tags, nextTag := tags[created := Tag(tag.name, tag.color)], nextTag + 1;
        ghost var atCreation := tags;
        for k := 0 to |tag.printers|
          invariant members == before + Paired(created, MapMembers(ids, tag.printers[..k]))
          invariant (tags, nextTag) == (atCreation, created + 1)
        {
          MapMembersAppend(ids, tag.printers[..k], tag.printers[k]);
          assert tag.printers[..k + 1] == tag.printers[..k] + [tag.printers[k]];
          if tag.printers[k] in ids {
            members := members + {(created, ids[tag.printers[k]])};
          }
        }
        assert tag.printers[..|tag.printers|] == tag.printers;
        assert inserts[..i + 1][..i] == inserts[..i];
      }
      assert inserts[..|inserts|] == inserts;
    }

    method UpdateAllTags(updates: seq<Target<FileTag>>, ids: IdMap)
      modifies `members
      ensures Tags(tags, nextTag, members) == UpdateTags(old(Tags(tags, nextTag, members)), updates, ids)
    {
      for i := 0 to |updates|
        invariant Tags(tags, nextTag, members) == UpdateTags(old(Tags(tags, nextTag, members)), updates[..i], ids)
      {
        var t := updates[i].id;
        var existing := MembersOf(members, t);
        var wanted := MapMembers(ids, updates[i].value.printers);
        ghost var before := members;
        var unwanted := existing - wanted;
        while unwanted != {}
          invariant members == before - Paired(t, existing - wanted - unwanted)
          invariant unwanted <= existing - wanted
          decreases unwanted
        {
          var p :| p in unwanted;
          members, unwanted := members - {(t, p)}, unwanted - {p};
        }
        var missing := wanted - existing;
        while missing != {}
          invariant members == before - Paired(t, existing - wanted) + Paired(t, wanted - existing - missing)
          invariant missing <= wanted - existing
          decreases missing
        {
          var p :| p in missing;
          members, missing := members + {(t, p)}, missing - {p};
        }
        DifferenceSetsMembers(before, t, wanted);
        assert updates[..i + 1][..i] == updates[..i];
      }
      assert updates[..|updates|] == updates;
    }

    // ---------- import ----------

    method ImportYaml(file: File, fails: set<FilePrinter>) returns (printerIdMap: IdMap, floorIdMap: IdMap)
      requires Valid()
      modifies this, floorStore, floorStore.floorService
      ensures Valid()
      ensures ImportResult(Farm(), printerIdMap, floorIdMap) == Import(old(Farm()), file, fails)
    {
      if !ValidFile(file) { return map[], map[]; }
      var updatePrinters, insertPrinters := AnalysePrintersUpsert(file.printers, file.config.printerStrategies);
      var updateFloors, insertFloors := AnalyseFloorsUpsert(file.floors, file.config.floorStrategy);
      var updateTags, insertTags := AnalyseUpsertTags(file.tags);

      printerIdMap := WritePrinters(insertPrinters, updatePrinters, fails);
      assert Printers(printers, nextPrinter, printerIdMap) == ImportPrinters(old(Farm()), file, fails);
      floorIdMap := WriteFloors(insertFloors, updateFloors, file.config, printerIdMap);
      WriteTags(insertTags, updateTags, printerIdMap);
    }

    method WriteTags(inserts: seq<FileTag>, updates: seq<Target<FileTag>>, ids: IdMap)
      modifies `tags, `nextTag, `members
      ensures Tags(tags, nextTag, members)
              == UpdateTags(CreateTags(old(Tags(tags, nextTag, members)), inserts, ids), updates, ids)
    {
      CreateAllTags(inserts, ids);
      UpdateAllTags(updates, ids);
    }

    method WritePrinters(inserts: seq<FilePrinter>, updates: seq<Target<FilePrinter>>, fails: set<FilePrinter>)
      returns (ids: IdMap)
      requires Valid()
      modifies this, floorStore.floorService
      ensures Valid() && Printers(printers, nextPrinter, ids) ==
                         UpdatePrinters(CreatePrinters(Printers(old(printers), old(nextPrinter), map[]), inserts,
                               fails), updates, fails)
      ensures floorStore.State()
              == old(floorStore.State()).(db := old(floorStore.State()).db.(printers := printers.Keys))
      ensures (tags, nextTag, members) == old((tags, nextTag, members))
    {
      ids := CreateAll(inserts, fails, map[]);
      ids := UpdateAll(updates, fails, ids);
    }

    method WriteFloors(inserts: seq<FileFloor>, updates: seq<Target<FileFloor>>, config: Config, ids: IdMap)
      returns (floorIds: IdMap)
      requires Valid()
      modifies floorStore, floorStore.floorService
      ensures Valid()
      ensures var done := UpdateFloors(CreateFloors(Floors(old(floorStore.State()), map[]), inserts, config, ids),
                updates, config, ids);
              Floors(floorStore.State(), floorIds) == done.(store := Apply(done.store, LoadStore))
    {
      floorIds := CreateAllFloors(inserts, config, ids);
      floorIds := UpdateAllFloors(updates, config, ids, floorIds);
      floorStore.LoadStore();
    }
  }

  lemma DifferenceSetsMembers(members: set<(Id, Id)>, t: Id, wanted: set<Id>)
    ensures members - Paired(t, MembersOf(members, t) - wanted) + Paired(t, wanted - MembersOf(members, t))
            == SetMembers(members, t, wanted)
  {
    var existing := MembersOf(members, t);
    forall m: (Id, Id) ensures m in Paired(t, existing) <==> m in members && m.0 == t {
      if m in members && m.0 == t { assert m.1 in existing; }
    }
    forall m: (Id, Id), ps: set<Id> ensures m in Paired(t, ps) <==> m.0 == t && m.1 in ps {
      if m.0 == t && m.1 in ps { assert m == (t, m.1); }
    }
  }
}
