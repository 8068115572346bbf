/** The YAML backup: what an export writes down and what an import does to a farm. */
module Yaml {
  import opened Common
  import opened Text
  import opened FloorGrid
  import opened FloorDb
  import opened FloorCache

  /** A printer row; `connection` stands for type, login and the enabled flag. */
  datatype PrinterRow = PrinterRow(name: string, url: string, connection: string)

  datatype Tag = Tag(name: string, color: Option<string>)

  /** The farm; `members` holds (tag, printer) pairs. */
  datatype Farm = Farm(printers: map<Id, PrinterRow>, nextPrinter: Id, store: Store,
                       tags: map<Id, Tag>, nextTag: Id, members: set<(Id, Id)>)

  datatype FilePrinter = FilePrinter(id: Id, row: PrinterRow)
  datatype FileFloor = FileFloor(id: Id, name: string, order: int, printers: seq<Entry>)
  datatype FileTag = FileTag(name: string, color: Option<string>, printers: seq<Id>)

  /** "id" is accepted by the schema but compares nothing. */
  datatype PrinterStrategy = ByName | ByUrl | ById
  datatype FloorStrategy = FloorByName | FloorByOrder | FloorById

  datatype Config = Config(exportPrinters: bool, exportFloorGrid: bool,
                           printerStrategies: seq<PrinterStrategy>, floorStrategy: FloorStrategy)

  datatype File = File(config: Config, printers: seq<FilePrinter>, floors: seq<FileFloor>, tags: seq<FileTag>)

  ghost predicate WellFormed(farm: Farm) {
    && (forall p :: p in farm.printers ==> p < farm.nextPrinter)
    && farm.store.db.printers == farm.printers.Keys
    && Consistent(farm.store.db)
    && (forall t :: t in farm.tags ==> t < farm.nextTag)
    && (forall m :: m in farm.members ==> m.0 in farm.tags && m.1 in farm.printers)
  }

  /** What the import schema checks before anything is written. */
  predicate ValidFile(file: File) {
    forall i :: 0 <= i < |file.floors| ==> ValidName(file.floors[i].name) && ValidEntries(file.floors[i].printers)
  }

  // ---------- matching against the farm ----------

  /** findIndex over rows listed by id. */
  function First(ids: set<Id>): (r: Option<Id>)
    ensures r.None? <==> ids == {}
    ensures r.Some? ==> r.value in ids && forall i :: i in ids ==> r.value <= i
  {
    var s := SortBy(ids, Ascending());
    if s == [] then None else
      assert s[0] in s;
      assert forall i :: i in ids ==> i in s && (i == s[0] || Ascending()(s[0], i));
      Some(s[0])
  }

  ghost predicate Least(ids: set<Id>, m: Id) {
    m in ids && forall i :: i in ids ==> m <= i
  }

  lemma FirstIsLeast(ids: set<Id>, m: Id)
    ensures First(ids) == Some(m) <==> Least(ids, m)
  {
  }

  function PrintersNamed(rows: map<Id, PrinterRow>, name: string): set<Id> {
    set p | p in rows && Lower(rows[p].name) == Lower(name)
  }

  /** The URL of the file is lower-cased, those of the farm are not. */
  function PrintersAt(rows: map<Id, PrinterRow>, url: string): set<Id> {
    set p | p in rows && rows[p].url == Lower(url)
  }

  function FloorsNamed(floors: map<Id, Floor>, name: string): set<Id> {
    set f | f in floors && Lower(floors[f].name) == Lower(name)
  }

  function FloorsAt(floors: map<Id, Floor>, order: int): set<Id> {
    set f | f in floors && floors[f].order == order
  }

  function TagsNamed(tags: map<Id, Tag>, name: string): set<Id> {
    set t | t in tags && Lower(tags[t].name) == Lower(name)
  }

  /** The first strategy that finds a printer decides. */
  function MatchPrinter(rows: map<Id, PrinterRow>, row: PrinterRow, strategies: seq<PrinterStrategy>): Option<Id> {
    if strategies == [] then None else
      var found := match strategies[0]
        case ByName => First(PrintersNamed(rows, row.name))
        case ByUrl => First(PrintersAt(rows, row.url))
        case ById => None;
      if found.Some? then found else MatchPrinter(rows, row, strategies[1..])
  }

  function MatchFloor(floors: map<Id, Floor>, floor: FileFloor, strategy: FloorStrategy): Option<Id> {
    match strategy
    case FloorByName => First(FloorsNamed(floors, floor.name))
    case FloorByOrder => First(FloorsAt(floors, floor.order))
    case FloorById => None
  }

  /** An entry of the file together with the row it will overwrite. */
  datatype Target<T> = Target(id: Id, value: T)

  function PrintersToInsert(rows: map<Id, PrinterRow>, ps: seq<FilePrinter>,
                            strategies: seq<PrinterStrategy>): seq<FilePrinter> {
    if ps == [] then [] else
      var last := ps[|ps| - 1];
      PrintersToInsert(rows, ps[..|ps| - 1], strategies)
      + if MatchPrinter(rows, last.row, strategies).None? then [last] else []
  }

  function PrintersToUpdate(rows: map<Id, PrinterRow>, ps: seq<FilePrinter>,
                            strategies: seq<PrinterStrategy>): seq<Target<FilePrinter>> {
    if ps == [] then [] else
      var last := ps[|ps| - 1];
      var found := MatchPrinter(rows, last.row, strategies);
      PrintersToUpdate(rows, ps[..|ps| - 1], strategies) + if found.Some? then [Target(found.value, last)] else []
  }

  function FloorsToInsert(floors: map<Id, Floor>, fs: seq<FileFloor>, strategy: FloorStrategy): seq<FileFloor> {
    if fs == [] then [] else
      var last := fs[|fs| - 1];
      FloorsToInsert(floors, fs[..|fs| - 1], strategy) + if MatchFloor(floors, last, strategy).None? then [last] else []
  }

  function FloorsToUpdate(floors: map<Id, Floor>, fs: seq<FileFloor>, strategy: FloorStrategy): seq<Target<FileFloor>> {
    if fs == [] then [] else
      var last := fs[|fs| - 1];
      var found := MatchFloor(floors, last, strategy);
      FloorsToUpdate(floors, fs[..|fs| - 1], strategy) + if found.Some? then [Target(found.value, last)] else []
  }

  lemma FloorInsertsAppend(floors: map<Id, Floor>, front: seq<FileFloor>, last: FileFloor, strategy: FloorStrategy)
    ensures FloorsToInsert(floors, front + [last], strategy)
            == if MatchFloor(floors, last, strategy).None? then FloorsToInsert(floors, front, strategy) + [last]
               else FloorsToInsert(floors, front, strategy)
  {
    assert (front + [last])[..|front|] == front;
    assert FloorsToInsert(floors, front, strategy) + [] == FloorsToInsert(floors, front, strategy);
  }

  lemma FloorUpdatesAppend(floors: map<Id, Floor>, front: seq<FileFloor>, last: FileFloor, strategy: FloorStrategy)
    ensures var found := MatchFloor(floors, last, strategy);
            FloorsToUpdate(floors, front + [last], strategy)
            == if found.Some? then FloorsToUpdate(floors, front, strategy) + [Target(found.value, last)]
               else FloorsToUpdate(floors, front, strategy)
  {
    assert (front + [last])[..|front|] == front;
    assert FloorsToUpdate(floors, front, strategy) + [] == FloorsToUpdate(floors, front, strategy);
  }

  /** The tag loop stops at the first tag that exists: it is updated, those before it are inserted, those
      after it are dropped. */
  function TagsToInsert(tags: map<Id, Tag>, ts: seq<FileTag>): seq<FileTag> {
    if ts == [] || TagsNamed(tags, ts[0].name) != {} then [] else [ts[0]] + TagsToInsert(tags, ts[1..])
  }

  function TagsToUpdate(tags: map<Id, Tag>, ts: seq<FileTag>): seq<Target<FileTag>> {
    if ts == [] then [] else
      match First(TagsNamed(tags, ts[0].name))
      case Some(t) => [Target(t, ts[0])]
      case None => TagsToUpdate(tags, ts[1..])
  }

  // ---------- the import, phase by phase ----------

  type IdMap = map<Id, Id>

  /** The printer table while it is being imported; `fails` are the printers whose create or update throws. */
  datatype Printers = Printers(rows: map<Id, PrinterRow>, next: Id, ids: IdMap)

  function CreatePrinters(s: Printers, ps: seq<FilePrinter>, fails: set<FilePrinter>): Printers {
    if ps == [] then s else
      var before := CreatePrinters(s, ps[..|ps| - 1], fails);
      var p := ps[|ps| - 1];
      if p in fails then before
      else Printers(before.rows[before.next := p.row], before.next + 1, before.ids[p.id := before.next])
  }

  function UpdatePrinters(s: Printers, us: seq<Target<FilePrinter>>, fails: set<FilePrinter>): Printers {
    if us == [] then s else
      var before := UpdatePrinters(s, us[..|us| - 1], fails);
      var u := us[|us| - 1];
      if u.value in fails || u.id !in before.rows then before
      else before.(rows := before.rows[u.id := u.value.row], ids := before.ids[u.value.id := u.id])
  }

  /** Positions of printers that were not imported are discarded, the others renamed. */
  function MapEntries(ids: IdMap, layout: seq<Entry>): seq<Entry> {
    if layout == [] then [] else
      var e := layout[|layout| - 1];
      MapEntries(ids, layout[..|layout| - 1]) + if e.printerId in ids then [Entry(ids[e.printerId], e.x, e.y)] else []
  }

  function EntriesFor(config: Config, ids: IdMap, layout: seq<Entry>): seq<Entry> {
    if config.exportFloorGrid && config.exportPrinters then MapEntries(ids, layout) else layout
  }

  datatype Floors = Floors(store: Store, ids: IdMap)

  function CreateOneFloor(s: Floors, f: FileFloor, config: Config, ids: IdMap): Floors {
    var layout := EntriesFor(config, ids, f.printers);
    Floors(Apply(s.store, Create(f.name, f.order, layout)),
           if CreateFloor(s.store.db, f.name, f.order, layout).error == None
           then s.ids[f.id := s.store.db.nextFloor] else s.ids)
  }

  function CreateFloors(s: Floors, fs: seq<FileFloor>, config: Config, ids: IdMap): Floors {
    if fs == [] then s else CreateOneFloor(CreateFloors(s, fs[..|fs| - 1], config, ids), fs[|fs| - 1], config, ids)
  }

  function UpdateOneFloor(s: Floors, u: Target<FileFloor>, config: Config, ids: IdMap): Floors {
    var (id, f) := (u.id, u.value);
    var layout := EntriesFor(config, ids, f.printers);
    Floors(Apply(s.store, Update(id, f.name, f.order, layout)),
           if UpdateFloor(s.store.db, id, f.name, f.order, layout).error == None then s.ids[f.id := id] else s.ids)
  }

  function UpdateFloors(s: Floors, us: seq<Target<FileFloor>>, config: Config, ids: IdMap): Floors {
    if us == [] then s else UpdateOneFloor(UpdateFloors(s, us[..|us| - 1], config, ids), us[|us| - 1], config, ids)
  }

  lemma CreateFloorAppend(start: Floors, front: seq<FileFloor>, f: FileFloor, config: Config, ids: IdMap)
    ensures CreateFloors(start, front + [f], config, ids)
            == CreateOneFloor(CreateFloors(start, front, config, ids), f, config, ids)
  {
    assert (front + [f])[..|front|] == front;
  }

  lemma UpdateFloorAppend(start: Floors, front: seq<Target<FileFloor>>, u: Target<FileFloor>, config: Config,
                          ids: IdMap)
    ensures UpdateFloors(start, front + [u], config, ids)
            == UpdateOneFloor(UpdateFloors(start, front, config, ids), u, config, ids)
  {
    assert (front + [u])[..|front|] == front;
  }

  /** The printers of a tag that were imported. */
  function MapMembers(ids: IdMap, ps: seq<Id>): set<Id> {
    set i | 0 <= i < |ps| && ps[i] in ids :: ids[ps[i]]
  }

  datatype Tags = Tags(tags: map<Id, Tag>, next: Id, members: set<(Id, Id)>)

  function Paired(t: Id, ps: set<Id>): set<(Id, Id)> {
    set p | p in ps :: (t, p)
  }

  function CreateTags(s: Tags, ts: seq<FileTag>, ids: IdMap): Tags {
    if ts == [] then s else
      var before := CreateTags(s, ts[..|ts| - 1], ids);
      var t := ts[|ts| - 1];
      Tags(before.tags[before.next := Tag(t.name, t.color)], before.next + 1,
           before.members + Paired(before.next, MapMembers(ids, t.printers)))
  }

  /** Unwanted members leave the tag, missing ones join it. */
  function SetMembers(members: set<(Id, Id)>, t: Id, wanted: set<Id>): set<(Id, Id)> {
    (set m | m in members && (m.0 == t ==> m.1 in wanted)) + Paired(t, wanted)
  }

  function UpdateTags(s: Tags, us: seq<Target<FileTag>>, ids: IdMap): Tags {
    if us == [] then s else
      var before := UpdateTags(s, us[..|us| - 1], ids);
      var u := us[|us| - 1];
      before.(members := SetMembers(before.members, u.id, MapMembers(ids, u.value.printers)))
  }

  /** The printer phase. */
  function ImportPrinters(farm: Farm, file: File, fails: set<FilePrinter>): Printers {
    var strategies := file.config.printerStrategies;
    UpdatePrinters(CreatePrinters(Printers(farm.printers, farm.nextPrinter, map[]),
                                  PrintersToInsert(farm.printers, file.printers, strategies), fails),
                   PrintersToUpdate(farm.printers, file.printers, strategies), fails)
  }

  /** The floor phase, on a farm whose printers have been imported. */
  function ImportFloors(store: Store, file: File, ids: IdMap): Floors {
    var strategy := file.config.floorStrategy;
    var done := UpdateFloors(CreateFloors(Floors(store, map[]),
                                          FloorsToInsert(store.db.floors, file.floors, strategy), file.config, ids),
                             FloorsToUpdate(store.db.floors, file.floors, strategy), file.config, ids);
    done.(store := Apply(done.store, LoadStore))
  }

  function ImportTags(tags: Tags, file: File, ids: IdMap): Tags {
    UpdateTags(CreateTags(tags, TagsToInsert(tags.tags, file.tags), ids), TagsToUpdate(tags.tags, file.tags), ids)
  }

  datatype ImportResult = ImportResult(farm: Farm, printerIdMap: IdMap, floorIdMap: IdMap)

  function Import(farm: Farm, file: File, fails: set<FilePrinter>): ImportResult {
    if !ValidFile(file) then ImportResult(farm, map[], map[]) else
      var printers := ImportPrinters(farm, file, fails);
      var store := farm.store.(db := farm.store.db.(printers := printers.rows.Keys));
      var floors := ImportFloors(store, file, printers.ids);
      var tags := ImportTags(Tags(farm.tags, farm.nextTag, farm.members), file, printers.ids);
      ImportResult(Farm(printers.rows, printers.next, floors.store, tags.tags, tags.next, tags.members),
                   printers.ids, floors.ids)
  }

  // ---------- the export ----------

  /** A list of the floor's entries, by printer id. */
  function ListEntries(ids: seq<Id>, printers: Placement): (layout: seq<Entry>)
    requires forall p :: p in ids ==> p in printers
    ensures |layout| == |ids|
    ensures forall i :: 0 <= i < |ids| ==> layout[i] == Entry(ids[i], printers[ids[i]].x, printers[ids[i]].y)
  {
    seq(|ids|, i requires 0 <= i < |ids| =>
      assert ids[i] in ids; Entry(ids[i], printers[ids[i]].x, printers[ids[i]].y))
  }

  function ExportPrinters(farm: Farm): (r: seq<FilePrinter>)
    ensures var ids := SortBy(farm.printers.Keys, Ascending());
            |r| == |ids| && forall i :: 0 <= i < |ids| ==>
                ids[i] in farm.printers && r[i] == FilePrinter(ids[i], farm.printers[ids[i]])
  {
    var ids := SortBy(farm.printers.Keys, Ascending());
    assert forall i :: 0 <= i < |ids| ==> ids[i] in ids;
    seq(|ids|, i requires 0 <= i < |ids| => FilePrinter(ids[i], farm.printers[ids[i]]))
  }

  /** Floors are read from the cache. */
  function ExportFloor(f: Id, dto: FloorDto): FileFloor {
    FileFloor(f, dto.name, dto.order, ListEntries(SortBy(dto.printers.Keys, Ascending()), dto.printers))
  }

  function ExportFloors(cache: map<Id, FloorDto>): (r: seq<FileFloor>)
    ensures var ids := SortBy(cache.Keys, Ascending());
            |r| == |ids| && forall i :: 0 <= i < |ids| ==> ids[i] in cache && r[i] == ExportFloor(ids[i], cache[ids[i]])
  {
    var ids := SortBy(cache.Keys, Ascending());
    assert forall i :: 0 <= i < |ids| ==> ids[i] in ids;
    seq(|ids|, i requires 0 <= i < |ids| => ExportFloor(ids[i], cache[ids[i]]))
  }

  function MembersOf(members: set<(Id, Id)>, t: Id): set<Id> {
    set m | m in members && m.0 == t :: m.1
  }

  /** The colour of a tag is not exported. */
  function ExportTags(farm: Farm): (r: seq<FileTag>)
    ensures var ids := SortBy(farm.tags.Keys, Ascending());
            && |r| == |ids|
            && (forall i :: 0 <= i < |ids| ==> ids[i] in farm.tags)
            && (forall i :: 0 <= i < |ids| ==>
                  r[i] == FileTag(farm.tags[ids[i]].name, None, SortBy(MembersOf(farm.members, ids[i]), Ascending())))
  {
    var ids := SortBy(farm.tags.Keys, Ascending());
    assert forall i :: 0 <= i < |ids| ==> ids[i] in ids;
    seq(|ids|, i requires 0 <= i < |ids| =>
      FileTag(farm.tags[ids[i]].name, None, SortBy(MembersOf(farm.members, ids[i]), Ascending())))
  }

  /** An export with printers, floors, grid and tags switched on. */
  function Export(farm: Farm, printerStrategies: seq<PrinterStrategy>, floorStrategy: FloorStrategy): File {
    File(Config(true, true, printerStrategies, floorStrategy),
         ExportPrinters(farm), ExportFloors(Apply(farm.store, ListCache).cache), ExportTags(farm))
  }
}
