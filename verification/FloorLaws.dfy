/** What every floor operation answers, and what it changes and leaves alone; and which floors the cache shows anew. */
module FloorLaws {
  import opened Common
  import opened FloorGrid
  import opened FloorDb
  import opened FloorCache

  predicate BadName(name: string) { |name| < 3 }

  predicate BadPlace(e: Entry) { e.x < 0 || e.x > 12 || e.y < 0 || e.y > 12 }

  ghost predicate BadInput(name: string, layout: seq<Entry>) {
    BadName(name) || exists i :: 0 <= i < |layout| && BadPlace(layout[i])
  }

  ghost predicate NamesUnknown(known: set<Id>, layout: seq<Entry>) {
    exists i :: 0 <= i < |layout| && layout[i].printerId !in known
  }

  lemma LoopFailsIff(grid: Placement, known: set<Id>, f: Id, layout: seq<Entry>)
    ensures PlaceAll(grid, known, f, layout, |layout|).failed <==> NamesUnknown(known, layout)
  {
    if PlaceAll(grid, known, f, layout, |layout|).failed {
      var n := FailsAtFirstUnknown(known, grid, f, layout, |layout|);
    } else {
      GrantedWereKnown(grid, known, f, layout, |layout|);
    }
  }

  /** An update is refused for an unknown floor first, then for a bad name or place, then for an unknown printer. Only
      one that is not refused writes name and order; no other floor and no printer row changes. */
  lemma UpdateAnswers(db: Db, f: Id, name: string, order: int, layout: seq<Entry>)
    ensures var r := UpdateFloor(db, f, name, order, layout);
            && (f !in db.floors ==> r == Reply(db, Some(FloorNotFound)))
            && (f in db.floors && BadInput(name, layout) ==> r == Reply(db, Some(InvalidInput)))
            && (f in db.floors && !BadInput(name, layout) ==>
                  && r.db.printers == db.printers && r.db.nextFloor == db.nextFloor
                  && (NamesUnknown(db.printers, layout) ==>
                        r.error == Some(UnknownPrinter) && r.db.floors == db.floors)
                  && (!NamesUnknown(db.printers, layout) ==>
                        r.error == None && r.db.floors == db.floors[f := Floor(name, order)])
                  && (layout == [] ==> r.db.grid == db.grid))
  {
    LoopFailsIff(db.grid, db.printers, f, layout);
    if !BadInput(name, layout) { assert ValidEntries(layout); }
  }

  /** So is a creation; a floor is added even when a printer on it is unknown. */
  lemma CreateAnswers(db: Db, name: string, order: int, layout: seq<Entry>)
    ensures var (r, f) := (CreateFloor(db, name, order, layout), db.nextFloor);
            && (BadInput(name, layout) ==> r == Reply(db, Some(InvalidInput)))
            && (!BadInput(name, layout) ==>
                  && r.db.printers == db.printers && r.db.nextFloor == f + 1
                  && r.db.floors == db.floors[f := Floor(name, order)]
                  && r.error == if NamesUnknown(db.printers, layout) then Some(UnknownPrinter) else None)
  {
    LoopFailsIff(db.grid, db.printers, db.nextFloor, layout);
    if !BadInput(name, layout) { assert ValidEntries(layout); }
  }

  /** Renaming and reordering change that alone. */
  lemma RenameAnswers(db: Db, f: Id, name: string, order: int)
    ensures var r := UpdateName(db, f, name);
            && (BadName(name) ==> r == Reply(db, Some(InvalidInput)))
            && (!BadName(name) && f !in db.floors ==> r == Reply(db, Some(FloorNotFound)))
            && (!BadName(name) && f in db.floors ==>
                  r == Reply(db.(floors := db.floors[f := Floor(name, db.floors[f].order)]), None))
    ensures var r := UpdateOrder(db, f, order);
            && (f !in db.floors ==> r == Reply(db, Some(FloorNotFound)))
            && (f in db.floors ==> r == Reply(db.(floors := db.floors[f := Floor(db.floors[f].name, order)]), None))
  {
  }

  /** Placing a printer: it stands there and nowhere else, whoever stood there is off the grid, everybody else stays.
      A printer that does not exist is refused, but whoever stood there is off the grid all the same. */
  lemma AddAnswers(db: Db, f: Id, e: Entry)
    ensures var r := AddPrinter(db, f, e);
            && (f !in db.floors ==> r == Reply(db, Some(FloorNotFound)))
            && (f in db.floors && BadPlace(e) ==> r == Reply(db, Some(InvalidInput)))
            && (f in db.floors && !BadPlace(e) ==>
                  && r.db == db.(grid := r.db.grid)
                  && r.error == (if e.printerId in db.printers then None else Some(UnknownPrinter))
                  && (forall p, c :: p != e.printerId ==>
                        (Stands(r.db.grid, p, c) <==> Stands(db.grid, p, c) && c != Cell(f, e.x, e.y)))
                  && (e.printerId in db.printers ==>
                        forall c :: Stands(r.db.grid, e.printerId, c) <==> c == Cell(f, e.x, e.y)))
  {
    assert PlaceAll(db.grid, db.printers, f, [e], 0) == Progress(db.grid, false);
    if f in db.floors && !BadPlace(e) { PlacedAlone(db.grid, db.printers, f, e); }
  }

  lemma PlacedAlone(grid: Placement, known: set<Id>, f: Id, e: Entry)
    ensures var r := PlaceAll(grid, known, f, [e], 1);
            && (r.failed <==> e.printerId !in known)
            && (forall p, c :: p != e.printerId ==>
                  (Stands(r.grid, p, c) <==> Stands(grid, p, c) && c != Cell(f, e.x, e.y)))
            && (e.printerId in known ==> forall c :: Stands(r.grid, e.printerId, c) <==> c == Cell(f, e.x, e.y))
  {
    assert PlaceAll(grid, known, f, [e], 0) == Progress(grid, false);
  }

  /** A printer on the floor is taken off the grid; one that is not there is refused. Nothing else changes. */
  lemma RemovePrinterAnswers(db: Db, f: Id, p: Id)
    ensures var r := RemovePrinter(db, f, p);
            && (!(p in db.grid && db.grid[p].floorId == f) ==> r == Reply(db, Some(NotOnFloor)))
            && (p in db.grid && db.grid[p].floorId == f ==>
                  && r.error == None && r.db == db.(grid := r.db.grid) && p !in r.db.grid
                  && forall q, c :: q != p ==> (Stands(r.db.grid, q, c) <==> Stands(db.grid, q, c)))
  {
  }

  /** Taking a printer off every floor never fails and moves nobody else. */
  lemma RemoveFromAnyAnswers(db: Db, p: Id)
    ensures var after := RemoveFromAnyFloor(db, p);
            && after == db.(grid := after.grid) && p !in after.grid
            && forall q, c :: q != p ==> (Stands(after.grid, q, c) <==> Stands(db.grid, q, c))
  {
  }

  /** A deleted floor is gone with everybody on it; an unknown one is refused. Nothing else changes. */
  lemma DeleteFloorAnswers(db: Db, f: Id)
    ensures var r := DeleteFloor(db, f);
            && (f !in db.floors ==> r == Reply(db, Some(FloorNotFound)))
            && (f in db.floors ==>
                  && r.error == None && r.db.printers == db.printers && r.db.nextFloor == db.nextFloor
                  && f !in r.db.floors
                  && (forall g :: g != f ==> (g in r.db.floors <==> g in db.floors))
                  && (forall g :: g in r.db.floors ==> r.db.floors[g] == db.floors[g])
                  && forall p, c :: Stands(r.db.grid, p, c) <==> Stands(db.grid, p, c) && c.floorId != f)
  {
  }

  // ---------- the cache ----------

  /** The cache shows floor f as the database has it, with exactly the printers on it. */
  ghost predicate Fresh(s: Store, f: Id) {
    && f in s.cache && f in s.db.floors
    && s.cache[f].name == s.db.floors[f].name && s.cache[f].order == s.db.floors[f].order
    && forall p, c :: Stands(s.cache[f].printers, p, c) <==> Stands(s.db.grid, p, c) && c.floorId == f
  }

  /** The database call behind a step, and the floor whose key it refreshes. */
  function Call(s: Store, step: Step): Option<(Reply, Id)> {
    match step
    case Create(name, order, layout) => Some((CreateFloor(s.db, name, order, layout), s.db.nextFloor))
    case Update(f, name, order, layout) => Some((UpdateFloor(s.db, f, name, order, layout), f))
    case SetName(f, name) => Some((UpdateName(s.db, f, name), f))
    case SetOrder(f, order) => Some((UpdateOrder(s.db, f, order), f))
    case Add(f, e) => Some((AddPrinter(s.db, f, e), f))
    case Remove(f, p) => Some((RemovePrinter(s.db, f, p), f))
    case _ => None
  }

  /** A call that does not throw leaves its floor fresh and the other keys alone; one that throws leaves the whole
      cache alone. The database becomes that of the call in both cases. */
  lemma WrittenFloorIsFresh(s: Store, step: Step)
    requires Consistent(s.db) && Call(s, step).Some?
    ensures var ((reply, f), t) := (Call(s, step).value, FloorCache.Apply(s, step));
            && t.db == reply.db
            && (reply.error == None ==> Fresh(t, f) && t.cache == s.cache[f := t.cache[f]])
            && (reply.error != None ==> t.cache == s.cache)
  {
  }

  /** Loading makes every floor fresh and removes no key, and so does taking a printer off all floors. */
  lemma LoadingRefreshesAll(s: Store, p: Id)
    ensures forall f :: f in s.db.floors ==> Fresh(FloorCache.Apply(s, LoadStore), f)
    ensures forall f :: f in s.db.floors ==> Fresh(FloorCache.Apply(s, RemoveFromAny(p)), f)
    ensures forall f :: f in s.cache && f !in s.db.floors ==>
              var t := FloorCache.Apply(s, LoadStore); f in t.cache && t.cache[f] == s.cache[f]
    ensures FloorCache.Apply(s, LoadStore).db == s.db
    ensures FloorCache.Apply(s, RemoveFromAny(p)).db == RemoveFromAnyFloor(s.db, p)
    ensures s.cache == map[] ==> FloorCache.Apply(s, ListCache) == FloorCache.Apply(s, LoadStore)
    ensures s.cache != map[] ==> FloorCache.Apply(s, ListCache) == s
  {
  }

  /** A deleted floor leaves the cache; a floor that is read is cached from then on. */
  lemma DeletionAndReading(s: Store, f: Id)
    ensures f in s.db.floors ==>
              var t := FloorCache.Apply(s, Delete(f)); t.db == DeleteFloor(s.db, f).db && t.cache == s.cache - {f}
    ensures f !in s.db.floors ==> FloorCache.Apply(s, Delete(f)) == s
    ensures f in s.cache ==> FloorCache.Apply(s, GetFloor(f)) == s
    ensures f !in s.cache && f in s.db.floors ==>
              var t := FloorCache.Apply(s, GetFloor(f));
              Fresh(t, f) && t.db == s.db && t.cache == s.cache[f := t.cache[f]]
    ensures f !in s.cache && f !in s.db.floors ==> FloorCache.Apply(s, GetFloor(f)) == s
  {
  }
}
