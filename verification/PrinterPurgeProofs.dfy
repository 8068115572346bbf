/** Purged printers stay purged: which adapters can still bring back the events of a deleted printer. */
module PrinterPurgeProofs {
  import opened Common
  import opened PrinterEvents
  import opened PrinterIndexProofs

  /** The adapter was made for this printer and may emit, but deleting the printer will not bar it. */
  ghost predicate Orphan(s: Sockets, n: nat, id: Id) {
    && n < |s.adapters| && s.adapters[n].emittingAllowed && s.adapters[n].printerId == Some(id)
    && !(id in s.byId && s.byId[id] == n)
  }

  ghost predicate NoOrphan(s: Sockets, id: Id) {
    forall n: nat :: !Orphan(s, n, id)
  }

  /** A change of printer type drops the old adapter without barring it. */
  predicate ChangesType(s: Sockets, p: Printer)
    requires InRange(s)
  {
    p.enabled && p.id in s.byId && !SameType(s, p) && p.printerType in s.supported
  }

  /** A listener of the batch event reaches this printer before one that throws, and changes its type. */
  predicate BatchChangesType(s: Sockets, ps: seq<Printer>, id: Id)
    requires InRange(s)
    decreases |ps|
  {
    ps != []
    && ((ps[0].id == id && ChangesType(s, ps[0]))
        || (!Throws(s, ps[0]) && BatchChangesType(CreateOrUpdate(s, ps[0]), ps[1..], id)))
  }

  /** The step drops an adapter of the printer that may still emit. */
  predicate Orphans(f: Fleet, step: Step, id: Id)
    requires InRange(f.sockets)
  {
    match step
    case Created(p) => p.id == id && ChangesType(f.sockets, p)
    case Updated(p) => p.id == id && ChangesType(f.sockets, p)
    case CreatedBatch(ps) => BatchChangesType(f.sockets, ps, id)
    case Reload(rows) => id in f.sockets.byId
    case _ => false
  }

  // ---------- one printer at a time ----------

  lemma DeleteSocketOrphans(s: Sockets, gone: Id, n: nat, id: Id)
    requires Indexed(s)
    ensures Orphan(DeleteSocket(s, gone), n, id) <==> Orphan(s, n, id)
  {
    if gone in s.byId && id in s.byId && gone != id {
      NoSharing(s, gone, id);
    }
  }

  /** Exactly the replaced adapter becomes an orphan, and only by a change of type. */
  lemma CreateOrUpdateOrphans(s: Sockets, p: Printer, n: nat, id: Id)
    requires Indexed(s)
    ensures Orphan(CreateOrUpdate(s, p), n, id) <==>
            Orphan(s, n, id) || (p.id == id && ChangesType(s, p) && n == s.byId[id])
  {
    if !p.enabled {
      DeleteSocketOrphans(s, p.id, n, id);
    } else if p.id in s.byId {
      var closed := Close(s, s.byId[p.id]);
      assert Orphan(closed, n, id) <==> Orphan(s, n, id);
      assert Indexed(closed) by { CloseEffect(s, p.id); }
      if SameType(s, p) {
        assert Orphan(Register(closed, s.byId[p.id], p), n, id) <==> Orphan(closed, n, id);
      } else if !Throws(s, p) {
        MadeOrphans(closed, p, n, id);
      }
    } else if !Throws(s, p) {
      MadeOrphans(s, p, n, id);
    }
  }

  lemma MadeOrphans(s: Sockets, p: Printer, n: nat, id: Id)
    requires Indexed(s)
    ensures Orphan(Register(Make(s, p.id, p.printerType), |s.adapters|, p), n, id) <==>
            Orphan(s, n, id) || (p.id == id && id in s.byId && n == s.byId[id])
  {
  }

  lemma SavedOrphansIff(s: Sockets, p: Printer, id: Id)
    requires Indexed(s)
    ensures NoOrphan(CreateOrUpdate(s, p), id) <==> NoOrphan(s, id) && !(p.id == id && ChangesType(s, p))
  {
    var r := CreateOrUpdate(s, p);
    forall n: nat
      ensures Orphan(r, n, id) <==> Orphan(s, n, id) || (p.id == id && ChangesType(s, p) && n == s.byId[id])
    {
      CreateOrUpdateOrphans(s, p, n, id);
    }
    if p.id == id && ChangesType(s, p) {
      assert Orphan(r, s.byId[id], id);
    }
    if n: nat :| Orphan(s, n, id) {
      assert Orphan(r, n, id);
    }
  }

  // ---------- lists ----------

  lemma {:induction false} BatchOrphansIff(s: Sockets, ps: seq<Printer>, id: Id)
    requires Indexed(s)
    ensures NoOrphan(CreateBatch(s, ps), id) <==> NoOrphan(s, id) && !BatchChangesType(s, ps, id)
    decreases |ps|
  {
    if ps != [] {
      SavedOrphansIff(s, ps[0], id);
      CreateOrUpdateEffect(s, ps[0]);
      if !Throws(s, ps[0]) {
        BatchOrphansIff(CreateOrUpdate(s, ps[0]), ps[1..], id);
      }
    }
  }

  lemma {:induction false} DeleteEachOrphansIff(s: Sockets, ids: seq<Id>, id: Id)
    requires Indexed(s)
    ensures NoOrphan(DeleteEach(s, ids), id) <==> NoOrphan(s, id)
    decreases |ids|
  {
    if ids != [] {
      var s1 := DeleteSocket(s, ids[0]);
      forall n: nat ensures Orphan(s1, n, id) <==> Orphan(s, n, id) { DeleteSocketOrphans(s, ids[0], n, id); }
      DeleteSocketEffect(s, ids[0]);
      DeleteEachOrphansIff(s1, ids[1..], id);
    }
  }

  /** Printers without an adapter get a first one, so nothing is dropped. */
  lemma {:induction false} CreateEachOrphansIff(s: Sockets, ps: seq<Printer>, id: Id)
    requires Indexed(s) && DistinctIds(ps)
    requires forall i :: 0 <= i < |ps| ==> ps[i].id !in s.byId
    ensures NoOrphan(CreateEach(s, ps), id) <==> NoOrphan(s, id)
    decreases |ps|
  {
    if ps != [] {
      var s1 := CreateOrUpdate(s, ps[0]);
      SavedOrphansIff(s, ps[0], id);
      CreateOrUpdateEffect(s, ps[0]);
      forall i | 0 <= i < |ps[1..]| ensures ps[1..][i].id !in s1.byId {
        assert ps[1..][i] == ps[i + 1];
        assert SameSocket(s, s1, ps[i + 1].id);
      }
      CreateEachOrphansIff(s1, ps[1..], id);
    }
  }

  lemma ReloadOrphansIff(f: Fleet, rows: seq<Printer>, id: Id)
    requires Indexed(f.sockets)
    ensures NoOrphan(Apply(f, Reload(rows)).sockets, id) <==> NoOrphan(f.sockets, id) && id !in f.sockets.byId
  {
    RefilledOrphansIff(f.sockets.(byId := map[]), SetEach(f.cache, rows), id);
    ClearedOrphansIff(f.sockets, id);
  }

  lemma RefilledOrphansIff(cleared: Sockets, cache: Printers, id: Id)
    requires Indexed(cleared) && cleared.byId == map[]
    ensures NoOrphan(CreateEach(cleared, EnabledPrinters(cache)), id) <==> NoOrphan(cleared, id)
  {
    EnabledPrintersListed(cache);
    CreateEachOrphansIff(cleared, EnabledPrinters(cache), id);
  }

  /** Clearing the index orphans every adapter in it. */
  lemma ClearedOrphansIff(s: Sockets, id: Id)
    requires Indexed(s)
    ensures NoOrphan(s.(byId := map[]), id) <==> NoOrphan(s, id) && id !in s.byId
  {
    var cleared := s.(byId := map[]);
    if id in s.byId {
      assert Orphan(cleared, s.byId[id], id);
    } else {
      forall n: nat ensures Orphan(cleared, n, id) <==> Orphan(s, n, id) { }
    }
  }

  // ---------- runs ----------

  /** A printer gets an orphan exactly by a change of its type or a reload while it has an adapter, and an
      orphan is never barred again. */
  lemma StepKeepsNoOrphanIff(f: Fleet, step: Step, id: Id)
    requires Indexed(f.sockets)
    ensures NoOrphan(Apply(f, step).sockets, id) <==> NoOrphan(f.sockets, id) && !Orphans(f, step, id)
  {
    match step
    case Created(p) => SavedOrphansIff(f.sockets, p, id);
    case Updated(p) => SavedOrphansIff(f.sockets, p, id);
    case CreatedBatch(ps) => BatchOrphansIff(f.sockets, ps, id);
    case Deleted(ids) => DeleteEachOrphansIff(f.sockets, ids, id);
    case Reload(rows) => ReloadOrphansIff(f, rows, id);
    case Open(o) =>
      forall n: nat ensures Orphan(Opened(f.sockets, o), n, id) <==> Orphan(f.sockets, n, id) { }
    case Emit(n, m, now) =>
  }

  ghost predicate LegalRun(steps: seq<Step>) {
    forall i :: 0 <= i < |steps| ==> Legal(steps[i])
  }

  predicate EverOrphans(f: Fleet, steps: seq<Step>, id: Id)
    requires InRange(f.sockets)
    decreases |steps|
  {
    steps != [] && (Orphans(f, steps[0], id) || EverOrphans(Apply(f, steps[0]), steps[1..], id))
  }

  lemma {:induction false} NoOrphanOverRunsIff(f: Fleet, steps: seq<Step>, id: Id)
    requires Indexed(f.sockets) && LegalRun(steps)
    ensures Indexed(Run(f, steps).sockets)
    ensures NoOrphan(Run(f, steps).sockets, id) <==> NoOrphan(f.sockets, id) && !EverOrphans(f, steps, id)
    decreases |steps|
  {
    if steps != [] {
      StepKeepsIndexed(f, steps[0]);
      StepKeepsNoOrphanIff(f, steps[0], id);
      assert LegalRun(steps[1..]);
      NoOrphanOverRunsIff(Apply(f, steps[0]), steps[1..], id);
    }
  }

  /** The printer is (re-)created, or a reload finds it still cached or in the database. */
  ghost predicate Revives(f: Fleet, step: Step, id: Id) {
    match step
    case Created(p) => p.id == id
    case Updated(p) => p.id == id
    case CreatedBatch(ps) => Names(ps, id)
    case Reload(rows) => Names(rows, id) || id in f.cache
    case _ => false
  }

  ghost predicate EverRevives(f: Fleet, steps: seq<Step>, id: Id)
    requires InRange(f.sockets)
    decreases |steps|
  {
    steps != [] && (Revives(f, steps[0], id) || EverRevives(Apply(f, steps[0]), steps[1..], id))
  }

  /** Gone from all three tables. */
  ghost predicate Purged(f: Fleet, id: Id) {
    id !in f.cache && id !in f.sockets.byId && id !in f.events
  }

  lemma StepKeepsPurged(f: Fleet, step: Step, id: Id)
    requires Indexed(f.sockets) && Legal(step) && NoOrphan(f.sockets, id) && Purged(f, id) && !Revives(f, step, id)
    ensures NoOrphan(Apply(f, step).sockets, id) && Purged(Apply(f, step), id)
  {
    var g := Apply(f, step);
    StepKeepsNoOrphanIff(f, step, id);
    match step {
      case Created(p) => CreateOrUpdateEffect(f.sockets, p); assert SameSocket(f.sockets, g.sockets, id);
      case Updated(p) => CreateOrUpdateEffect(f.sockets, p); assert SameSocket(f.sockets, g.sockets, id);
      case CreatedBatch(ps) =>
        CreateBatchEffect(f.sockets, ps);
        NeverNamed(f.sockets, ps, id);
        SetEachAt(f.cache, ps);
        assert SameSocket(f.sockets, g.sockets, id) && Lookup(g.cache, id) == Lookup(f.cache, id);
      case Deleted(ids) =>
        DeleteEachEffect(f.sockets, ids);
        assert id in ids || SameSocket(f.sockets, g.sockets, id);
      case Reload(rows) =>
        var (cleared, ps) := (f.sockets.(byId := map[]), EnabledPrinters(g.cache));
        SetEachAt(f.cache, rows);
        EnabledPrintersListed(g.cache);
        CreateEachEffect(cleared, ps);
        assert Lookup(g.cache, id) == Lookup(f.cache, id);
        assert !Names(ps, id);
        assert SameSocket(cleared, g.sockets, id);
      case Open(_) =>
      case Emit(n, m, now) =>
        assert !Orphan(f.sockets, n, id);
    }
  }

  lemma {:induction false} NeverNamed(s: Sockets, ps: seq<Printer>, id: Id)
    requires Indexed(s) && DistinctIds(ps) && !Names(ps, id)
    ensures !BatchChangesType(s, ps, id)
    decreases |ps|
  {
    if ps != [] {
      NamesTail(ps);
      CreateOrUpdateEffect(s, ps[0]);
      NeverNamed(CreateOrUpdate(s, ps[0]), ps[1..], id);
    }
  }

  lemma {:induction false} PurgedOverRuns(f: Fleet, steps: seq<Step>, id: Id)
    requires Indexed(f.sockets) && LegalRun(steps) && NoOrphan(f.sockets, id) && Purged(f, id)
             && !EverRevives(f, steps, id)
    ensures Purged(Run(f, steps), id)
    decreases |steps|
  {
    if steps != [] {
      StepKeepsIndexed(f, steps[0]);
      StepKeepsPurged(f, steps[0], id);
      assert LegalRun(steps[1..]);
      PurgedOverRuns(Apply(f, steps[0]), steps[1..], id);
    }
  }

  /** Whatever happens next, short of creating the printer again, its events do not come back. */
  ghost predicate StaysPurged(f: Fleet, id: Id)
    requires InRange(f.sockets)
  {
    forall steps :: LegalRun(steps) && !EverRevives(f, steps, id) ==> id !in Run(f, steps).events
  }

  lemma DeletedIsPurged(f: Fleet, ids: seq<Id>, id: Id)
    requires Indexed(f.sockets) && id in ids
    ensures Purged(Apply(f, Deleted(ids)), id)
  {
    DeleteEachEffect(f.sockets, ids);
  }

  /** A deletion is final exactly when the printer had no orphaned adapter. */
  lemma DeletionIsFinalIff(f: Fleet, ids: seq<Id>, id: Id)
    requires Indexed(f.sockets) && id in ids
    ensures StaysPurged(Apply(f, Deleted(ids)), id) <==> NoOrphan(f.sockets, id)
  {
    var g := Apply(f, Deleted(ids));
    StepKeepsIndexed(f, Deleted(ids));
    StepKeepsNoOrphanIff(f, Deleted(ids), id);
    DeletedIsPurged(f, ids, id);
    if NoOrphan(f.sockets, id) {
      forall steps | LegalRun(steps) && !EverRevives(g, steps, id) ensures id !in Run(g, steps).events {
        PurgedOverRuns(g, steps, id);
      }
    } else {
      var n: nat :| Orphan(g.sockets, n, id);
      var steps := [Emit(n, Message(Current, map[]), 0)];
      assert Run(g, steps) == Apply(g, steps[0]) by { assert steps[1..] == []; }
      assert !EverRevives(g, steps, id);
      assert id in Run(g, steps).events;
    }
  }

  /** From an empty start: a deletion is final exactly when the run so far never changed the printer's type
      and never reloaded while the printer had an adapter. */
  lemma PurgedStaysPurgedIff(supported: set<int>, steps: seq<Step>, ids: seq<Id>, id: Id)
    requires LegalRun(steps) && id in ids
    ensures var f := Run(Initial(supported), steps);
            StaysPurged(Apply(f, Deleted(ids)), id) <==> !EverOrphans(Initial(supported), steps, id)
  {
    NoOrphanOverRunsIff(Initial(supported), steps, id);
    DeletionIsFinalIff(Run(Initial(supported), steps), ids, id);
  }

  // ---------- sockets ----------

  /** Every adapter with an open socket is in the index. */
  ghost predicate OpenAreIndexed(s: Sockets) {
    forall n: nat :: n < |s.adapters| && s.adapters[n].socketOpen ==> exists id :: id in s.byId && s.byId[id] == n
  }

  lemma DropsClosed(s: Sockets, p: Printer)
    requires Indexed(s) && OpenAreIndexed(s)
    ensures OpenAreIndexed(CreateOrUpdate(s, p)) && OpenAreIndexed(DeleteSocket(s, p.id))
  {
    DeleteDropsOne(s, p.id);
    var r := CreateOrUpdate(s, p);
    if p.enabled {
      forall n: nat | n < |r.adapters| && r.adapters[n].socketOpen
        ensures exists id :: id in r.byId && r.byId[id] == n
      {
        assert n < |s.adapters| && s.adapters[n].socketOpen;
        var id :| id in s.byId && s.byId[id] == n;
        assert id in r.byId && r.byId[id] == n;
      }
    }
  }

  lemma DeleteDropsOne(s: Sockets, gone: Id)
    requires Indexed(s) && OpenAreIndexed(s)
    ensures OpenAreIndexed(DeleteSocket(s, gone))
  {
    var d := DeleteSocket(s, gone);
    forall n: nat | n < |d.adapters| && d.adapters[n].socketOpen ensures exists id :: id in d.byId && d.byId[id] == n {
      var id :| id in s.byId && s.byId[id] == n;
      assert id in d.byId && d.byId[id] == n;
    }
  }

  lemma {:induction false} BatchDropsClosed(s: Sockets, ps: seq<Printer>)
    requires Indexed(s) && OpenAreIndexed(s)
    ensures OpenAreIndexed(CreateBatch(s, ps)) && OpenAreIndexed(CreateEach(s, ps))
    decreases |ps|
  {
    if ps != [] {
      DropsClosed(s, ps[0]);
      CreateOrUpdateEffect(s, ps[0]);
      BatchDropsClosed(CreateOrUpdate(s, ps[0]), ps[1..]);
    }
  }

  lemma {:induction false} DeleteDropsClosed(s: Sockets, ids: seq<Id>)
    requires Indexed(s) && OpenAreIndexed(s)
    ensures OpenAreIndexed(DeleteEach(s, ids))
    decreases |ids|
  {
    if ids != [] {
      DeleteDropsOne(s, ids[0]);
      DeleteSocketEffect(s, ids[0]);
      DeleteDropsClosed(DeleteSocket(s, ids[0]), ids[1..]);
    }
  }

  /** The first k adapters are out of the index. */
  ghost predicate OutOfIndex(s: Sockets, k: nat) {
    k <= |s.adapters| && InRange(s) && forall id :: id in s.byId ==> k <= s.byId[id]
  }

  lemma {:induction false} OutOfIndexUntouched(s: Sockets, ps: seq<Printer>, k: nat)
    requires OutOfIndex(s, k)
    ensures OutOfIndex(CreateEach(s, ps), k) && CreateEach(s, ps).adapters[..k] == s.adapters[..k]
    decreases |ps|
  {
    if ps != [] {
      OneOutOfIndex(s, ps[0], k);
      OutOfIndexUntouched(CreateOrUpdate(s, ps[0]), ps[1..], k);
    }
  }

  lemma OneOutOfIndex(s: Sockets, p: Printer, k: nat)
    requires OutOfIndex(s, k)
    ensures OutOfIndex(CreateOrUpdate(s, p), k) && CreateOrUpdate(s, p).adapters[..k] == s.adapters[..k]
  {
    var r := CreateOrUpdate(s, p);
    assert forall n :: 0 <= n < k ==> r.adapters[n] == s.adapters[n];
  }

  ghost predicate SomeOpen(s: Sockets) {
    exists n: nat :: n < |s.adapters| && s.adapters[n].socketOpen
  }

  /** Sockets are closed before their adapter is dropped; only a reload drops adapters without closing them. */
  lemma StepKeepsOpenIndexedIff(f: Fleet, step: Step)
    requires Indexed(f.sockets) && OpenAreIndexed(f.sockets)
    ensures OpenAreIndexed(Apply(f, step).sockets) <==> !(step.Reload? && SomeOpen(f.sockets))
  {
    match step
    case Created(p) => DropsClosed(f.sockets, p);
    case Updated(p) => DropsClosed(f.sockets, p);
    case CreatedBatch(ps) => BatchDropsClosed(f.sockets, ps);
    case Deleted(ids) => DeleteDropsClosed(f.sockets, ids);
    case Reload(rows) => ReloadLeavesOpen(f, rows);
    case Open(id) => OpenedIsIndexed(f.sockets, id);
    case Emit(n, m, now) =>
  }

  lemma OpenedIsIndexed(s: Sockets, id: Id)
    requires Indexed(s) && OpenAreIndexed(s)
    ensures OpenAreIndexed(Opened(s, id))
  {
    var r := Opened(s, id);
    forall n: nat | n < |r.adapters| && r.adapters[n].socketOpen ensures exists i :: i in r.byId && r.byId[i] == n {
      if s.adapters[n].socketOpen {
        var i :| i in s.byId && s.byId[i] == n;
        assert i in r.byId && r.byId[i] == n;
      } else {
        assert id in r.byId && r.byId[id] == n;
      }
    }
  }

  lemma ReloadLeavesOpen(f: Fleet, rows: seq<Printer>)
    requires Indexed(f.sockets)
    ensures OpenAreIndexed(Apply(f, Reload(rows)).sockets) <==> !SomeOpen(f.sockets)
  {
    var (cleared, k) := (f.sockets.(byId := map[]), |f.sockets.adapters|);
    var ps := EnabledPrinters(SetEach(f.cache, rows));
    var r := CreateEach(cleared, ps);
    OutOfIndexUntouched(cleared, ps, k);
    if SomeOpen(f.sockets) {
      var n: nat :| n < k && f.sockets.adapters[n].socketOpen;
      assert r.adapters[..k][n] == f.sockets.adapters[..k][n];
      assert r.adapters[n].socketOpen;
    } else {
      assert OpenAreIndexed(cleared);
      BatchDropsClosed(cleared, ps);
    }
  }


  /** After a change of type the first adapter is an orphan. */
  lemma RetypedLeavesOrphan(id: Id, printer: Printer)
    requires printer.id == id && printer.enabled && printer.printerType == OCTOPRINT
    ensures var run := [Created(printer), Updated(printer.(printerType := MOONRAKER))];
            Indexed(Run(Initial({OCTOPRINT, MOONRAKER}), run).sockets)
              && Orphan(Run(Initial({OCTOPRINT, MOONRAKER}), run).sockets, 0, id)
  {
    var f := Initial({OCTOPRINT, MOONRAKER});
    var (f1, second) := (Apply(f, Created(printer)), Updated(printer.(printerType := MOONRAKER)));
    StepKeepsIndexed(f, Created(printer));
    assert f1.sockets.byId == map[id := 0]
           && f1.sockets.adapters == [Adapter(OCTOPRINT, Some(id), Some(LoginOf(printer)), true, false)];
    StepKeepsIndexed(f1, second);
    CreateOrUpdateOrphans(f1.sockets, second.printer, 0, id);
    assert Run(f, [Created(printer), second]) == Run(f1, [second]) == Apply(f1, second) by {
      assert [Created(printer), second][1..] == [second] && [second][1..] == [];
    }
  }

  /** A printer that was switched from one type to another and then deleted can come back with a late message
      of its first adapter. */
  lemma RetypedPrinterReturns(id: Id, printer: Printer, ids: seq<Id>)
    requires printer.id == id && printer.enabled && printer.printerType == OCTOPRINT && id in ids
    ensures var run := [Created(printer), Updated(printer.(printerType := MOONRAKER))];
            !StaysPurged(Apply(Run(Initial({OCTOPRINT, MOONRAKER}), run), Deleted(ids)), id)
  {
    RetypedLeavesOrphan(id, printer);
    var retyped := [Created(printer), Updated(printer.(printerType := MOONRAKER))];
    DeletionIsFinalIff(Run(Initial({OCTOPRINT, MOONRAKER}), retyped), ids, id);
  }
}
