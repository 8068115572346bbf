/** What the printer phase of an import leaves behind when printers are compared by name. Printers of the file
    may share an id. */
module YamlPrinters {
  import opened Common
  import opened Text
  import opened Yaml
  import opened YamlIsolation

  ghost predicate DistinctNames(ps: seq<FilePrinter>) {
    forall i, j :: 0 <= i < j < |ps| ==> Lower(ps[i].row.name) != Lower(ps[j].row.name)
  }

  /** Printers of one import never coincide in name. */
  ghost predicate Separate(ps: seq<FilePrinter>) {
    && NoDuplicates(ps)
    && (forall p, q :: p in ps && q in ps && Lower(p.row.name) == Lower(q.row.name) ==> p == q)
  }

  lemma DistinctAreSeparate(ps: seq<FilePrinter>)
    requires DistinctNames(ps)
    ensures Separate(ps)
  {
    forall p, q | p in ps && q in ps && Lower(p.row.name) == Lower(q.row.name) ensures p == q {
      var i :| 0 <= i < |ps| && ps[i] == p;
      var j :| 0 <= j < |ps| && ps[j] == q;
    }
  }

  lemma ByNameOnly(rows: map<Id, PrinterRow>, row: PrinterRow)
    ensures MatchPrinter(rows, row, [ByName]).None? <==> PrintersNamed(rows, row.name) == {}
    ensures forall t: Id :: MatchPrinter(rows, row, [ByName]) == Some(t) <==> Least(PrintersNamed(rows, row.name), t)
  {
    assert [ByName][1..] == [];
    assert MatchPrinter(rows, row, [ByName]) == First(PrintersNamed(rows, row.name));
  }

  lemma {:induction false} InsertsNoDuplicates(rows: map<Id, PrinterRow>, ps: seq<FilePrinter>,
                                               strategies: seq<PrinterStrategy>)
    requires NoDuplicates(ps)
    ensures NoDuplicates(PrintersToInsert(rows, ps, strategies))
  {
    if ps != [] {
      var front := ps[..|ps| - 1];
      InsertsNoDuplicates(rows, front, strategies);
      forall p | p in PrintersToInsert(rows, front, strategies) ensures p != ps[|front|] {
        InsertsFromFile(rows, front, strategies, p);
        var i :| 0 <= i < |front| && front[i] == p;
        assert ps[i] == p;
      }
      AppendNoDuplicates(PrintersToInsert(rows, front, strategies), ps[|front|]);
    }
  }

  lemma {:induction false} UpdatesNoDuplicates(rows: map<Id, PrinterRow>, ps: seq<FilePrinter>,
                                               strategies: seq<PrinterStrategy>)
    requires NoDuplicates(ps)
    ensures NoDuplicates(PrintersToUpdate(rows, ps, strategies))
  {
    if ps != [] {
      var front := ps[..|ps| - 1];
      UpdatesNoDuplicates(rows, front, strategies);
      forall u | u in PrintersToUpdate(rows, front, strategies) ensures u.value != ps[|front|] {
        UpdatesFromFile(rows, front, strategies, u);
        var i :| 0 <= i < |front| && front[i] == u.value;
        assert ps[i] == u.value;
      }
    }
  }

  // ---------- file ids that several printers carry ----------

  /** The last printer of the list with this file id, among those that can be written. */
  function LastCarrier(ps: seq<FilePrinter>, fails: set<FilePrinter>, k: Id): (r: Option<FilePrinter>)
    ensures r.None? ==> forall p :: p in ps && p.id == k ==> p in fails
    ensures r.Some? ==> r.value in ps && r.value.id == k && r.value !in fails
  {
    if ps == [] then None else
      var (front, last) := (ps[..|ps| - 1], ps[|ps| - 1]);
      assert ps == front + [last];
      if last.id == k && last !in fails then Some(last) else LastCarrier(front, fails, k)
  }

  /** After writing the list, each file id stands for the row of its last carrier. */
  ghost predicate RenamesLast(ps: seq<FilePrinter>, fails: set<FilePrinter>, at: map<FilePrinter, Id>,
                              before: IdMap, after: IdMap)
  {
    forall k: Id :: Renames(LastCarrier(ps, fails, k), at, before, after, k)
  }

  ghost predicate Renames(last: Option<FilePrinter>, at: map<FilePrinter, Id>, before: IdMap, after: IdMap, k: Id) {
    if last.Some? then last.value in at && k in after && after[k] == at[last.value]
    else (k in after <==> k in before) && (k in before ==> after[k] == before[k])
  }

  lemma CarrierAppend(front: seq<FilePrinter>, last: FilePrinter, fails: set<FilePrinter>, k: Id)
    ensures LastCarrier(front + [last], fails, k)
            == if last.id == k && last !in fails then Some(last) else LastCarrier(front, fails, k)
  {
    assert (front + [last])[..|front|] == front;
  }

  /** Printers left out of a list count as failing. */
  lemma {:induction false} InsertCarrier(rows: map<Id, PrinterRow>, ps: seq<FilePrinter>,
                                         strategies: seq<PrinterStrategy>,
                                         fails: set<FilePrinter>, matched: set<FilePrinter>, k: Id)
    requires forall p :: p in ps ==> (p in matched <==> MatchPrinter(rows, p.row, strategies).Some?)
    ensures LastCarrier(PrintersToInsert(rows, ps, strategies), fails, k) == LastCarrier(ps, fails + matched, k)
  {
    if ps != [] {
      var (front, last) := (ps[..|ps| - 1], ps[|ps| - 1]);
      assert ps == front + [last];
      InsertCarrier(rows, front, strategies, fails, matched, k);
      InsertsAppend(rows, front, last, strategies);
      CarrierAppend(front, last, fails + matched, k);
      CarrierAppend(PrintersToInsert(rows, front, strategies), last, fails, k);
    }
  }

  function Values(us: seq<Target<FilePrinter>>): (r: seq<FilePrinter>)
    ensures |r| == |us| && forall i :: 0 <= i < |us| ==> r[i] == us[i].value
  {
    seq(|us|, i requires 0 <= i < |us| => us[i].value)
  }

  lemma ValuesAppend(front: seq<Target<FilePrinter>>, last: Target<FilePrinter>)
    ensures Values(front + [last]) == Values(front) + [last.value]
  {
  }

  lemma {:induction false} UpdateCarrier(rows: map<Id, PrinterRow>, ps: seq<FilePrinter>,
                                         strategies: seq<PrinterStrategy>,
                                         fails: set<FilePrinter>, unmatched: set<FilePrinter>, k: Id)
    requires forall p :: p in ps ==> (p in unmatched <==> MatchPrinter(rows, p.row, strategies).None?)
    ensures LastCarrier(Values(PrintersToUpdate(rows, ps, strategies)), fails, k)
            == LastCarrier(ps, fails + unmatched, k)
  {
    if ps != [] {
      var (front, last) := (ps[..|ps| - 1], ps[|ps| - 1]);
      assert ps == front + [last];
      UpdateCarrier(rows, front, strategies, fails, unmatched, k);
      var (updates, found) := (PrintersToUpdate(rows, front, strategies), MatchPrinter(rows, last.row, strategies));
      CarrierAppend(front, last, fails + unmatched, k);
      if found.Some? {
        ValuesAppend(updates, Target(found.value, last));
        CarrierAppend(Values(updates), last, fails, k);
      } else {
        assert updates + [] == updates;
      }
    }
  }

  /** The last carrier of all is the last one in its half of the list. */
  lemma {:induction false} CarrierInHalf(ps: seq<FilePrinter>, fails: set<FilePrinter>, half: set<FilePrinter>, k: Id)
    ensures var last := LastCarrier(ps, fails, k);
            last.None? || last.value !in half ==> LastCarrier(ps, fails + half, k) == last
  {
    if ps != [] {
      assert ps == ps[..|ps| - 1] + [ps[|ps| - 1]];
      CarrierInHalf(ps[..|ps| - 1], fails, half, k);
    }
  }

  // ---------- creating ----------

  /** The rows of the printers created. */
  function NewRows(s: Printers, ps: seq<FilePrinter>, fails: set<FilePrinter>): map<FilePrinter, Id> {
    if ps == [] then map[] else
      var (front, last) := (ps[..|ps| - 1], ps[|ps| - 1]);
      if last in fails then NewRows(s, front, fails)
      else NewRows(s, front, fails)[last := CreatePrinters(s, front, fails).next]
  }

  /** After creating `ps` on top of `start`, at the rows `at`. */
  ghost predicate Created(start: Printers, ps: seq<FilePrinter>, fails: set<FilePrinter>, s: Printers,
                          at: map<FilePrinter, Id>)
  {
    && start.next <= s.next && (forall k :: k in s.rows ==> k < s.next)
    && (forall k :: k in start.rows ==> k in s.rows && s.rows[k] == start.rows[k])
    && (forall p :: p in at <==> p in ps && p !in fails)
    && (forall p :: p in at ==> at[p] >= start.next && at[p] in s.rows && s.rows[at[p]] == p.row)
    && (forall k :: k in s.rows ==> k in start.rows || exists p :: p in at && at[p] == k)
    && RenamesLast(ps, fails, at, start.ids, s.ids)
  }

  lemma {:induction false} CreatesRows(start: Printers, ps: seq<FilePrinter>, fails: set<FilePrinter>)
    requires NoDuplicates(ps) && forall k :: k in start.rows ==> k < start.next
    ensures Created(start, ps, fails, CreatePrinters(start, ps, fails), NewRows(start, ps, fails))
  {
    if ps != [] {
      var (front, last) := (ps[..|ps| - 1], ps[|ps| - 1]);
      assert ps == front + [last];
      CreatesRows(start, front, fails);
      forall p | p in front ensures p != last {
        var i :| 0 <= i < |front| && front[i] == p;
        assert ps[i] == p;
      }
      OneMoreRow(start, front, last, fails, CreatePrinters(start, front, fails), NewRows(start, front, fails));
    }
  }

  lemma OneMoreRow(start: Printers, front: seq<FilePrinter>, last: FilePrinter, fails: set<FilePrinter>,
                   before: Printers, at: map<FilePrinter, Id>)
    requires Created(start, front, fails, before, at) && last !in front
    ensures last in fails ==> Created(start, front + [last], fails, before, at)
    ensures last !in fails ==>
              Created(start, front + [last], fails,
                      Printers(before.rows[before.next := last.row], before.next + 1,
                          before.ids[last.id := before.next]),
                      at[last := before.next])
  {
    var ps := front + [last];
    assert forall p :: p in ps <==> p in front || p == last;
    OneMoreRenamed(front, last, fails, at, start.ids, before.ids, before.next);
    if last !in fails { EachRowCreated(start, front, last, fails, before, at); }
  }

  lemma EachRowCreated(start: Printers, front: seq<FilePrinter>, last: FilePrinter, fails: set<FilePrinter>,
                       before: Printers, at: map<FilePrinter, Id>)
    requires Created(start, front, fails, before, at) && last !in front
    ensures var (rows, after) := (before.rows[before.next := last.row], at[last := before.next]);
            forall k :: k in rows ==> k in start.rows || exists p :: p in after && after[p] == k
  {
    var (rows, after) := (before.rows[before.next := last.row], at[last := before.next]);
    forall k | k in rows && k !in start.rows ensures exists p :: p in after && after[p] == k {
      if k in before.rows {
        var p :| p in at && at[p] == k;
        assert p in after && after[p] == k;
      } else {
        assert after[last] == k;
      }
    }
  }

  lemma OneMoreRenamed(front: seq<FilePrinter>, last: FilePrinter, fails: set<FilePrinter>, at: map<FilePrinter, Id>,
                       before: IdMap, after: IdMap, row: Id)
    requires RenamesLast(front, fails, at, before, after) && last !in front
    ensures last in fails ==> RenamesLast(front + [last], fails, at, before, after)
    ensures last !in fails ==> RenamesLast(front + [last], fails, at[last := row], before, after[last.id := row])
  {
    forall k: Id
      ensures last in fails ==> Renames(LastCarrier(front + [last], fails, k), at, before, after, k)
      ensures last !in fails ==>
                Renames(LastCarrier(front + [last], fails, k), at[last := row], before, after[last.id := row], k)
    {
      CarrierAppend(front, last, fails, k);
      assert Renames(LastCarrier(front, fails, k), at, before, after, k);
    }
  }

  // ---------- updating ----------

  ghost predicate DistinctTargets(us: seq<Target<FilePrinter>>) {
    && NoDuplicates(us)
    && (forall u, v :: u in us && v in us && (u.id == v.id || u.value == v.value) ==> u == v)
  }

  /** The targets that can be written are at these rows. */
  ghost predicate TargetsAt(us: seq<Target<FilePrinter>>, fails: set<FilePrinter>, at: map<FilePrinter, Id>) {
    forall u :: u in us && u.value !in fails ==> u.value in at && at[u.value] == u.id
  }

  /** After updating rows in place; every overwritten row keeps its name up to case. */
  ghost predicate Updated(start: Printers, us: seq<Target<FilePrinter>>, fails: set<FilePrinter>, s: Printers) {
    && s.next == start.next && s.rows.Keys == start.rows.Keys
    && (forall k :: k in s.rows ==> Lower(s.rows[k].name) == Lower(start.rows[k].name))
    && (forall u :: u in us && u.value !in fails ==> u.id in s.rows && s.rows[u.id] == u.value.row)
    && (forall k :: k in s.rows && (forall u :: u in us ==> u.id != k) ==> s.rows[k] == start.rows[k])
  }

  lemma {:induction false} UpdatesRows(start: Printers, us: seq<Target<FilePrinter>>, fails: set<FilePrinter>)
    requires DistinctTargets(us)
    requires forall u :: u in us ==> u.id in start.rows && Lower(start.rows[u.id].name) == Lower(u.value.row.name)
    ensures Updated(start, us, fails, UpdatePrinters(start, us, fails))
  {
    if us != [] {
      var (front, last) := (us[..|us| - 1], us[|us| - 1]);
      assert us == front + [last];
      UpdatesRows(start, front, fails);
      forall u | u in front ensures u.id != last.id {
        var i :| 0 <= i < |front| && front[i] == u;
        assert us[i] == u;
      }
      OneMoreUpdate(start, front, last, fails, UpdatePrinters(start, front, fails));
    }
  }

  lemma OneMoreUpdate(start: Printers, front: seq<Target<FilePrinter>>, last: Target<FilePrinter>,
                      fails: set<FilePrinter>, before: Printers)
    requires Updated(start, front, fails, before)
    requires last.id in start.rows && Lower(start.rows[last.id].name) == Lower(last.value.row.name)
    requires forall u :: u in front ==> u.id != last.id
    ensures Updated(start, front + [last], fails,
                    if last.value in fails then before
                    else before.(rows := before.rows[last.id := last.value.row],
                          ids := before.ids[last.value.id := last.id]))
  {
    var us := front + [last];
    assert last in us && forall u :: u in front ==> u in us;
    assert forall u :: u in us ==> u in front || u == last;
  }

  /** The renaming after the update loop. */
  lemma {:induction false} UpdatesRename(start: Printers, us: seq<Target<FilePrinter>>, fails: set<FilePrinter>,
                                         at: map<FilePrinter, Id>)
    requires TargetsAt(us, fails, at) && forall u :: u in us ==> u.id in start.rows
    ensures UpdatePrinters(start, us, fails).rows.Keys == start.rows.Keys
    ensures RenamesLast(Values(us), fails, at, start.ids, UpdatePrinters(start, us, fails).ids)
  {
    if us != [] {
      var (front, last) := (us[..|us| - 1], us[|us| - 1]);
      assert us == front + [last];
      UpdatesRename(start, front, fails, at);
      ValuesAppend(front, last);
      var (before, after) := (UpdatePrinters(start, front, fails).ids, UpdatePrinters(start, us, fails).ids);
      forall k: Id ensures Renames(LastCarrier(Values(us), fails, k), at, start.ids, after, k) {
        CarrierAppend(Values(front), last.value, fails, k);
        assert Renames(LastCarrier(Values(front), fails, k), at, start.ids, before, k);
      }
    }
  }

  // ---------- the whole phase ----------

  /** Every printer that did not fail has exactly one row: the row with the same name if there was one, a new
      row otherwise. No other row appears, and the renaming points to rows of printers with the file id. */
  ghost predicate Imported(rows: map<Id, PrinterRow>, next: Id, ps: seq<FilePrinter>, fails: set<FilePrinter>,
                           s: Printers,
                           at: map<FilePrinter, Id>)
  {
    && (forall k :: k in s.rows ==> k < s.next)
    && (forall k :: k in rows ==> k in s.rows && Lower(s.rows[k].name) == Lower(rows[k].name))
    && (forall p :: p in at <==> p in ps && p !in fails)
    && (forall p :: p in at ==> at[p] in s.rows && s.rows[at[p]] == p.row)
    && (forall p :: p in at ==> if PrintersNamed(rows, p.row.name) == {} then at[p] >= next
                                else Least(PrintersNamed(rows, p.row.name), at[p]))
    && (forall k :: k in s.rows ==> k in rows || (k >= next && exists p :: p in at && at[p] == k))
    && (forall i :: i in s.ids ==> exists p :: p in at && p.id == i && s.ids[i] == at[p])
    && (forall p :: p in at ==> p.id in s.ids)
  }

  /** The printers of the file that find a row of the same name, and those that do not. */
  ghost predicate Split(rows: map<Id, PrinterRow>, ps: seq<FilePrinter>, inserts: seq<FilePrinter>,
                        updates: seq<Target<FilePrinter>>)
  {
    && (forall p :: p in inserts <==> p in ps && PrintersNamed(rows, p.row.name) == {})
    && (forall u :: u in updates <==> u.value in ps && Least(PrintersNamed(rows, u.value.row.name), u.id))
  }

  lemma SplitByName(rows: map<Id, PrinterRow>, ps: seq<FilePrinter>)
    ensures Split(rows, ps, PrintersToInsert(rows, ps, [ByName]), PrintersToUpdate(rows, ps, [ByName]))
  {
    var inserts := PrintersToInsert(rows, ps, [ByName]);
    var updates := PrintersToUpdate(rows, ps, [ByName]);
    forall p: FilePrinter ensures p in inserts <==> p in ps && PrintersNamed(rows, p.row.name) == {} {
      InsertsFromFile(rows, ps, [ByName], p);
      ByNameOnly(rows, p.row);
    }
    forall u: Target<FilePrinter>
      ensures u in updates <==> u.value in ps && Least(PrintersNamed(rows, u.value.row.name), u.id)
    {
      UpdatesFromFile(rows, ps, [ByName], u);
      ByNameOnly(rows, u.value.row);
    }
  }

  lemma TargetsDistinct(rows: map<Id, PrinterRow>, ps: seq<FilePrinter>)
    requires Separate(ps)
    ensures DistinctTargets(PrintersToUpdate(rows, ps, [ByName]))
  {
    SplitByName(rows, ps);
    UpdatesNoDuplicates(rows, ps, [ByName]);
  }

  /** Where each printer of the file has its row after the import. */
  function RowsAt(farm: Farm, file: File, fails: set<FilePrinter>): map<FilePrinter, Id> {
    var (rows, ps) := (farm.printers, file.printers);
    var start := Printers(rows, farm.nextPrinter, map[]);
    NewRows(start, PrintersToInsert(rows, ps, [ByName]), fails) + FoundRows(rows, ps, fails)
  }

  function FoundRows(rows: map<Id, PrinterRow>, ps: seq<FilePrinter>, fails: set<FilePrinter>): map<FilePrinter, Id> {
    map p | p in ps && p !in fails
      && PrintersNamed(rows, p.row.name) != {} :: First(PrintersNamed(rows, p.row.name)).value
  }

  lemma PhaseImports(farm: Farm, file: File, fails: set<FilePrinter>)
    requires WellFormed(farm) && Separate(file.printers) && file.config.printerStrategies == [ByName]
    ensures Imported(farm.printers, farm.nextPrinter, file.printers, fails, ImportPrinters(farm, file, fails),
                     RowsAt(farm, file, fails))
    ensures forall k: Id :: FirstRenaming(farm.printers, file.printers, fails, RowsAt(farm, file, fails),
                                          ImportPrinters(farm, file, fails).ids, k)
  {
    var (rows, ps) := (farm.printers, file.printers);
    var inserts := PrintersToInsert(rows, ps, [ByName]);
    var updates := PrintersToUpdate(rows, ps, [ByName]);
    var start := Printers(rows, farm.nextPrinter, map[]);
    SplitByName(rows, ps);
    InsertsNoDuplicates(rows, ps, [ByName]);
    TargetsDistinct(rows, ps);
    CreatesRows(start, inserts, fails);
    var created := CreatePrinters(start, inserts, fails);
    UpdatesRows(created, updates, fails);
    var (s, at) := (ImportPrinters(farm, file, fails), RowsAt(farm, file, fails));
    RowsCombine(start, ps, fails, inserts, updates, created, NewRows(start, inserts, fails));
    UpdatesRename(created, updates, fails, at);
    forall k: Id ensures FirstRenaming(rows, ps, fails, at, s.ids, k) {
      RenamingCombines(rows, ps, fails, inserts, updates, NewRows(start, inserts, fails), at, created.ids, s.ids, k);
    }
    CombinePhases(farm, file, fails, inserts, updates, created, s);
  }

  /** The two kinds of rows do not get in each other's way. */
  lemma RowsCombine(start: Printers, ps: seq<FilePrinter>, fails: set<FilePrinter>, inserts: seq<FilePrinter>,
                    updates: seq<Target<FilePrinter>>, created: Printers, at: map<FilePrinter, Id>)
    requires Split(start.rows, ps, inserts, updates) && Created(start, inserts, fails, created, at)
    ensures TargetsAt(updates, fails, at + FoundRows(start.rows, ps, fails))
    ensures forall p :: p in at ==> p !in FoundRows(start.rows, ps, fails)
  {
    forall u | u in updates && u.value !in fails
      ensures u.value in FoundRows(start.rows, ps, fails) && FoundRows(start.rows, ps, fails)[u.value] == u.id
    {
      FirstIsLeast(PrintersNamed(start.rows, u.value.row.name), u.id);
    }
  }

  function Matched(rows: map<Id, PrinterRow>, ps: seq<FilePrinter>): set<FilePrinter> {
    set p | p in ps && PrintersNamed(rows, p.row.name) != {}
  }

  function Unmatched(rows: map<Id, PrinterRow>, ps: seq<FilePrinter>): set<FilePrinter> {
    set p | p in ps && PrintersNamed(rows, p.row.name) == {}
  }

  /** What the first import makes of a file id: updates come after creates, so a printer found by name wins over
      one that is new. */
  ghost predicate FirstRenaming(rows: map<Id, PrinterRow>, ps: seq<FilePrinter>, fails: set<FilePrinter>,
                                at: map<FilePrinter, Id>, ids: IdMap, k: Id)
  {
    var (found, made) := (LastCarrier(ps, fails + Unmatched(rows, ps), k),
        LastCarrier(ps, fails + Matched(rows, ps), k));
    if found.Some? then Renames(found, at, map[], ids, k) else Renames(made, at, map[], ids, k)
  }

  lemma RenamingCombines(rows: map<Id, PrinterRow>, ps: seq<FilePrinter>, fails: set<FilePrinter>,
                         inserts: seq<FilePrinter>, updates: seq<Target<FilePrinter>>, newAt: map<FilePrinter, Id>,
                         at: map<FilePrinter, Id>, created: IdMap, ids: IdMap, k: Id)
    requires inserts == PrintersToInsert(rows, ps, [ByName]) && updates == PrintersToUpdate(rows, ps, [ByName])
    requires RenamesLast(inserts, fails, newAt, map[], created) && RenamesLast(Values(updates), fails, at, created, ids)
    requires forall p :: p in newAt ==> p in at && at[p] == newAt[p]
    ensures FirstRenaming(rows, ps, fails, at, ids, k)
  {
    forall p | p in ps
      ensures p in Matched(rows, ps) <==> MatchPrinter(rows, p.row, [ByName]).Some?
      ensures p in Unmatched(rows, ps) <==> MatchPrinter(rows, p.row, [ByName]).None?
    {
      ByNameOnly(rows, p.row);
    }
    InsertCarrier(rows, ps, [ByName], fails, Matched(rows, ps), k);
    UpdateCarrier(rows, ps, [ByName], fails, Unmatched(rows, ps), k);
    assert Renames(LastCarrier(inserts, fails, k), newAt, map[], created, k);
    assert Renames(LastCarrier(Values(updates), fails, k), at, created, ids, k);
  }

  lemma OnePrinterImported(start: Printers, ps: seq<FilePrinter>, fails: set<FilePrinter>, inserts: seq<FilePrinter>,
                           updates: seq<Target<FilePrinter>>, created: Printers, newAt: map<FilePrinter, Id>,
                             s: Printers,
                           p: FilePrinter)
    requires Split(start.rows, ps, inserts, updates) && p in ps && p !in fails
    requires Created(start, inserts, fails, created, newAt) && Updated(created, updates, fails, s)
    requires forall k :: k in start.rows ==> k < start.next
    ensures var at := newAt + FoundRows(start.rows, ps, fails);
            && p in at && at[p] in s.rows && s.rows[at[p]] == p.row
            && if PrintersNamed(start.rows, p.row.name) == {} then at[p] >= start.next
               else Least(PrintersNamed(start.rows, p.row.name), at[p])
  {
    if PrintersNamed(start.rows, p.row.name) == {} {
      assert p in inserts;
      forall u | u in updates ensures u.id < start.next {
        assert u.id in PrintersNamed(start.rows, u.value.row.name);
      }
      assert s.rows[newAt[p]] == created.rows[newAt[p]];
    } else {
      var t := First(PrintersNamed(start.rows, p.row.name)).value;
      FirstIsLeast(PrintersNamed(start.rows, p.row.name), t);
      assert Target(t, p) in updates;
    }
  }

  lemma CombinePhases(farm: Farm, file: File, fails: set<FilePrinter>, inserts: seq<FilePrinter>,
                      updates: seq<Target<FilePrinter>>, created: Printers, s: Printers)
    requires forall k :: k in farm.printers ==> k < farm.nextPrinter
    requires inserts == PrintersToInsert(farm.printers, file.printers, [ByName])
    requires Split(farm.printers, file.printers, inserts, updates)
    requires Created(Printers(farm.printers, farm.nextPrinter, map[]), inserts, fails, created,
                     NewRows(Printers(farm.printers, farm.nextPrinter, map[]), inserts, fails))
    requires Updated(created, updates, fails, s)
    requires forall k: Id :: FirstRenaming(farm.printers, file.printers, fails, RowsAt(farm, file, fails), s.ids, k)
    ensures Imported(farm.printers, farm.nextPrinter, file.printers, fails, s, RowsAt(farm, file, fails))
  {
    var (rows, ps, next, at) := (farm.printers, file.printers, farm.nextPrinter, RowsAt(farm, file, fails));
    var start := Printers(rows, next, map[]);
    var newAt := NewRows(start, inserts, fails);
    FoundOrNew(farm, file, fails, inserts, updates, created, s);
    forall k | k in s.rows && k !in rows ensures k >= next && exists p :: p in at && at[p] == k {
      var p :| p in newAt && newAt[p] == k;
      assert p in inserts && p !in FoundRows(rows, ps, fails);
      assert at[p] == k;
    }
    RenamingHasCarriers(rows, ps, fails, at, s.ids);
  }

  /** Exactly the printers that did not fail have a row. */
  lemma FoundOrNew(farm: Farm, file: File, fails: set<FilePrinter>, inserts: seq<FilePrinter>,
                   updates: seq<Target<FilePrinter>>, created: Printers, s: Printers)
    requires forall k :: k in farm.printers ==> k < farm.nextPrinter
    requires inserts == PrintersToInsert(farm.printers, file.printers, [ByName])
    requires Split(farm.printers, file.printers, inserts, updates)
    requires Created(Printers(farm.printers, farm.nextPrinter, map[]), inserts, fails, created,
                     NewRows(Printers(farm.printers, farm.nextPrinter, map[]), inserts, fails))
    requires Updated(created, updates, fails, s)
    ensures var (rows, at) := (farm.printers, RowsAt(farm, file, fails));
            && (forall p :: p in at <==> p in file.printers && p !in fails)
            && (forall p :: p in at ==> at[p] in s.rows && s.rows[at[p]] == p.row)
            && (forall p :: p in at ==> if PrintersNamed(rows, p.row.name) == {} then at[p] >= farm.nextPrinter
                                        else Least(PrintersNamed(rows, p.row.name), at[p]))
  {
    var (rows, ps, next, at) := (farm.printers, file.printers, farm.nextPrinter, RowsAt(farm, file, fails));
    var start := Printers(rows, next, map[]);
    var newAt := NewRows(start, inserts, fails);
    forall p | p in at
      ensures p in ps && p !in fails && at[p] in s.rows && s.rows[at[p]] == p.row
      ensures if PrintersNamed(rows, p.row.name) == {} then at[p] >= next
              else Least(PrintersNamed(rows, p.row.name), at[p])
    {
      OnePrinterImported(start, ps, fails, inserts, updates, created, newAt, s, p);
    }
    forall p | p in ps && p !in fails ensures p in at {
      OnePrinterImported(start, ps, fails, inserts, updates, created, newAt, s, p);
    }
  }

  lemma RenamingHasCarriers(rows: map<Id, PrinterRow>, ps: seq<FilePrinter>, fails: set<FilePrinter>,
                            at: map<FilePrinter, Id>, ids: IdMap)
    requires forall k: Id :: FirstRenaming(rows, ps, fails, at, ids, k)
    requires forall p :: p in at <==> p in ps && p !in fails
    ensures forall i :: i in ids ==> exists p :: p in at && p.id == i && ids[i] == at[p]
    ensures forall p :: p in at ==> p.id in ids
  {
    forall i | i in ids ensures exists p :: p in at && p.id == i && ids[i] == at[p] {
      assert FirstRenaming(rows, ps, fails, at, ids, i);
      var (found, made) := (LastCarrier(ps, fails + Unmatched(rows, ps), i),
          LastCarrier(ps, fails + Matched(rows, ps), i));
      var p := if found.Some? then found.value else made.value;
      assert p in at && p.id == i && ids[i] == at[p];
    }
    forall p | p in at ensures p.id in ids {
      assert FirstRenaming(rows, ps, fails, at, ids, p.id);
      assert p !in fails + Unmatched(rows, ps) || p !in fails + Matched(rows, ps);
    }
  }

  /** Different printers of the file have different rows. */
  lemma RowsInjective(rows: map<Id, PrinterRow>, next: Id, ps: seq<FilePrinter>, fails: set<FilePrinter>, s: Printers,
                      at: map<FilePrinter, Id>, p: FilePrinter, q: FilePrinter)
    requires Imported(rows, next, ps, fails, s, at) && Separate(ps) && p in at && q in at && at[p] == at[q]
    ensures p == q
  {
    assert s.rows[at[p]] == p.row && s.rows[at[q]] == q.row;
  }

  /** Different file ids are renamed to different rows. */
  lemma RenamingInjective(rows: map<Id, PrinterRow>, next: Id, ps: seq<FilePrinter>, fails: set<FilePrinter>,
                          s: Printers,
                          at: map<FilePrinter, Id>)
    requires Imported(rows, next, ps, fails, s, at) && Separate(ps)
    ensures forall i, j :: i in s.ids && j in s.ids && s.ids[i] == s.ids[j] ==> i == j
    ensures forall i :: i in s.ids ==> s.ids[i] in s.rows
  {
    forall i, j | i in s.ids && j in s.ids && s.ids[i] == s.ids[j] ensures i == j {
      var p :| p in at && p.id == i && s.ids[i] == at[p];
      var q :| q in at && q.id == j && s.ids[j] == at[q];
      RowsInjective(rows, next, ps, fails, s, at, p, q);
    }
  }

  // ---------- importing the same printers again ----------

  /** A row that has come to carry p's name is p's own. */
  lemma NewlyNamed(rows: map<Id, PrinterRow>, next: Id, ps: seq<FilePrinter>, fails: set<FilePrinter>, s: Printers,
                   at: map<FilePrinter, Id>, p: FilePrinter, k: Id)
    requires Imported(rows, next, ps, fails, s, at) && Separate(ps) && p in ps
    requires k in PrintersNamed(s.rows, p.row.name) && k !in PrintersNamed(rows, p.row.name)
    ensures p !in fails && k == at[p] && k >= next
  {
    var q :| q in at && at[q] == k;
    assert q == p;
  }

  /** No row loses a name, and the only row that can gain p's name is p's own. */
  ghost predicate NamedLater(earlier: set<Id>, later: set<Id>, own: Option<Id>) {
    (forall k :: k in earlier ==> k in later) && forall k :: k in later ==> k in earlier || own == Some(k)
  }

  lemma RowsNamedLater(rows: map<Id, PrinterRow>, next: Id, ps: seq<FilePrinter>, fails: set<FilePrinter>, s: Printers,
                       at: map<FilePrinter, Id>, p: FilePrinter)
    requires Imported(rows, next, ps, fails, s, at) && Separate(ps) && p in ps
    ensures NamedLater(PrintersNamed(rows, p.row.name), PrintersNamed(s.rows, p.row.name),
                       if p in fails then None else Some(at[p]))
  {
    var (earlier, later) := (PrintersNamed(rows, p.row.name), PrintersNamed(s.rows, p.row.name));
    forall k | k in later && k !in earlier ensures p !in fails && k == at[p] {
      NewlyNamed(rows, next, ps, fails, s, at, p, k);
    }
  }

  lemma LeastLater(earlier: set<Id>, later: set<Id>, own: Id)
    requires NamedLater(earlier, later, Some(own)) && own in later && (earlier == {} || Least(earlier, own))
    ensures Least(later, own)
  {
  }

  /** A second time, each printer is found where the first import put it, and the failing ones as before. */
  lemma FoundAgain(rows: map<Id, PrinterRow>, next: Id, ps: seq<FilePrinter>, fails: set<FilePrinter>, s: Printers,
                   at: map<FilePrinter, Id>, p: FilePrinter)
    requires Imported(rows, next, ps, fails, s, at) && Separate(ps) && (forall k :: k in rows ==> k < next) && p in ps
    ensures if p in fails then PrintersNamed(s.rows, p.row.name) == PrintersNamed(rows, p.row.name)
            else Least(PrintersNamed(s.rows, p.row.name), at[p])
  {
    var (earlier, later) := (PrintersNamed(rows, p.row.name), PrintersNamed(s.rows, p.row.name));
    RowsNamedLater(rows, next, ps, fails, s, at, p);
    if p in fails {
      assert forall k :: k in later <==> k in earlier;
    } else {
      assert p in at;
      LeastLater(earlier, later, at[p]);
    }
  }

  lemma {:induction false} AllCreatesFail(s: Printers, ps: seq<FilePrinter>, fails: set<FilePrinter>)
    requires forall p :: p in ps ==> p in fails
    ensures CreatePrinters(s, ps, fails) == s
  {
    if ps != [] { AllCreatesFail(s, ps[..|ps| - 1], fails); }
  }

  lemma {:induction false} UpdatesRewrite(s: Printers, us: seq<Target<FilePrinter>>, fails: set<FilePrinter>)
    requires forall u :: u in us && u.value !in fails ==> u.id in s.rows && s.rows[u.id] == u.value.row
    ensures UpdatePrinters(s, us, fails).rows == s.rows && UpdatePrinters(s, us, fails).next == s.next
  {
    if us != [] {
      UpdatesRewrite(s, us[..|us| - 1], fails);
      assert us == us[..|us| - 1] + [us[|us| - 1]];
    }
  }

  /** What the second analysis finds for a printer that did not fail. */
  lemma SecondTarget(rows: map<Id, PrinterRow>, next: Id, ps: seq<FilePrinter>, fails: set<FilePrinter>, s: Printers,
                     at: map<FilePrinter, Id>, u: Target<FilePrinter>)
    requires Imported(rows, next, ps, fails, s, at) && Separate(ps) && forall k :: k in rows ==> k < next
    requires u.value !in fails
    ensures u in PrintersToUpdate(s.rows, ps, [ByName]) <==> u.value in ps && u.id == at[u.value]
  {
    UpdatesFromFile(s.rows, ps, [ByName], u);
    ByNameOnly(s.rows, u.value.row);
    if u.value in ps { FoundAgain(rows, next, ps, fails, s, at, u.value); }
  }

  lemma SecondInsertsFail(rows: map<Id, PrinterRow>, next: Id, ps: seq<FilePrinter>, fails: set<FilePrinter>,
                          s: Printers,
                          at: map<FilePrinter, Id>, p: FilePrinter)
    requires Imported(rows, next, ps, fails, s, at) && Separate(ps) && forall k :: k in rows ==> k < next
    requires p in PrintersToInsert(s.rows, ps, [ByName])
    ensures p in fails
  {
    InsertsFromFile(s.rows, ps, [ByName], p);
    ByNameOnly(s.rows, p.row);
    FoundAgain(rows, next, ps, fails, s, at, p);
  }

  /** What a second import makes of a file id: all printers are updates now, so the last one wins. */
  ghost predicate SecondRenaming(ps: seq<FilePrinter>, fails: set<FilePrinter>, at: map<FilePrinter, Id>, ids: IdMap) {
    RenamesLast(ps, fails, at, map[], ids)
  }

  /** Importing the printers a second time writes nothing. */
  lemma SecondPhase(rows: map<Id, PrinterRow>, next: Id, farm: Farm, file: File, fails: set<FilePrinter>, s: Printers,
                    at: map<FilePrinter, Id>)
    requires Imported(rows, next, file.printers, fails, s, at) && Separate(file.printers)
    requires forall k :: k in rows ==> k < next
    requires farm.printers == s.rows && farm.nextPrinter == s.next && file.config.printerStrategies == [ByName]
    ensures var again := ImportPrinters(farm, file, fails);
            again.rows == s.rows && again.next == s.next && SecondRenaming(file.printers, fails, at, again.ids)
  {
    var ps := file.printers;
    var inserts := PrintersToInsert(s.rows, ps, [ByName]);
    var updates := PrintersToUpdate(s.rows, ps, [ByName]);
    forall p | p in inserts ensures p in fails { SecondInsertsFail(rows, next, ps, fails, s, at, p); }
    var start := Printers(s.rows, s.next, map[]);
    AllCreatesFail(start, inserts, fails);
    forall u | u in updates && u.value !in fails
      ensures u.value in at && at[u.value] == u.id && u.id in s.rows && s.rows[u.id] == u.value.row
    {
      SecondTarget(rows, next, ps, fails, s, at, u);
      UpdatesFromFile(s.rows, ps, [ByName], u);
    }
    UpdatesRewrite(start, updates, fails);
    SplitByName(s.rows, ps);
    UpdatesRename(start, updates, fails, at);
    var ids := ImportPrinters(farm, file, fails).ids;
    forall k: Id ensures Renames(LastCarrier(ps, fails, k), at, map[], ids, k) {
      assert Renames(LastCarrier(Values(updates), fails, k), at, map[], ids, k);
      AllFoundCarrier(rows, next, ps, fails, s, at, k);
    }
  }

  /** Every carrier that can be written is found, so leaving out the others changes nothing. */
  lemma AllFoundCarrier(rows: map<Id, PrinterRow>, next: Id, ps: seq<FilePrinter>, fails: set<FilePrinter>, s: Printers,
                        at: map<FilePrinter, Id>, k: Id)
    requires Imported(rows, next, ps, fails, s, at) && Separate(ps) && forall k :: k in rows ==> k < next
    ensures LastCarrier(Values(PrintersToUpdate(s.rows, ps, [ByName])), fails, k) == LastCarrier(ps, fails, k)
  {
    var unmatched := Unmatched(s.rows, ps);
    forall p | p in ps
      ensures p in unmatched <==> MatchPrinter(s.rows, p.row, [ByName]).None?
    {
      ByNameOnly(s.rows, p.row);
    }
    UpdateCarrier(s.rows, ps, [ByName], fails, unmatched, k);
    var last := LastCarrier(ps, fails, k);
    if last.Some? { FoundAgain(rows, next, ps, fails, s, at, last.value); }
    CarrierInHalf(ps, fails, unmatched, k);
  }

  /** File id k keeps its meaning: the last printer that carries it is in the farm already, or none is. */
  ghost predicate Settled(rows: map<Id, PrinterRow>, ps: seq<FilePrinter>, fails: set<FilePrinter>, k: Id) {
    var last := LastCarrier(ps, fails, k);
    last.Some? && PrintersNamed(rows, last.value.row.name) == {} ==>
      forall p :: p in ps && p !in fails && p.id == k ==> PrintersNamed(rows, p.row.name) == {}
  }

  /** A second import renames a file id as the first one did exactly when the id is settled. */
  lemma RenamedAlikeIff(rows: map<Id, PrinterRow>, next: Id, ps: seq<FilePrinter>, fails: set<FilePrinter>, s: Printers,
                        at: map<FilePrinter, Id>, again: IdMap, k: Id)
    requires Imported(rows, next, ps, fails, s, at) && Separate(ps)
    requires FirstRenaming(rows, ps, fails, at, s.ids, k) && SecondRenaming(ps, fails, at, again)
    ensures k in again <==> k in s.ids
    ensures k in s.ids ==> (again[k] == s.ids[k] <==> Settled(rows, ps, fails, k))
  {
    var (matched, unmatched) := (Matched(rows, ps), Unmatched(rows, ps));
    var last := LastCarrier(ps, fails, k);
    var (found, made) := (LastCarrier(ps, fails + unmatched, k), LastCarrier(ps, fails + matched, k));
    assert Renames(last, at, map[], again, k);
    CarrierInHalf(ps, fails, unmatched, k);
    CarrierInHalf(ps, fails, matched, k);
    if found.Some? {
      assert found.value in at && found.value.id == k && PrintersNamed(rows, found.value.row.name) != {};
      if at[found.value] == at[last.value] { RowsInjective(rows, next, ps, fails, s, at, found.value, last.value); }
    }
  }
}
