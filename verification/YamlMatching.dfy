/** Which rows of the farm an import writes, for every comparison strategy: printers and tags. */
module YamlMatching {
  import opened Common
  import opened Text
  import opened FloorGrid
  import opened FloorDb
  import opened FloorCache
  import opened Yaml
  import opened YamlIsolation

  // ---------- matching ----------

  /** What the strategies compare. Names are compared without case; the URL of the file in lower case with the URL of
      the farm as it is; ids are never compared. */
  predicate SamePrinter(strategy: PrinterStrategy, existing: PrinterRow, row: PrinterRow) {
    match strategy
    case ByName => Lower(existing.name) == Lower(row.name)
    case ByUrl => existing.url == Lower(row.url)
    case ById => false
  }

  ghost predicate NoneMatches(rows: map<Id, PrinterRow>, row: PrinterRow, strategy: PrinterStrategy) {
    forall k :: k in rows ==> !SamePrinter(strategy, rows[k], row)
  }

  ghost predicate LeastMatch(rows: map<Id, PrinterRow>, row: PrinterRow, strategy: PrinterStrategy, k: Id) {
    && k in rows && SamePrinter(strategy, rows[k], row)
    && forall i :: i in rows && SamePrinter(strategy, rows[i], row) ==> k <= i
  }

  /** The n-th strategy is the first one that matches a row, and k is the least row it matches. */
  ghost predicate DecidedAt(rows: map<Id, PrinterRow>, row: PrinterRow, strategies: seq<PrinterStrategy>, n: nat,
                            k: Id) {
    && n < |strategies| && LeastMatch(rows, row, strategies[n], k)
    && forall m :: 0 <= m < n ==> NoneMatches(rows, row, strategies[m])
  }

  ghost predicate Decides(rows: map<Id, PrinterRow>, row: PrinterRow, strategies: seq<PrinterStrategy>, k: Id) {
    exists n: nat :: DecidedAt(rows, row, strategies, n, k)
  }

  ghost predicate Unmatched(rows: map<Id, PrinterRow>, row: PrinterRow, strategies: seq<PrinterStrategy>) {
    forall m :: 0 <= m < |strategies| ==> NoneMatches(rows, row, strategies[m])
  }

  function FoundBy(rows: map<Id, PrinterRow>, row: PrinterRow, strategy: PrinterStrategy): Option<Id> {
    match strategy
    case ByName => First(PrintersNamed(rows, row.name))
    case ByUrl => First(PrintersAt(rows, row.url))
    case ById => None
  }

  lemma FoundByIs(rows: map<Id, PrinterRow>, row: PrinterRow, strategy: PrinterStrategy)
    ensures FoundBy(rows, row, strategy).None? <==> NoneMatches(rows, row, strategy)
    ensures FoundBy(rows, row, strategy).Some? ==> LeastMatch(rows, row, strategy, FoundBy(rows, row, strategy).value)
  {
    assert forall k :: k in PrintersNamed(rows, row.name) <==> k in rows && SamePrinter(ByName, rows[k], row);
    assert forall k :: k in PrintersAt(rows, row.url) <==> k in rows && SamePrinter(ByUrl, rows[k], row);
  }

  /** The first strategy with a matching row decides, for its least row. */
  lemma {:induction false} MatchDecides(rows: map<Id, PrinterRow>, row: PrinterRow, strategies: seq<PrinterStrategy>)
    ensures MatchPrinter(rows, row, strategies).None? <==> Unmatched(rows, row, strategies)
    ensures MatchPrinter(rows, row, strategies).Some? ==>
              Decides(rows, row, strategies, MatchPrinter(rows, row, strategies).value)
  {
    if strategies != [] {
      FoundByIs(rows, row, strategies[0]);
      MatchDecides(rows, row, strategies[1..]);
      var found := FoundBy(rows, row, strategies[0]);
      if found.Some? {
        assert DecidedAt(rows, row, strategies, 0, found.value);
      } else {
        var rest := MatchPrinter(rows, row, strategies[1..]);
        forall m | 0 <= m < |strategies| && rest.None? ensures NoneMatches(rows, row, strategies[m]) {
          if m > 0 { assert strategies[m] == strategies[1..][m - 1]; }
        }
        if rest.Some? {
          var n: nat :| DecidedAt(rows, row, strategies[1..], n, rest.value);
          OneStrategyMore(rows, row, strategies, n, rest.value);
        }
      }
    }
  }

  lemma OneStrategyMore(rows: map<Id, PrinterRow>, row: PrinterRow, strategies: seq<PrinterStrategy>, n: nat, k: Id)
    requires strategies != [] && NoneMatches(rows, row, strategies[0]) && DecidedAt(rows, row, strategies[1..], n, k)
    ensures DecidedAt(rows, row, strategies, n + 1, k)
  {
    forall m | 0 <= m < n + 1 ensures NoneMatches(rows, row, strategies[m]) {
      if m > 0 { assert strategies[m] == strategies[1..][m - 1]; }
    }
  }

  lemma DecidedOnce(rows: map<Id, PrinterRow>, row: PrinterRow, strategies: seq<PrinterStrategy>, j: Id, k: Id)
    requires Decides(rows, row, strategies, j) && Decides(rows, row, strategies, k)
    ensures j == k && !Unmatched(rows, row, strategies)
  {
    var m: nat :| DecidedAt(rows, row, strategies, m, j);
    var n: nat :| DecidedAt(rows, row, strategies, n, k);
    NoEarlierDecision(rows, row, strategies, m, j, n, k);
    NoEarlierDecision(rows, row, strategies, n, k, m, j);
    assert LeastMatch(rows, row, strategies[m], j);
  }

  lemma NoEarlierDecision(rows: map<Id, PrinterRow>, row: PrinterRow, strategies: seq<PrinterStrategy>,
                          m: nat, j: Id, n: nat, k: Id)
    requires DecidedAt(rows, row, strategies, m, j) && DecidedAt(rows, row, strategies, n, k)
    ensures m <= n
  {
    assert LeastMatch(rows, row, strategies[n], k);
  }

  lemma MatchIs(rows: map<Id, PrinterRow>, row: PrinterRow, strategies: seq<PrinterStrategy>, k: Id)
    ensures MatchPrinter(rows, row, strategies) == Some(k) <==> Decides(rows, row, strategies, k)
  {
    MatchDecides(rows, row, strategies);
    var found := MatchPrinter(rows, row, strategies);
    if Decides(rows, row, strategies, k) {
      DecidedOnce(rows, row, strategies, if found.Some? then found.value else k, k);
    }
  }

  // ---------- rows that are overwritten ----------

  /** The i-th printer of the file can be written and lands on row k. */
  ghost predicate Lands(rows: map<Id, PrinterRow>, ps: seq<FilePrinter>, strategies: seq<PrinterStrategy>,
                        fails: set<FilePrinter>, i: nat, k: Id)
  {
    i < |ps| && ps[i] !in fails && Decides(rows, ps[i].row, strategies, k)
  }

  ghost predicate LastToLand(rows: map<Id, PrinterRow>, ps: seq<FilePrinter>, strategies: seq<PrinterStrategy>,
                             fails: set<FilePrinter>, i: nat, k: Id)
  {
    && Lands(rows, ps, strategies, fails, i, k)
    && forall j: nat :: i < j ==> !Lands(rows, ps, strategies, fails, j, k)
  }

  ghost predicate NobodyLands(rows: map<Id, PrinterRow>, ps: seq<FilePrinter>, strategies: seq<PrinterStrategy>,
                              fails: set<FilePrinter>, k: Id)
  {
    forall i: nat :: !Lands(rows, ps, strategies, fails, i, k)
  }

  /** A row holds what the last printer that lands on it brings, or what it held. */
  ghost predicate RowWritten(rows: map<Id, PrinterRow>, ps: seq<FilePrinter>, strategies: seq<PrinterStrategy>,
                             fails: set<FilePrinter>, before: PrinterRow, after: PrinterRow, k: Id)
  {
    && (NobodyLands(rows, ps, strategies, fails, k) ==> after == before)
    && (forall i: nat :: LastToLand(rows, ps, strategies, fails, i, k) ==> after == ps[i].row)
    && (NobodyLands(rows, ps, strategies, fails, k) || exists i: nat :: LastToLand(rows, ps, strategies, fails, i, k))
  }

  lemma LandsPrefix(rows: map<Id, PrinterRow>, front: seq<FilePrinter>, last: FilePrinter,
                    strategies: seq<PrinterStrategy>, fails: set<FilePrinter>, k: Id)
    ensures forall i: nat :: i < |front| ==>
              (Lands(rows, front + [last], strategies, fails, i, k) <==> Lands(rows, front, strategies, fails, i, k))
    ensures Lands(rows, front + [last], strategies, fails, |front|, k)
            <==> last !in fails && Decides(rows, last.row, strategies, k)
  {
  }

  lemma RowWrittenNext(rows: map<Id, PrinterRow>, front: seq<FilePrinter>, last: FilePrinter,
                       strategies: seq<PrinterStrategy>, fails: set<FilePrinter>, before: PrinterRow,
                       middle: PrinterRow, k: Id)
    requires RowWritten(rows, front, strategies, fails, before, middle, k)
    ensures RowWritten(rows, front + [last], strategies, fails, before,
                       if last !in fails && Decides(rows, last.row, strategies, k) then last.row else middle, k)
  {
    var ps := front + [last];
    LandsPrefix(rows, front, last, strategies, fails, k);
    if Lands(rows, ps, strategies, fails, |front|, k) {
      assert LastToLand(rows, ps, strategies, fails, |front|, k);
    } else {
      if i: nat :| LastToLand(rows, front, strategies, fails, i, k) {
        assert LastToLand(rows, ps, strategies, fails, i, k);
      }
      forall i: nat | LastToLand(rows, ps, strategies, fails, i, k)
        ensures LastToLand(rows, front, strategies, fails, i, k)
      {
        assert i < |front|;
      }
    }
  }

  lemma {:induction false} UpdatesLand(s: Printers, rows: map<Id, PrinterRow>, ps: seq<FilePrinter>,
                                       strategies: seq<PrinterStrategy>, fails: set<FilePrinter>, k: Id)
    requires k in rows && (forall j :: j in rows ==> j in s.rows)
    ensures var t := UpdatePrinters(s, PrintersToUpdate(rows, ps, strategies), fails);
            && t.next == s.next && t.rows.Keys == s.rows.Keys
            && RowWritten(rows, ps, strategies, fails, s.rows[k], t.rows[k], k)
  {
    if ps != [] {
      var (front, last) := (ps[..|ps| - 1], ps[|ps| - 1]);
      assert ps == front + [last];
      UpdatesLand(s, rows, front, strategies, fails, k);
      UpdatesAppend(rows, front, last, strategies);
      var us := PrintersToUpdate(rows, front, strategies);
      var middle := UpdatePrinters(s, us, fails);
      RowWrittenNext(rows, front, last, strategies, fails, s.rows[k], middle.rows[k], k);
      MatchIs(rows, last.row, strategies, k);
      var found := MatchPrinter(rows, last.row, strategies);
      if found.Some? {
        MatchDecides(rows, last.row, strategies);
        DecidedRowExists(rows, last.row, strategies, found.value);
        assert (us + [Target(found.value, last)])[..|us|] == us;
      }
    }
  }

  lemma DecidedRowExists(rows: map<Id, PrinterRow>, row: PrinterRow, strategies: seq<PrinterStrategy>, k: Id)
    requires Decides(rows, row, strategies, k)
    ensures k in rows
  {
    var n: nat :| DecidedAt(rows, row, strategies, n, k);
  }

  lemma {:induction false} UpdatesSpareNewRows(s: Printers, rows: map<Id, PrinterRow>, ps: seq<FilePrinter>,
                                               strategies: seq<PrinterStrategy>, fails: set<FilePrinter>, k: Id)
    requires k in s.rows && k !in rows
    ensures var t := UpdatePrinters(s, PrintersToUpdate(rows, ps, strategies), fails);
            t.rows.Keys == s.rows.Keys && t.rows[k] == s.rows[k] && t.next == s.next
  {
    if ps != [] {
      var (front, last) := (ps[..|ps| - 1], ps[|ps| - 1]);
      assert ps == front + [last];
      UpdatesSpareNewRows(s, rows, front, strategies, fails, k);
      UpdatesAppend(rows, front, last, strategies);
      var us := PrintersToUpdate(rows, front, strategies);
      var found := MatchPrinter(rows, last.row, strategies);
      if found.Some? {
        MatchDecides(rows, last.row, strategies);
        DecidedRowExists(rows, last.row, strategies, found.value);
        assert (us + [Target(found.value, last)])[..|us|] == us;
      }
    }
  }

  // ---------- rows that are new ----------

  /** The printers that can be written and match nothing, in order. */
  ghost function Newcomers(rows: map<Id, PrinterRow>, ps: seq<FilePrinter>, strategies: seq<PrinterStrategy>,
                           fails: set<FilePrinter>): seq<FilePrinter>
  {
    if ps == [] then [] else
      Newcomers(rows, ps[..|ps| - 1], strategies, fails)
      + if ps[|ps| - 1] !in fails && Unmatched(rows, ps[|ps| - 1].row, strategies) then [ps[|ps| - 1]] else []
  }

  /** They get the next ids, one after the other. */
  ghost predicate Appended(s: Printers, newcomers: seq<FilePrinter>, t: Printers) {
    && t.next == s.next + |newcomers|
    && (forall k :: k in t.rows <==> k in s.rows || s.next <= k < t.next)
    && (forall k :: k in s.rows ==> t.rows[k] == s.rows[k])
    && (forall m :: 0 <= m < |newcomers| ==> t.rows[s.next + m] == newcomers[m].row)
  }

  lemma {:induction false} CreatesAppend(s: Printers, rows: map<Id, PrinterRow>, ps: seq<FilePrinter>,
                                         strategies: seq<PrinterStrategy>, fails: set<FilePrinter>)
    requires forall k :: k in s.rows ==> k < s.next
    ensures Appended(s, Newcomers(rows, ps, strategies, fails),
                     CreatePrinters(s, PrintersToInsert(rows, ps, strategies), fails))
  {
    if ps != [] {
      var (front, last) := (ps[..|ps| - 1], ps[|ps| - 1]);
      assert ps == front + [last];
      CreatesAppend(s, rows, front, strategies, fails);
      InsertsAppend(rows, front, last, strategies);
      MatchDecides(rows, last.row, strategies);
      NewcomersAppend(rows, front, last, strategies, fails);
      var ins := PrintersToInsert(rows, front, strategies);
      CreateAppend(s, ins, last, fails);
      OneMoreAppended(s, Newcomers(rows, front, strategies, fails), last, CreatePrinters(s, ins, fails));
    }
  }

  lemma NewcomersAppend(rows: map<Id, PrinterRow>, front: seq<FilePrinter>, last: FilePrinter,
                        strategies: seq<PrinterStrategy>, fails: set<FilePrinter>)
    ensures Newcomers(rows, front + [last], strategies, fails)
            == if last !in fails && Unmatched(rows, last.row, strategies)
               then Newcomers(rows, front, strategies, fails) + [last] else Newcomers(rows, front, strategies, fails)
  {
    assert (front + [last])[..|front|] == front;
  }

  lemma CreateAppend(s: Printers, front: seq<FilePrinter>, last: FilePrinter, fails: set<FilePrinter>)
    ensures var t := CreatePrinters(s, front, fails);
            CreatePrinters(s, front + [last], fails)
            == if last in fails then t
               else Printers(t.rows[t.next := last.row], t.next + 1, t.ids[last.id := t.next])
  {
    assert (front + [last])[..|front|] == front;
  }

  lemma OneMoreAppended(s: Printers, front: seq<FilePrinter>, last: FilePrinter, t: Printers)
    requires Appended(s, front, t) && forall k :: k in s.rows ==> k < s.next
    ensures Appended(s, front + [last], Printers(t.rows[t.next := last.row], t.next + 1, t.ids[last.id := t.next]))
  {
    assert forall m :: 0 <= m < |front| ==> (front + [last])[m] == front[m];
  }

  // ---------- what file ids are renamed to ----------

  function Lookup(ids: IdMap, key: Id): Option<Id> {
    if key in ids then Some(ids[key]) else None
  }

  /** Of the printers with this file id that land on a row, the i-th is the last one. */
  ghost predicate LastCarrierLands(rows: map<Id, PrinterRow>, ps: seq<FilePrinter>, strategies: seq<PrinterStrategy>,
                                   fails: set<FilePrinter>, key: Id, i: nat, k: Id)
  {
    && Lands(rows, ps, strategies, fails, i, k) && ps[i].id == key
    && forall j: nat, r :: i < j && Lands(rows, ps, strategies, fails, j, r) ==> ps[j].id != key
  }

  ghost predicate NoCarrierLands(rows: map<Id, PrinterRow>, ps: seq<FilePrinter>, strategies: seq<PrinterStrategy>,
                                 fails: set<FilePrinter>, key: Id)
  {
    forall j: nat, r :: Lands(rows, ps, strategies, fails, j, r) ==> ps[j].id != key
  }

  /** The file id stands for the row of the last printer that carries it and lands on a row, or for what it stood. */
  ghost predicate IdWritten(rows: map<Id, PrinterRow>, ps: seq<FilePrinter>, strategies: seq<PrinterStrategy>,
                            fails: set<FilePrinter>, before: Option<Id>, after: Option<Id>, key: Id)
  {
    && (NoCarrierLands(rows, ps, strategies, fails, key) ==> after == before)
    && (forall i: nat, k: Id :: LastCarrierLands(rows, ps, strategies, fails, key, i, k) ==> after == Some(k))
    && (NoCarrierLands(rows, ps, strategies, fails, key)
        || exists i: nat, k: Id :: LastCarrierLands(rows, ps, strategies, fails, key, i, k))
  }

  lemma AllLandPrefix(rows: map<Id, PrinterRow>, front: seq<FilePrinter>, last: FilePrinter,
                      strategies: seq<PrinterStrategy>, fails: set<FilePrinter>)
    ensures forall i: nat, k :: i < |front| ==>
              (Lands(rows, front + [last], strategies, fails, i, k) <==> Lands(rows, front, strategies, fails, i, k))
  {
  }

  lemma IdWrittenNext(rows: map<Id, PrinterRow>, front: seq<FilePrinter>, last: FilePrinter,
                      strategies: seq<PrinterStrategy>, fails: set<FilePrinter>, before: Option<Id>, middle: Option<Id>,
                      key: Id, found: Option<Id>)
    requires IdWritten(rows, front, strategies, fails, before, middle, key)
    requires forall k: Id :: found == Some(k) <==> Decides(rows, last.row, strategies, k)
    ensures IdWritten(rows, front + [last], strategies, fails, before,
                      if last !in fails && found.Some? && last.id == key then found else middle, key)
  {
    var (ps, n) := (front + [last], |front|);
    AllLandPrefix(rows, front, last, strategies, fails);
    if last !in fails && found.Some? && last.id == key {
      assert Lands(rows, ps, strategies, fails, n, found.value);
      assert LastCarrierLands(rows, ps, strategies, fails, key, n, found.value);
    } else {
      forall r ensures Lands(rows, ps, strategies, fails, n, r) ==> ps[n].id != key {}
      if i: nat, k: Id :| LastCarrierLands(rows, front, strategies, fails, key, i, k) {
        assert LastCarrierLands(rows, ps, strategies, fails, key, i, k);
      }
      forall i: nat, k: Id | LastCarrierLands(rows, ps, strategies, fails, key, i, k)
        ensures LastCarrierLands(rows, front, strategies, fails, key, i, k)
      {
        assert i < n;
      }
      if NoCarrierLands(rows, front, strategies, fails, key) {
        forall j: nat, r | Lands(rows, ps, strategies, fails, j, r) ensures ps[j].id != key {
          if j < n { assert Lands(rows, front, strategies, fails, j, r); }
        }
      }
    }
  }

  lemma {:induction false} UpdatesRenameIds(s: Printers, rows: map<Id, PrinterRow>, ps: seq<FilePrinter>,
                                            strategies: seq<PrinterStrategy>, fails: set<FilePrinter>, key: Id)
    requires forall j :: j in rows ==> j in s.rows
    ensures var t := UpdatePrinters(s, PrintersToUpdate(rows, ps, strategies), fails);
            t.rows.Keys == s.rows.Keys
            && IdWritten(rows, ps, strategies, fails, Lookup(s.ids, key), Lookup(t.ids, key), key)
  {
    if ps != [] {
      var (front, last) := (ps[..|ps| - 1], ps[|ps| - 1]);
      assert ps == front + [last];
      UpdatesRenameIds(s, rows, front, strategies, fails, key);
      UpdatesAppend(rows, front, last, strategies);
      var us := PrintersToUpdate(rows, front, strategies);
      var found := MatchPrinter(rows, last.row, strategies);
      forall k: Id ensures found == Some(k) <==> Decides(rows, last.row, strategies, k) {
        MatchIs(rows, last.row, strategies, k);
      }
      var middle := UpdatePrinters(s, us, fails);
      IdWrittenNext(rows, front, last, strategies, fails, Lookup(s.ids, key), Lookup(middle.ids, key), key, found);
      if found.Some? {
        DecidedRowExists(rows, last.row, strategies, found.value);
        UpdateAppend(s, us, Target(found.value, last), fails);
      }
    }
  }

  lemma UpdateAppend(s: Printers, front: seq<Target<FilePrinter>>, u: Target<FilePrinter>, fails: set<FilePrinter>)
    ensures var t := UpdatePrinters(s, front, fails);
            UpdatePrinters(s, front + [u], fails)
            == if u.value in fails || u.id !in t.rows then t
               else t.(rows := t.rows[u.id := u.value.row], ids := t.ids[u.value.id := u.id])
  {
    assert (front + [u])[..|front|] == front;
  }

  /** The m-th newcomer is the last one with this file id. */
  ghost predicate LastNewcomer(newcomers: seq<FilePrinter>, key: Id, m: nat) {
    m < |newcomers| && newcomers[m].id == key && forall j :: m < j < |newcomers| ==> newcomers[j].id != key
  }

  ghost predicate IdCreated(newcomers: seq<FilePrinter>, next: Id, before: Option<Id>, after: Option<Id>, key: Id) {
    && (forall m: nat :: LastNewcomer(newcomers, key, m) ==> after == Some(next + m))
    && ((forall m :: 0 <= m < |newcomers| ==> newcomers[m].id != key) ==> after == before)
    && ((exists m :: 0 <= m < |newcomers| && newcomers[m].id == key) ==>
          exists m: nat :: LastNewcomer(newcomers, key, m))
  }

  lemma IdCreatedNext(front: seq<FilePrinter>, last: FilePrinter, next: Id, before: Option<Id>, middle: Option<Id>,
                      key: Id)
    requires IdCreated(front, next, before, middle, key)
    ensures IdCreated(front + [last], next, before, if last.id == key then Some(next + |front|) else middle, key)
  {
    var ps := front + [last];
    if last.id == key {
      assert LastNewcomer(ps, key, |front|);
      forall m: nat | LastNewcomer(ps, key, m) ensures m == |front| { assert ps[|front|].id == key; }
    } else {
      assert forall m :: 0 <= m < |front| ==> ps[m] == front[m];
      forall m: nat | LastNewcomer(ps, key, m) ensures LastNewcomer(front, key, m) {}
      forall m: nat | LastNewcomer(front, key, m) ensures LastNewcomer(ps, key, m) {}
      if m :| 0 <= m < |ps| && ps[m].id == key { assert front[m].id == key; }
      if forall m :: 0 <= m < |ps| ==> ps[m].id != key {
        forall m | 0 <= m < |front| ensures front[m].id != key { assert ps[m] == front[m]; }
      }
    }
  }

  lemma {:induction false} CreatesRenameIds(s: Printers, rows: map<Id, PrinterRow>, ps: seq<FilePrinter>,
                                            strategies: seq<PrinterStrategy>, fails: set<FilePrinter>, key: Id)
    ensures var (t, newcomers) := (CreatePrinters(s, PrintersToInsert(rows, ps, strategies), fails),
                                   Newcomers(rows, ps, strategies, fails));
            && t.next == s.next + |newcomers|
            && IdCreated(newcomers, s.next, Lookup(s.ids, key), Lookup(t.ids, key), key)
  {
    if ps != [] {
      var (front, last) := (ps[..|ps| - 1], ps[|ps| - 1]);
      assert ps == front + [last];
      CreatesRenameIds(s, rows, front, strategies, fails, key);
      InsertsAppend(rows, front, last, strategies);
      MatchDecides(rows, last.row, strategies);
      NewcomersAppend(rows, front, last, strategies, fails);
      var ins := PrintersToInsert(rows, front, strategies);
      CreateAppend(s, ins, last, fails);
      var middle := CreatePrinters(s, ins, fails);
      IdCreatedNext(Newcomers(rows, front, strategies, fails), last, s.next, Lookup(s.ids, key),
                    Lookup(middle.ids, key), key);
    }
  }

  // ---------- the printers of an import ----------

  lemma {:induction false} UpdatesKeepNext(s: Printers, us: seq<Target<FilePrinter>>, fails: set<FilePrinter>)
    ensures UpdatePrinters(s, us, fails).next == s.next
  {
    if us != [] { UpdatesKeepNext(s, us[..|us| - 1], fails); }
  }

  /** Old rows are written by the printers that land on them, and the newcomers get the next rows in order. */
  ghost predicate PrintersImported(rows: map<Id, PrinterRow>, next: Id, ps: seq<FilePrinter>,
                                   strategies: seq<PrinterStrategy>, fails: set<FilePrinter>,
                                   newcomers: seq<FilePrinter>, after: map<Id, PrinterRow>, nextAfter: Id)
  {
    && nextAfter == next + |newcomers|
    && (forall k :: k in after <==> k in rows || next <= k < nextAfter)
    && (forall k :: k in rows ==> RowWritten(rows, ps, strategies, fails, rows[k], after[k], k))
    && (forall m :: 0 <= m < |newcomers| ==> after[next + m] == newcomers[m].row)
  }

  lemma PhaseRows(start: Printers, ps: seq<FilePrinter>, strategies: seq<PrinterStrategy>, fails: set<FilePrinter>,
                  newcomers: seq<FilePrinter>, created: Printers, us: seq<Target<FilePrinter>>, t: Printers)
    requires (forall k :: k in start.rows ==> k < start.next) && Appended(start, newcomers, created)
    requires us == PrintersToUpdate(start.rows, ps, strategies) && t == UpdatePrinters(created, us, fails)
    ensures PrintersImported(start.rows, start.next, ps, strategies, fails, newcomers, t.rows, t.next)
  {
    UpdatesRenameIds(created, start.rows, ps, strategies, fails, 1);
    UpdatesKeepNext(created, us, fails);
    forall k | k in start.rows ensures RowWritten(start.rows, ps, strategies, fails, start.rows[k], t.rows[k], k) {
      UpdatesLand(created, start.rows, ps, strategies, fails, k);
    }
    forall k | k in created.rows && k !in start.rows ensures t.rows[k] == created.rows[k] {
      UpdatesSpareNewRows(created, start.rows, ps, strategies, fails, k);
    }
  }

  /** For every list of comparison strategies: a row of the farm holds what the last printer of the file brings for
      which the first strategy that matches anything matches this row first, or else what it held; the printers that
      match nothing get new rows in order; printers that fail write nothing. */
  lemma ImportedPrinters(farm: Farm, file: File, fails: set<FilePrinter>)
    requires WellFormed(farm) && ValidFile(file)
    ensures var (rows, ps, strategies) := (farm.printers, file.printers, file.config.printerStrategies);
            var once := Import(farm, file, fails).farm;
            PrintersImported(rows, farm.nextPrinter, ps, strategies, fails, Newcomers(rows, ps, strategies, fails),
                             once.printers, once.nextPrinter)
  {
    var (rows, ps, strategies) := (farm.printers, file.printers, file.config.printerStrategies);
    var start := Printers(rows, farm.nextPrinter, map[]);
    CreatesAppend(start, rows, ps, strategies, fails);
    PhaseRows(start, ps, strategies, fails, Newcomers(rows, ps, strategies, fails),
              CreatePrinters(start, PrintersToInsert(rows, ps, strategies), fails),
              PrintersToUpdate(rows, ps, strategies), ImportPrinters(farm, file, fails));
  }

  /** A file id stands for the row of the last printer that carries it and lands on a row, or else for the row of the
      last newcomer that carries it, or else for nothing. */
  ghost predicate IdImported(rows: map<Id, PrinterRow>, next: Id, ps: seq<FilePrinter>,
                             strategies: seq<PrinterStrategy>, fails: set<FilePrinter>,
                             newcomers: seq<FilePrinter>, key: Id, after: Option<Id>)
  {
    && (forall i: nat, k: Id :: LastCarrierLands(rows, ps, strategies, fails, key, i, k) ==> after == Some(k))
    && (NoCarrierLands(rows, ps, strategies, fails, key) ==> IdCreated(newcomers, next, None, after, key))
    && (NoCarrierLands(rows, ps, strategies, fails, key)
        || exists i: nat, k: Id :: LastCarrierLands(rows, ps, strategies, fails, key, i, k))
  }

  lemma IdsCombine(rows: map<Id, PrinterRow>, ps: seq<FilePrinter>, strategies: seq<PrinterStrategy>,
                   fails: set<FilePrinter>, newcomers: seq<FilePrinter>, next: Id, key: Id, middle: Option<Id>,
                   after: Option<Id>)
    requires IdCreated(newcomers, next, None, middle, key)
    requires IdWritten(rows, ps, strategies, fails, middle, after, key)
    ensures IdImported(rows, next, ps, strategies, fails, newcomers, key, after)
  {
  }

  lemma PhaseIds(start: Printers, ps: seq<FilePrinter>, strategies: seq<PrinterStrategy>, fails: set<FilePrinter>,
                 newcomers: seq<FilePrinter>, created: Printers, us: seq<Target<FilePrinter>>, t: Printers, key: Id)
    requires Appended(start, newcomers, created) && start.ids == map[]
    requires IdCreated(newcomers, start.next, Lookup(start.ids, key), Lookup(created.ids, key), key)
    requires us == PrintersToUpdate(start.rows, ps, strategies) && t == UpdatePrinters(created, us, fails)
    ensures IdImported(start.rows, start.next, ps, strategies, fails, newcomers, key, Lookup(t.ids, key))
  {
    UpdatesRenameIds(created, start.rows, ps, strategies, fails, key);
    IdsCombine(start.rows, ps, strategies, fails, newcomers, start.next, key, Lookup(created.ids, key),
               Lookup(t.ids, key));
  }

  /** That is the renaming the import returns; printers that fail do not count. */
  lemma ImportedIds(farm: Farm, file: File, fails: set<FilePrinter>, key: Id)
    requires WellFormed(farm) && ValidFile(file)
    ensures var (rows, ps, strategies) := (farm.printers, file.printers, file.config.printerStrategies);
            IdImported(rows, farm.nextPrinter, ps, strategies, fails, Newcomers(rows, ps, strategies, fails), key,
                       Lookup(Import(farm, file, fails).printerIdMap, key))
  {
    var (rows, ps, strategies) := (farm.printers, file.printers, file.config.printerStrategies);
    var start := Printers(rows, farm.nextPrinter, map[]);
    CreatesAppend(start, rows, ps, strategies, fails);
    CreatesRenameIds(start, rows, ps, strategies, fails, key);
    PhaseIds(start, ps, strategies, fails, Newcomers(rows, ps, strategies, fails),
             CreatePrinters(start, PrintersToInsert(rows, ps, strategies), fails),
             PrintersToUpdate(rows, ps, strategies), ImportPrinters(farm, file, fails), key);
  }

  /** Compared by URL, a printer of the file overwrites the least row with its URL, when no other one has that URL. */
  lemma SameUrlOverwrites(farm: Farm, file: File, fails: set<FilePrinter>, i: nat, k: Id)
    requires WellFormed(farm) && ValidFile(file) && file.config.printerStrategies == [ByUrl]
    requires i < |file.printers| && file.printers[i] !in fails
    requires forall j :: 0 <= j < |file.printers| && j != i ==>
               Lower(file.printers[j].row.url) != Lower(file.printers[i].row.url)
    requires k in farm.printers && farm.printers[k].url == Lower(file.printers[i].row.url)
    requires forall r :: r in farm.printers && farm.printers[r].url == Lower(file.printers[i].row.url) ==> k <= r
    ensures var once := Import(farm, file, fails).farm;
            k in once.printers && once.printers[k] == file.printers[i].row
  {
    var (rows, ps, strategies) := (farm.printers, file.printers, file.config.printerStrategies);
    ImportedPrinters(farm, file, fails);
    assert DecidedAt(rows, ps[i].row, strategies, 0, k);
    assert Lands(rows, ps, strategies, fails, i, k);
    forall j: nat | Lands(rows, ps, strategies, fails, j, k) ensures j == i {
      var n: nat :| DecidedAt(rows, ps[j].row, strategies, n, k);
      assert strategies[n] == ByUrl;
    }
    assert LastToLand(rows, ps, strategies, fails, i, k);
  }

  /** When every printer of the file matches a row, no row is added. */
  lemma NoRowAdded(farm: Farm, file: File, fails: set<FilePrinter>)
    requires WellFormed(farm) && ValidFile(file)
    requires forall i :: 0 <= i < |file.printers| ==>
               !Unmatched(farm.printers, file.printers[i].row, file.config.printerStrategies)
    ensures Import(farm, file, fails).farm.printers.Keys == farm.printers.Keys
  {
    ImportedPrinters(farm, file, fails);
    NobodyNew(farm.printers, file.printers, file.config.printerStrategies, fails);
  }

  lemma {:induction false} NobodyNew(rows: map<Id, PrinterRow>, ps: seq<FilePrinter>, strategies: seq<PrinterStrategy>,
                                     fails: set<FilePrinter>)
    requires forall i :: 0 <= i < |ps| ==> !Unmatched(rows, ps[i].row, strategies)
    ensures Newcomers(rows, ps, strategies, fails) == []
  {
    if ps != [] { NobodyNew(rows, ps[..|ps| - 1], strategies, fails); }
  }

  /** No two printers of the file with different ids land on one row. */
  ghost predicate LandApart(rows: map<Id, PrinterRow>, ps: seq<FilePrinter>, strategies: seq<PrinterStrategy>,
                            fails: set<FilePrinter>)
  {
    forall i: nat, j: nat, k: Id :: Lands(rows, ps, strategies, fails, i, k) && Lands(rows, ps, strategies, fails, j, k)
                                    ==> ps[i].id == ps[j].id
  }

  /** Where a renamed file id comes from: a printer that lands on the row, or a newcomer. */
  ghost predicate Origin(rows: map<Id, PrinterRow>, next: Id, ps: seq<FilePrinter>, strategies: seq<PrinterStrategy>,
                         fails: set<FilePrinter>, newcomers: seq<FilePrinter>, key: Id, row: Id)
  {
    || (exists i: nat :: Lands(rows, ps, strategies, fails, i, row) && ps[i].id == key)
    || (exists m :: 0 <= m < |newcomers| && newcomers[m].id == key && row == next + m)
  }

  lemma HasOrigin(rows: map<Id, PrinterRow>, next: Id, ps: seq<FilePrinter>, strategies: seq<PrinterStrategy>,
                  fails: set<FilePrinter>, newcomers: seq<FilePrinter>, key: Id, row: Id)
    requires IdImported(rows, next, ps, strategies, fails, newcomers, key, Some(row))
    ensures Origin(rows, next, ps, strategies, fails, newcomers, key, row)
  {
    if NoCarrierLands(rows, ps, strategies, fails, key) {
      if exists m :: 0 <= m < |newcomers| && newcomers[m].id == key {
        var m: nat :| LastNewcomer(newcomers, key, m);
        assert newcomers[m].id == key && row == next + m;
      }
    } else {
      var i: nat, k: Id :| LastCarrierLands(rows, ps, strategies, fails, key, i, k);
      assert Lands(rows, ps, strategies, fails, i, row);
    }
  }

  lemma OriginsDiffer(rows: map<Id, PrinterRow>, next: Id, ps: seq<FilePrinter>, strategies: seq<PrinterStrategy>,
                      fails: set<FilePrinter>, newcomers: seq<FilePrinter>, key: Id, other: Id, row: Id)
    requires (forall k :: k in rows ==> k < next) && LandApart(rows, ps, strategies, fails)
    requires Origin(rows, next, ps, strategies, fails, newcomers, key, row)
    requires Origin(rows, next, ps, strategies, fails, newcomers, other, row)
    ensures key == other
  {
    forall i: nat | Lands(rows, ps, strategies, fails, i, row) ensures row < next {
      DecidedRowExists(rows, ps[i].row, strategies, row);
    }
  }

  /** The renaming of an import keeps file ids apart when their printers land on rows of their own. */
  lemma RenamedApart(farm: Farm, file: File, fails: set<FilePrinter>)
    requires WellFormed(farm) && ValidFile(file)
    requires LandApart(farm.printers, file.printers, file.config.printerStrategies, fails)
    ensures var ids := Import(farm, file, fails).printerIdMap;
            && (forall i, j :: i in ids && j in ids && ids[i] == ids[j] ==> i == j)
            && (forall i :: i in ids ==> ids[i] in Import(farm, file, fails).farm.printers)
  {
    var (rows, ps, strategies) := (farm.printers, file.printers, file.config.printerStrategies);
    var (next, newcomers) := (farm.nextPrinter, Newcomers(rows, ps, strategies, fails));
    var ids := Import(farm, file, fails).printerIdMap;
    forall key | key in ids ensures Origin(rows, next, ps, strategies, fails, newcomers, key, ids[key]) {
      ImportedIds(farm, file, fails, key);
      HasOrigin(rows, next, ps, strategies, fails, newcomers, key, ids[key]);
    }
    forall i, j | i in ids && j in ids && ids[i] == ids[j] ensures i == j {
      OriginsDiffer(rows, next, ps, strategies, fails, newcomers, i, j, ids[i]);
    }
    ImportedPrinters(farm, file, fails);
    forall key | key in ids ensures ids[key] in Import(farm, file, fails).farm.printers {
      OriginIsThere(rows, next, ps, strategies, fails, newcomers, key, ids[key]);
    }
  }

  lemma OriginIsThere(rows: map<Id, PrinterRow>, next: Id, ps: seq<FilePrinter>, strategies: seq<PrinterStrategy>,
                      fails: set<FilePrinter>, newcomers: seq<FilePrinter>, key: Id, row: Id)
    requires Origin(rows, next, ps, strategies, fails, newcomers, key, row)
    ensures row in rows || next <= row < next + |newcomers|
  {
    if i: nat :| Lands(rows, ps, strategies, fails, i, row) { DecidedRowExists(rows, ps[i].row, strategies, row); }
  }
}
