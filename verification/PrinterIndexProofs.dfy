/** The index of adapters agrees with the printer cache. */
module PrinterIndexProofs {
  import opened Common
  import opened PrinterEvents

  /** An indexed adapter belongs to the printer it is filed under and has never been barred. */
  ghost predicate Indexed(s: Sockets) {
    && InRange(s)
    && forall id :: id in s.byId ==>
         s.adapters[s.byId[id]].printerId == Some(id) && s.adapters[s.byId[id]].emittingAllowed
  }

  /** No two printers share an adapter. */
  lemma NoSharing(s: Sockets, a: Id, b: Id)
    requires Indexed(s) && a in s.byId && b in s.byId && a != b
    ensures s.byId[a] != s.byId[b]
  {
    assert s.adapters[s.byId[a]].printerId != s.adapters[s.byId[b]].printerId;
  }

  /** An enabled printer has an adapter of its own type with its own login; nobody else has one. */
  ghost predicate Serves(s: Sockets, id: Id, p: Option<Printer>)
    requires InRange(s)
  {
    if p.Some? && p.value.enabled then
      && id in s.byId
      && var a := s.adapters[s.byId[id]];
         a.printerType == p.value.printerType && a.login == Some(LoginOf(p.value))
    else id !in s.byId
  }

  function Lookup(c: Printers, id: Id): Option<Printer> {
    if id in c then Some(c[id]) else None
  }

  ghost predicate Agrees(f: Fleet)
    requires InRange(f.sockets)
  {
    forall id :: Serves(f.sockets, id, Lookup(f.cache, id))
  }

  ghost predicate SameSocket(s: Sockets, r: Sockets, id: Id)
    requires InRange(s) && InRange(r)
  {
    && (id in s.byId <==> id in r.byId)
    && (id in s.byId ==> s.adapters[s.byId[id]] == r.adapters[r.byId[id]])
  }

  // ---------- one printer at a time ----------

  lemma DeleteSocketEffect(s: Sockets, id: Id)
    requires Indexed(s)
    ensures var r := DeleteSocket(s, id);
            && Indexed(r) && r.supported == s.supported && id !in r.byId
            && forall other: Id :: other != id ==> SameSocket(s, r, other)
  {
  }

  lemma CreateOrUpdateEffect(s: Sockets, p: Printer)
    requires Indexed(s)
    ensures var r := CreateOrUpdate(s, p);
            && Indexed(r) && r.supported == s.supported
            && (Serves(r, p.id, Some(p)) <==> !Throws(s, p))
            && forall other: Id :: other != p.id ==> SameSocket(s, r, other)
  {
    if !p.enabled {
      DeleteSocketEffect(s, p.id);
    } else if p.id in s.byId {
      forall other: Id | other in s.byId && other != p.id ensures s.byId[other] != s.byId[p.id] {
        NoSharing(s, other, p.id);
      }
      CloseEffect(s, p.id);
      ReplaceEffect(Close(s, s.byId[p.id]), p);
    } else {
      ReplaceEffect(s, p);
    }
  }

  lemma CloseEffect(s: Sockets, id: Id)
    requires Indexed(s) && id in s.byId
    ensures var r := Close(s, s.byId[id]);
            && Indexed(r) && r.byId == s.byId
            && r.adapters[r.byId[id]] == s.adapters[s.byId[id]].(socketOpen := false)
            && forall other: Id :: other != id ==> SameSocket(s, r, other)
  {
    forall other: Id | other in s.byId && other != id ensures s.byId[other] != s.byId[id] {
      NoSharing(s, other, id);
    }
  }

  lemma ReplaceEffect(s: Sockets, p: Printer)
    requires Indexed(s) && p.enabled
    ensures SameType(s, p) ==> var r := Register(s, s.byId[p.id], p);
              && Indexed(r) && Serves(r, p.id, Some(p)) && forall other: Id :: other != p.id ==> SameSocket(s, r, other)
    ensures var r := Register(Make(s, p.id, p.printerType), |s.adapters|, p);
              && Indexed(r) && Serves(r, p.id, Some(p)) && forall other: Id :: other != p.id ==> SameSocket(s, r, other)
  {
    if p.id in s.byId {
      forall other: Id | other in s.byId && other != p.id ensures s.byId[other] != s.byId[p.id] {
        NoSharing(s, other, p.id);
      }
    }
  }

  // ---------- lists of printers ----------

  ghost predicate DistinctIds(ps: seq<Printer>) {
    forall i, j :: 0 <= i < j < |ps| ==> ps[i].id != ps[j].id
  }

  ghost predicate Names(ps: seq<Printer>, id: Id) {
    exists i :: 0 <= i < |ps| && ps[i].id == id
  }

  lemma ThrowsIsLocal(s: Sockets, r: Sockets, p: Printer)
    requires InRange(s) && InRange(r) && s.supported == r.supported && SameSocket(s, r, p.id)
    ensures Throws(s, p) <==> Throws(r, p)
  {
  }

  /** Printers not in the list keep their adapters. */
  ghost predicate OthersKept(s: Sockets, r: Sockets, ps: seq<Printer>)
    requires InRange(s) && InRange(r)
  {
    forall id :: !Names(ps, id) ==> SameSocket(s, r, id)
  }

  /** From the effect of the first printer and that of the others. */
  lemma OthersKeptNext(s: Sockets, s1: Sockets, r: Sockets, ps: seq<Printer>)
    requires InRange(s) && InRange(s1) && InRange(r) && ps != [] && DistinctIds(ps)
    requires (forall id: Id :: id != ps[0].id ==> SameSocket(s, s1, id)) && OthersKept(s1, r, ps[1..])
    ensures OthersKept(s, r, ps) && SameSocket(s1, r, ps[0].id)
  {
    NamesTail(ps);
    forall id: Id | !Names(ps, id) ensures SameSocket(s, r, id) {
      assert id != ps[0].id && !Names(ps[1..], id);
      assert SameSocket(s, s1, id) && SameSocket(s1, r, id);
    }
  }

  lemma ThrowsAlike(s: Sockets, s1: Sockets, ps: seq<Printer>, i: nat)
    requires InRange(s) && InRange(s1) && s.supported == s1.supported && DistinctIds(ps) && 0 < i < |ps|
    requires forall id: Id :: id != ps[0].id ==> SameSocket(s, s1, id)
    ensures ps[i] == ps[1..][i - 1] && (Throws(s, ps[i]) <==> Throws(s1, ps[1..][i - 1]))
  {
    ThrowsIsLocal(s, s1, ps[i]);
  }

  ghost predicate ServesAll(s: Sockets, ps: seq<Printer>)
    requires InRange(s)
  {
    forall i :: 0 <= i < |ps| ==> Serves(s, ps[i].id, Some(ps[i]))
  }

  ghost predicate NoneThrows(s: Sockets, ps: seq<Printer>)
    requires InRange(s)
  {
    forall i :: 0 <= i < |ps| ==> !Throws(s, ps[i])
  }

  /** A batch serves all its printers exactly when none of them makes it throw, and throws otherwise. */
  lemma {:induction false} CreateBatchEffect(s: Sockets, ps: seq<Printer>)
    requires Indexed(s) && DistinctIds(ps)
    ensures var r := CreateBatch(s, ps);
            && Indexed(r) && r.supported == s.supported && OthersKept(s, r, ps)
            && (ServesAll(r, ps) <==> NoneThrows(s, ps)) && (BatchThrows(s, ps) <==> !NoneThrows(s, ps))
    decreases |ps|
  {
    if ps != [] {
      var s1 := CreateOrUpdate(s, ps[0]);
      CreateOrUpdateEffect(s, ps[0]);
      NamesTail(ps);
      if !Throws(s, ps[0]) {
        CreateBatchEffect(s1, ps[1..]);
        BatchNext(s, s1, CreateBatch(s1, ps[1..]), ps);
      }
    }
  }

  lemma BatchNext(s: Sockets, s1: Sockets, r: Sockets, ps: seq<Printer>)
    requires InRange(s) && InRange(s1) && InRange(r) && s.supported == s1.supported && ps != [] && DistinctIds(ps)
    requires (forall id: Id :: id != ps[0].id ==> SameSocket(s, s1, id)) && OthersKept(s1, r, ps[1..])
    requires !Throws(s, ps[0]) && Serves(s1, ps[0].id, Some(ps[0]))
             && (ServesAll(r, ps[1..]) <==> NoneThrows(s1, ps[1..]))
    ensures OthersKept(s, r, ps) && (ServesAll(r, ps) <==> NoneThrows(s, ps))
    ensures NoneThrows(s, ps) <==> NoneThrows(s1, ps[1..])
  {
    OthersKeptNext(s, s1, r, ps);
    assert Serves(r, ps[0].id, Some(ps[0]));
    forall i | 0 < i < |ps| ensures ps[i] == ps[1..][i - 1] && (Throws(s, ps[i]) <==> Throws(s1, ps[1..][i - 1])) {
      ThrowsAlike(s, s1, ps, i);
    }
    ShiftAll(r, ps);
    ShiftThrows(s, s1, ps);
  }

  lemma ShiftAll(r: Sockets, ps: seq<Printer>)
    requires InRange(r) && ps != []
    ensures ServesAll(r, ps) <==> Serves(r, ps[0].id, Some(ps[0])) && ServesAll(r, ps[1..])
  {
    if ServesAll(r, ps[1..]) && Serves(r, ps[0].id, Some(ps[0])) {
      forall i | 0 <= i < |ps| ensures Serves(r, ps[i].id, Some(ps[i])) {
        if i > 0 { assert ps[i] == ps[1..][i - 1]; }
      }
    }
  }

  lemma ShiftThrows(s: Sockets, s1: Sockets, ps: seq<Printer>)
    requires InRange(s) && InRange(s1) && ps != []
    requires forall i :: 0 < i < |ps| ==> ps[i] == ps[1..][i - 1] && (Throws(s, ps[i]) <==> Throws(s1, ps[1..][i - 1]))
    ensures NoneThrows(s, ps) <==> !Throws(s, ps[0]) && NoneThrows(s1, ps[1..])
  {
    if NoneThrows(s, ps) {
      forall i | 0 <= i < |ps[1..]| ensures !Throws(s1, ps[1..][i]) {
        assert !Throws(s, ps[i + 1]);
      }
    }
  }

  lemma NamesTail(ps: seq<Printer>)
    requires ps != [] && DistinctIds(ps)
    ensures DistinctIds(ps[1..]) && !Names(ps[1..], ps[0].id)
    ensures forall id :: Names(ps, id) <==> id == ps[0].id || Names(ps[1..], id)
  {
    forall id | Names(ps, id) && id != ps[0].id ensures Names(ps[1..], id) {
      var i :| 0 <= i < |ps| && ps[i].id == id;
      assert ps[1..][i - 1].id == id;
    }
    forall id | Names(ps[1..], id) ensures Names(ps, id) {
      var i :| 0 <= i < |ps[1..]| && ps[1..][i].id == id;
      assert ps[i + 1].id == id;
    }
    assert ps[0].id == ps[0].id && Names(ps, ps[0].id);
  }

  /** Reloading tries every printer, so each is served unless it throws itself. */
  lemma {:induction false} CreateEachEffect(s: Sockets, ps: seq<Printer>)
    requires Indexed(s) && DistinctIds(ps)
    ensures var r := CreateEach(s, ps);
            && Indexed(r) && r.supported == s.supported && OthersKept(s, r, ps)
            && (forall i :: 0 <= i < |ps| ==> (Serves(r, ps[i].id, Some(ps[i])) <==> !Throws(s, ps[i])))
    decreases |ps|
  {
    if ps != [] {
      var s1 := CreateOrUpdate(s, ps[0]);
      CreateOrUpdateEffect(s, ps[0]);
      NamesTail(ps);
      CreateEachEffect(s1, ps[1..]);
      EachNext(s, s1, CreateEach(s1, ps[1..]), ps);
    }
  }

  lemma EachNext(s: Sockets, s1: Sockets, r: Sockets, ps: seq<Printer>)
    requires InRange(s) && InRange(s1) && InRange(r) && s.supported == s1.supported && ps != [] && DistinctIds(ps)
    requires (forall id: Id :: id != ps[0].id ==> SameSocket(s, s1, id)) && OthersKept(s1, r, ps[1..])
    requires Serves(s1, ps[0].id, Some(ps[0])) <==> !Throws(s, ps[0])
    requires forall i :: 0 <= i < |ps[1..]| ==>
               (Serves(r, ps[1..][i].id, Some(ps[1..][i])) <==> !Throws(s1, ps[1..][i]))
    ensures OthersKept(s, r, ps)
    ensures forall i :: 0 <= i < |ps| ==> (Serves(r, ps[i].id, Some(ps[i])) <==> !Throws(s, ps[i]))
  {
    OthersKeptNext(s, s1, r, ps);
    forall i | 0 <= i < |ps| ensures Serves(r, ps[i].id, Some(ps[i])) <==> !Throws(s, ps[i]) {
      if i > 0 { ThrowsAlike(s, s1, ps, i); }
    }
  }

  lemma {:induction false} DeleteEachEffect(s: Sockets, ids: seq<Id>)
    requires Indexed(s)
    ensures var r := DeleteEach(s, ids);
            && Indexed(r) && r.supported == s.supported
            && (forall id :: id in ids ==> id !in r.byId)
            && (forall id: Id :: id !in ids ==> SameSocket(s, r, id))
    decreases |ids|
  {
    if ids != [] {
      var s1 := DeleteSocket(s, ids[0]);
      DeleteSocketEffect(s, ids[0]);
      DeleteEachEffect(s1, ids[1..]);
      var r := DeleteEach(s, ids);
      forall id | id in ids ensures id !in r.byId {
        if id !in ids[1..] {
          assert id == ids[0];
          assert SameSocket(s1, r, id);
        }
      }
      forall id: Id | id !in ids ensures SameSocket(s, r, id) {
        assert id != ids[0];
        assert SameSocket(s, s1, id) && SameSocket(s1, r, id);
      }
    }
  }

  lemma {:induction false} SetEachAt(c: Printers, ps: seq<Printer>)
    requires DistinctIds(ps)
    ensures forall i :: 0 <= i < |ps| ==> Lookup(SetEach(c, ps), ps[i].id) == Some(ps[i])
    ensures forall id: Id :: !Names(ps, id) ==> Lookup(SetEach(c, ps), id) == Lookup(c, id)
    decreases |ps|
  {
    if ps != [] {
      SetEachAt(c[ps[0].id := ps[0]], ps[1..]);
      NamesTail(ps);
      forall i | 0 <= i < |ps| ensures Lookup(SetEach(c, ps), ps[i].id) == Some(ps[i]) {
        if i > 0 { assert ps[i] == ps[1..][i - 1]; }
      }
    }
  }

  lemma {:induction false} ListCachedDistinct(c: Printers, ids: seq<Id>, includeDisabled: bool)
    requires (forall id :: id in ids ==> id in c) && NoDuplicates(ids)
    ensures DistinctIds(ListCached(c, ids, includeDisabled))
    decreases |ids|
  {
    if ids != [] {
      assert forall id :: id in ids[1..] ==> id in ids;
      ListCachedDistinct(c, ids[1..], includeDisabled);
      assert ids[0] !in ids[1..];
      assert forall q :: q in ListCached(c, ids[1..], includeDisabled) ==> q.id in ids[1..];
    }
  }

  lemma EnabledPrintersListed(c: Printers)
    ensures DistinctIds(EnabledPrinters(c))
    ensures forall i :: 0 <= i < |EnabledPrinters(c)| ==>
              var p := EnabledPrinters(c)[i]; p.enabled && Lookup(c, p.id) == Some(p)
    ensures forall id :: id in c && c[id].enabled ==> Names(EnabledPrinters(c), id)
  {
    var ids := SortBy(c.Keys, Ascending());
    ListCachedDistinct(c, ids, false);
    OnlyEnabled(c, ids);
    forall id | id in c && c[id].enabled ensures Names(EnabledPrinters(c), id) {
      assert c[id] in EnabledPrinters(c);
    }
  }

  lemma {:induction false} OnlyEnabled(c: Printers, ids: seq<Id>)
    requires forall id :: id in ids ==> id in c
    ensures forall p :: p in ListCached(c, ids, false) ==> p.enabled
    decreases |ids|
  {
    if ids != [] {
      assert forall id :: id in ids[1..] ==> id in ids;
      OnlyEnabled(c, ids[1..]);
    }
  }

  // ---------- one event ----------

  /** New printers come with new ids; updates are of any printer. */
  ghost predicate Legal(step: Step) {
    match step
    case CreatedBatch(ps) => DistinctIds(ps)
    case Reload(rows) => DistinctIds(rows)
    case _ => true
  }

  /** The event needs an adapter of a type the factory does not make. */
  ghost predicate Unsupported(f: Fleet, step: Step)
    requires InRange(f.sockets)
  {
    match step
    case Created(p) => Throws(f.sockets, p)
    case Updated(p) => Throws(f.sockets, p)
    case CreatedBatch(ps) => exists i :: 0 <= i < |ps| && Throws(f.sockets, ps[i])
    case Reload(rows) => exists id :: NeedsUnsupported(f, SetEach(f.cache, rows), id)
    case _ => false
  }

  lemma StepKeepsIndexed(f: Fleet, step: Step)
    requires Indexed(f.sockets) && Legal(step)
    ensures Indexed(Apply(f, step).sockets) && Apply(f, step).sockets.supported == f.sockets.supported
  {
    match step
    case Created(p) => CreateOrUpdateEffect(f.sockets, p);
    case Updated(p) => CreateOrUpdateEffect(f.sockets, p);
    case CreatedBatch(ps) => CreateBatchEffect(f.sockets, ps);
    case Deleted(ids) => DeleteEachEffect(f.sockets, ids);
    case Reload(rows) =>
      EnabledPrintersListed(SetEach(f.cache, rows));
      CreateEachEffect(f.sockets.(byId := map[]), EnabledPrinters(SetEach(f.cache, rows)));
    case _ =>
  }

  /** The index keeps agreeing with the cache exactly when no adapter of an unsupported type is needed. */
  lemma StepKeepsAgreementIff(f: Fleet, step: Step)
    requires Indexed(f.sockets) && Agrees(f) && Legal(step)
    ensures Agrees(Apply(f, step)) <==> !Unsupported(f, step)
  {
    match step
    case Created(p) => SavedAgreesIff(f, p);
    case Updated(p) => SavedAgreesIff(f, p);
    case CreatedBatch(ps) => BatchAgreesIff(f, ps);
    case Deleted(ids) => DeletedAgrees(f, ids);
    case Reload(rows) => ReloadAgreesIff(f, rows);
    case Open(id) => OpenedSame(f.sockets, id);
    case Emit(n, m, now) =>
  }

  lemma OpenedSame(s: Sockets, id: Id)
    requires Indexed(s)
    ensures forall i: Id, p :: Serves(Opened(s, id), i, p) <==> Serves(s, i, p)
  {
    if id in s.byId {
      forall i: Id | i in s.byId && i != id ensures s.byId[i] != s.byId[id] { NoSharing(s, i, id); }
    }
  }

  lemma SavedAgreesIff(f: Fleet, p: Printer)
    requires Indexed(f.sockets) && Agrees(f)
    ensures Agrees(Apply(f, Created(p))) <==> !Throws(f.sockets, p)
  {
    var g := Apply(f, Created(p));
    CreateOrUpdateEffect(f.sockets, p);
    forall id: Id | id != p.id ensures Serves(g.sockets, id, Lookup(g.cache, id)) {
      assert SameSocket(f.sockets, g.sockets, id) && Serves(f.sockets, id, Lookup(f.cache, id));
    }
    assert Lookup(g.cache, p.id) == Some(p);
  }

  lemma BatchAgreesIff(f: Fleet, ps: seq<Printer>)
    requires Indexed(f.sockets) && Agrees(f) && DistinctIds(ps)
    ensures Agrees(Apply(f, CreatedBatch(ps))) <==> !Unsupported(f, CreatedBatch(ps))
  {
    var g := Apply(f, CreatedBatch(ps));
    CreateBatchEffect(f.sockets, ps);
    SetEachAt(f.cache, ps);
    forall id: Id | !Names(ps, id) ensures Serves(g.sockets, id, Lookup(g.cache, id)) {
      assert SameSocket(f.sockets, g.sockets, id) && Serves(f.sockets, id, Lookup(f.cache, id));
    }
    if Agrees(g) {
      forall i | 0 <= i < |ps| ensures Serves(g.sockets, ps[i].id, Some(ps[i])) {
        assert Serves(g.sockets, ps[i].id, Lookup(g.cache, ps[i].id));
      }
    }
    if ServesAll(g.sockets, ps) {
      forall id: Id | Names(ps, id) ensures Serves(g.sockets, id, Lookup(g.cache, id)) {
        var i :| 0 <= i < |ps| && ps[i].id == id;
      }
    }
  }

  lemma DeletedAgrees(f: Fleet, ids: seq<Id>)
    requires Indexed(f.sockets) && Agrees(f)
    ensures Agrees(Apply(f, Deleted(ids)))
  {
    var g := Apply(f, Deleted(ids));
    DeleteEachEffect(f.sockets, ids);
    forall id: Id ensures Serves(g.sockets, id, Lookup(g.cache, id)) {
      if id !in ids {
        assert SameSocket(f.sockets, g.sockets, id) && Serves(f.sockets, id, Lookup(f.cache, id));
      }
    }
  }

  /** Reloading restores agreement from any state, unless an enabled printer has an unsupported type. */
  lemma ReloadAgreesIff(f: Fleet, rows: seq<Printer>)
    requires InRange(f.sockets)
    ensures Agrees(Apply(f, Reload(rows))) <==> !Unsupported(f, Reload(rows))
  {
    var g := Apply(f, Reload(rows));
    forall id: Id ensures Serves(g.sockets, id, Lookup(g.cache, id)) <==> !NeedsUnsupported(f, g.cache, id) {
      ReloadServesIff(f, g.cache, id);
    }
  }

  ghost predicate NeedsUnsupported(f: Fleet, cache: Printers, id: Id) {
    id in cache && cache[id].enabled && cache[id].printerType !in f.sockets.supported
  }

  lemma ReloadServesIff(f: Fleet, cache: Printers, id: Id)
    requires InRange(f.sockets)
    ensures Serves(CreateEach(f.sockets.(byId := map[]), EnabledPrinters(cache)), id, Lookup(cache, id))
            <==> !NeedsUnsupported(f, cache, id)
  {
    var (cleared, ps) := (f.sockets.(byId := map[]), EnabledPrinters(cache));
    EnabledPrintersListed(cache);
    CreateEachEffect(cleared, ps);
    var r := CreateEach(cleared, ps);
    if id in cache && cache[id].enabled {
      var i :| 0 <= i < |ps| && ps[i].id == id;
      assert Serves(r, ps[i].id, Some(ps[i])) <==> !Throws(cleared, ps[i]);
    } else {
      assert !Names(ps, id);
      assert SameSocket(cleared, r, id);
    }
  }

  // ---------- runs ----------

  ghost predicate Smooth(f: Fleet, steps: seq<Step>)
    requires InRange(f.sockets)
    decreases |steps|
  {
    steps == [] || (Legal(steps[0]) && !Unsupported(f, steps[0]) && Smooth(Apply(f, steps[0]), steps[1..]))
  }

  /** Over every sequence of events whose adapters can be made, the index holds exactly the enabled cached
      printers, each with an adapter of its id, type and login that no other printer has. */
  lemma {:induction false} IndexAgreesOverRuns(f: Fleet, steps: seq<Step>)
    requires Indexed(f.sockets) && Agrees(f) && Smooth(f, steps)
    ensures Indexed(Run(f, steps).sockets) && Agrees(Run(f, steps))
    decreases |steps|
  {
    if steps != [] {
      StepKeepsIndexed(f, steps[0]);
      StepKeepsAgreementIff(f, steps[0]);
      IndexAgreesOverRuns(Apply(f, steps[0]), steps[1..]);
    }
  }
}
