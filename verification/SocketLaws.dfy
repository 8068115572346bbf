/** What saving, disabling and deleting a printer makes of its adapter, and what a message leaves in the record. */
module SocketLaws {
  import opened Common
  import opened PrinterEvents
  import opened PrinterIndexProofs

  /** An adapter is kept when its type fits; otherwise one must be made, which some types do not allow. */
  ghost predicate Fits(s: Sockets, p: Printer)
    requires Indexed(s)
  {
    p.id in s.byId && s.adapters[s.byId[p.id]].printerType == p.printerType
  }

  /** The adapter of an enabled printer after it was saved: of its type, with all of its login, closed, so that it
      connects anew, and allowed to emit. */
  ghost predicate ReadyFor(a: Adapter, p: Printer) {
    && a.printerType == p.printerType && a.printerId == Some(p.id) && a.emittingAllowed && !a.socketOpen
    && a.login.Some? && a.login.value.apiKey == p.apiKey && a.login.value.username == p.username
    && a.login.value.password == p.password && a.login.value.printerURL == p.printerURL
    && a.login.value.printerType == p.printerType
  }

  /** Saving an enabled printer. */
  lemma SavedEnabled(s: Sockets, p: Printer)
    requires Indexed(s) && p.enabled && (Fits(s, p) || p.printerType in s.supported)
    ensures var r := CreateOrUpdate(s, p);
            && r.supported == s.supported && p.id in r.byId && r.byId == s.byId[p.id := r.byId[p.id]]
            && r.byId[p.id] < |r.adapters| && ReadyFor(r.adapters[r.byId[p.id]], p)
            && (Fits(s, p) ==> r.byId[p.id] == s.byId[p.id] && |r.adapters| == |s.adapters|)
            && (!Fits(s, p) ==> r.byId[p.id] == |s.adapters| && |r.adapters| == |s.adapters| + 1)
            && (forall n :: 0 <= n < |s.adapters| && n != r.byId[p.id] ==>
                  r.adapters[n] == if p.id in s.byId && s.byId[p.id] == n then s.adapters[n].(socketOpen := false)
                                   else s.adapters[n])
  {
  }

  /** Saving a printer for which no adapter can be made: what it had is closed and stays, and nothing else happens. */
  lemma SavedUnsupported(s: Sockets, p: Printer)
    requires Indexed(s) && p.enabled && !Fits(s, p) && p.printerType !in s.supported
    ensures Throws(s, p)
    ensures var r := CreateOrUpdate(s, p);
            && r.supported == s.supported && r.byId == s.byId && |r.adapters| == |s.adapters|
            && forall n :: 0 <= n < |s.adapters| ==>
                 r.adapters[n] == if p.id in s.byId && s.byId[p.id] == n then s.adapters[n].(socketOpen := false)
                                  else s.adapters[n]
  {
  }

  /** Exactly then the call throws. */
  lemma ThrowsIff(s: Sockets, p: Printer)
    requires Indexed(s)
    ensures Throws(s, p) <==> p.enabled && !Fits(s, p) && p.printerType !in s.supported
  {
  }

  /** Disabling or deleting a printer bars and closes the adapter it has, and takes it out of the index. */
  lemma AdapterDropped(s: Sockets, id: Id)
    requires Indexed(s)
    ensures var r := DeleteSocket(s, id);
            && r.supported == s.supported && r.byId == s.byId - {id} && |r.adapters| == |s.adapters|
            && forall n :: 0 <= n < |s.adapters| ==>
                 r.adapters[n] == if id in s.byId && s.byId[id] == n
                                  then s.adapters[n].(emittingAllowed := false, socketOpen := false)
                                  else s.adapters[n]
    ensures forall p: Printer :: p.id == id && !p.enabled ==> CreateOrUpdate(s, p) == DeleteSocket(s, id)
  {
  }

  /** Connecting opens the adapter of the printer, if it has one, and nothing else. */
  lemma AdapterOpens(f: Fleet, id: Id)
    requires Indexed(f.sockets)
    ensures var (g, s) := (Apply(f, Open(id)), f.sockets);
            && g.cache == f.cache && g.events == f.events
            && g.sockets.supported == s.supported && g.sockets.byId == s.byId
            && |g.sockets.adapters| == |s.adapters|
            && forall n :: 0 <= n < |s.adapters| ==>
                 g.sockets.adapters[n] == if id in s.byId && s.byId[id] == n
                                          then s.adapters[n].(socketOpen := true) else s.adapters[n]
  {
  }

  /** The printer keeps the adapter it had, closed. */
  ghost predicate Shut(s: Sockets, r: Sockets, id: Id)
    requires InRange(s) && InRange(r)
  {
    && (id in r.byId <==> id in s.byId)
    && (id in s.byId ==> r.adapters[r.byId[id]] == s.adapters[s.byId[id]].(socketOpen := false))
  }

  /** A batch stops where it throws: the printers in front are served, the one that throws has its adapter closed, those
      behind are not looked at. */
  lemma {:induction false} BatchStops(s: Sockets, ps: seq<Printer>, i: nat)
    requires Indexed(s) && DistinctIds(ps) && i < |ps|
    requires Throws(s, ps[i]) && forall j :: 0 <= j < i ==> !Throws(s, ps[j])
    ensures InRange(CreateBatch(s, ps))
    ensures forall j :: 0 <= j < i ==> Serves(CreateBatch(s, ps), ps[j].id, Some(ps[j]))
    ensures Shut(s, CreateBatch(s, ps), ps[i].id)
    ensures forall j :: i < j < |ps| ==> SameSocket(s, CreateBatch(s, ps), ps[j].id)
    decreases |ps|
  {
    var s1 := CreateOrUpdate(s, ps[0]);
    CreateOrUpdateEffect(s, ps[0]);
    NamesTail(ps);
    if i == 0 {
      forall j | 0 < j < |ps| ensures SameSocket(s, s1, ps[j].id) { assert ps[j].id != ps[0].id; }
    } else {
      forall j | 0 < j < |ps| ensures Throws(s, ps[j]) <==> Throws(s1, ps[1..][j - 1]) { ThrowsAlike(s, s1, ps, j); }
      BatchStops(s1, ps[1..], i - 1);
      CreateBatchEffect(s1, ps[1..]);
      StoppedNext(s, s1, CreateBatch(s1, ps[1..]), ps, i);
    }
  }

  lemma StoppedNext(s: Sockets, s1: Sockets, r: Sockets, ps: seq<Printer>, i: nat)
    requires InRange(s) && InRange(s1) && InRange(r) && DistinctIds(ps) && 0 < i < |ps|
    requires (forall id: Id :: id != ps[0].id ==> SameSocket(s, s1, id)) && OthersKept(s1, r, ps[1..])
    requires Serves(s1, ps[0].id, Some(ps[0]))
    requires forall j :: 0 <= j < i - 1 ==> Serves(r, ps[1..][j].id, Some(ps[1..][j]))
    requires Shut(s1, r, ps[1..][i - 1].id)
    requires forall j :: i - 1 < j < |ps[1..]| ==> SameSocket(s1, r, ps[1..][j].id)
    ensures forall j :: 0 <= j < i ==> Serves(r, ps[j].id, Some(ps[j]))
    ensures Shut(s, r, ps[i].id)
    ensures forall j :: i < j < |ps| ==> SameSocket(s, r, ps[j].id)
  {
    NamesTail(ps);
    forall j | 0 <= j < i ensures Serves(r, ps[j].id, Some(ps[j])) {
      if j > 0 { assert ps[j] == ps[1..][j - 1]; } else { assert SameSocket(s1, r, ps[0].id); }
    }
    assert ps[i] == ps[1..][i - 1] && SameSocket(s, s1, ps[i].id);
    forall j | i < j < |ps| ensures SameSocket(s, r, ps[j].id) {
      assert ps[j] == ps[1..][j - 1] && ps[0].id != ps[j].id;
      assert SameSocket(s, s1, ps[j].id) && SameSocket(s1, r, ps[1..][j - 1].id);
    }
  }

  // ---------- the printer cache ----------

  /** A saved printer is cached as it is, whether or not it gets an adapter, and no event of it is lost. */
  lemma SavedIsCached(f: Fleet, p: Printer)
    requires InRange(f.sockets)
    ensures forall step :: step == Created(p) || step == Updated(p) ==>
              var g := Apply(f, step);
              && p.id in g.cache && g.cache[p.id] == p && g.events == f.events
              && (forall id :: id != p.id ==> (id in g.cache <==> id in f.cache))
              && (forall id :: id != p.id && id in g.cache ==> g.cache[id] == f.cache[id])
  {
  }

  /** Deleted printers leave all three tables, the others stay. */
  lemma DeletedAreGone(f: Fleet, ids: seq<Id>)
    requires Indexed(f.sockets)
    ensures var g := Apply(f, Deleted(ids));
            && (forall id :: id in g.cache <==> id in f.cache && id !in ids)
            && (forall id :: id in g.cache ==> g.cache[id] == f.cache[id])
            && (forall id :: id in g.events <==> id in f.events && id !in ids)
            && (forall id :: id in g.events ==> g.events[id] == f.events[id])
            && (forall id :: id in ids ==> id !in g.sockets.byId)
            && (forall id: Id :: id !in ids ==> SameSocket(f.sockets, g.sockets, id))
  {
    DeleteEachEffect(f.sockets, ids);
  }

  // ---------- the events cache ----------

  /** Which messages are kept: current ones, and status updates of Moonraker printers. */
  predicate IsKept(printerType: int, m: Message) {
    m.topic == Current || (m.topic == StatusUpdate && printerType == MOONRAKER)
  }

  /** Adapter n is registered and not barred, and the message is one to keep. */
  predicate IsHeard(f: Fleet, n: nat, m: Message) {
    n < |f.sockets.adapters| &&
    var a := f.sockets.adapters[n];
    a.emittingAllowed && a.printerId.Some? && IsKept(a.printerType, m)
  }

  /** A kept message of an adapter that may emit is stored in the record of its printer with the time it came: a status
      update beside the current message, a current one of any other printer than OctoPrint as a whole. Every other
      message changes nothing. */
  lemma MessageStored(f: Fleet, n: nat, m: Message, now: int)
    requires InRange(f.sockets)
    ensures var g := Apply(f, Emit(n, m, now));
            && g.cache == f.cache && g.sockets == f.sockets
            && (!IsHeard(f, n, m) ==> g == f)
    ensures IsHeard(f, n, m) ==>
              var (g, a) := (Apply(f, Emit(n, m, now)), f.sockets.adapters[n]);
              var (id, before) := (a.printerId.value, OrCreated(f.events, a.printerId.value));
              && id in g.events && g.events == f.events[id := g.events[id]]
              && (m.topic == StatusUpdate ==>
                    g.events[id].statusUpdate == Some(Stored(m.payload, now)) && g.events[id].current == before.current)
              && (m.topic == Current ==>
                    && g.events[id].current.Some? && g.events[id].current.value.receivedAt == now
                    && g.events[id].statusUpdate == before.statusUpdate
                    && (a.printerType != OCTOPRINT ==> g.events[id].current.value.payload == m.payload))
  {
  }

  /** A printer without a record starts with an empty one. */
  lemma RecordStartsEmpty(all: map<Id, Events>, id: Id)
    ensures id in all ==> OrCreated(all, id) == all[id]
    ensures id !in all ==> OrCreated(all, id).current == OrCreated(all, id).statusUpdate == None
  {
  }
}
