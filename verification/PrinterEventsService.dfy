/** The classes behind the three tables, and the event emitter that feeds them. */
module PrinterEventsServiceModel {
  import opened Common
  import opened PrinterEvents

  class WebsocketAdapter {
    ghost const number: nat
    const printerType: int
    var printerId: Option<Id>
    var login: Option<LoginDto>
    var eventEmittingAllowed: bool
    var socketOpen: bool

    ghost function State(): Adapter
      reads this
    {
      Adapter(printerType, printerId, login, eventEmittingAllowed, socketOpen)
    }

    constructor (printerType: int, ghost number: nat)
      ensures State() == MadeAdapter(printerType) && this.number == number
    {
      this.printerType, this.number := printerType, number;
      printerId, login, eventEmittingAllowed, socketOpen := None, None, true, false;
    }

    method RegisterCredentials(printerId: Id, login: LoginDto)
      modifies this
      ensures State() == old(State()).(printerId := Some(printerId), login := Some(login))
    {
      this.printerId, this.login := Some(printerId), Some(login);
    }

    method DisallowEmittingEvents()
      modifies this
      ensures State() == old(State()).(emittingAllowed := false)
    {
      eventEmittingAllowed := false;
    }

    method Open()
      modifies this
      ensures State() == old(State()).(socketOpen := true)
    {
      socketOpen := true;
    }

    method Close()
      modifies this
      ensures State() == old(State()).(socketOpen := false)
    {
      socketOpen := false;
    }

    /** emitEvent: nothing leaves a barred adapter. */
    method EmitEvent(events: PrinterEventsCache, m: Message, now: int)
      modifies events
      ensures events.keyValueStore == if eventEmittingAllowed && printerId.Some?
                then Received(old(events.keyValueStore), printerType, printerId.value, m, now)
                else old(events.keyValueStore)
    {
      if !eventEmittingAllowed || printerId.None? { return; }
      events.OnMessage(printerType, printerId.value, m, now);
    }
  }

  class PrinterEventsCache {
    var keyValueStore: map<Id, Events>

    constructor ()
      ensures keyValueStore == map[]
    {
      keyValueStore := map[];
    }

    method GetOrCreateEvents(printerId: Id) returns (ref: Events)
      modifies this
      ensures ref == OrCreated(old(keyValueStore), printerId)
      ensures keyValueStore == old(keyValueStore)[printerId := ref]
    {
      if printerId in keyValueStore {
        ref := keyValueStore[printerId];
        assert keyValueStore == keyValueStore[printerId := ref];
      } else {
        ref := NO_EVENTS;
        keyValueStore := keyValueStore[printerId := ref];
      }
    }

    method SetEvent(printerId: Id, topic: Topic, payload: Payload, now: int)
      requires topic != Other
      modifies this
      ensures keyValueStore == old(keyValueStore)[printerId :=
                SetTopic(OrCreated(old(keyValueStore), printerId), topic, Stored(payload, now))]
    {
      var ref := GetOrCreateEvents(printerId);
      keyValueStore := keyValueStore[printerId := SetTopic(ref, topic, Stored(payload, now))];
    }

    method SetEventPartial(printerId: Id, payload: Payload, keysToUpdate: seq<string>, now: int)
      modifies this
      ensures var e := OrCreated(old(keyValueStore), printerId);
              keyValueStore == old(keyValueStore)[printerId :=
                SetTopic(e, Current, Stored(CopyKeys(PartialPayload(e), payload, keysToUpdate), now))]
    {
      var ref := GetOrCreateEvents(printerId);
      var merged: Payload := if ref.current.Some? then ref.current.value.payload else map[];
      for i := 0 to |keysToUpdate|
        invariant CopyKeys(merged, payload, keysToUpdate[i..]) == CopyKeys(PartialPayload(ref), payload, keysToUpdate)
        invariant keyValueStore == old(keyValueStore)[printerId := ref]
      {
        merged := merged[keysToUpdate[i] := Field(payload, keysToUpdate[i])];
        assert keysToUpdate[i..][1..] == keysToUpdate[i + 1..];
      }
      keyValueStore := keyValueStore[printerId := SetTopic(ref, Current, Stored(merged, now))];
    }

    /** The listeners of the four kinds of adapter. */
    method OnMessage(printerType: int, printerId: Id, m: Message, now: int)
      modifies this
      ensures keyValueStore == Received(old(keyValueStore), printerType, printerId, m, now)
    {
      if printerType == OCTOPRINT {
        if m.topic == Current {
          var keys := ["state", "job", "progress", "currentZ", "offsets", "resends"];
          var temps := Field(m.payload, "temps");
          if temps.List? && |temps.items| > 0 {
            keys := keys + ["temps"];
          }
          assert keys == KeysToUpdate(m.payload);
          SetEventPartial(printerId, m.payload, keys, now);
        }
      } else if m.topic == Current || (m.topic == StatusUpdate && printerType == MOONRAKER) {
        SetEvent(printerId, m.topic, m.payload, now);
      }
    }

    method HandlePrintersDeleted(printerIds: seq<Id>)
      modifies this
      ensures keyValueStore == Without(old(keyValueStore), printerIds)
    {
      for i := 0 to |printerIds|
        invariant keyValueStore == Without(old(keyValueStore), printerIds[..i])
      {
        keyValueStore := keyValueStore - {printerIds[i]};
      }
      assert printerIds[..|printerIds|] == printerIds;
    }
  }

  class PrinterCache {
    var keyValueStore: Printers

    constructor ()
      ensures keyValueStore == map[]
    {
      keyValueStore := map[];
    }

    method SetKeyValuesBatch(printers: seq<Printer>)
      modifies this
      ensures keyValueStore == SetEach(old(keyValueStore), printers)
    {
      for i := 0 to |printers|
        invariant SetEach(keyValueStore, printers[i..]) == SetEach(old(keyValueStore), printers)
      {
        assert printers[i..][1..] == printers[i + 1..];
        HandlePrinterCreatedOrUpdated(printers[i]);
      }
    }

    method HandlePrinterCreatedOrUpdated(printer: Printer)
      modifies this
      ensures keyValueStore == old(keyValueStore)[printer.id := printer]
    {
      keyValueStore := keyValueStore[printer.id := printer];
    }

    method HandlePrintersDeleted(printerIds: seq<Id>)
      modifies this
      ensures keyValueStore == WithoutPrinters(old(keyValueStore), printerIds)
    {
      for i := 0 to |printerIds|
        invariant keyValueStore == WithoutPrinters(old(keyValueStore), printerIds[..i])
      {
        keyValueStore := keyValueStore - {printerIds[i]};
      }
      assert printerIds[..|printerIds|] == printerIds;
    }

    /** The cached printers, or only the enabled ones. */
    method ListCachedPrinters(includeDisabled: bool) returns (printers: seq<Printer>)
      ensures printers == ListCached(keyValueStore, SortBy(keyValueStore.Keys, Ascending()), includeDisabled)
    {
      var ids := SortBy(keyValueStore.Keys, Ascending());
      var i := |ids|;
      printers := [];
      while i > 0
        invariant 0 <= i <= |ids| && forall id :: id in ids[i..] ==> id in keyValueStore
        invariant printers == ListCached(keyValueStore, ids[i..], includeDisabled)
      {
        i := i - 1;
        OneMoreListed(keyValueStore, ids, i, includeDisabled);
        if includeDisabled || keyValueStore[ids[i]].enabled {
          printers := [keyValueStore[ids[i]]] + printers;
        }
      }
      assert ids[0..] == ids;
    }
  }

  lemma OneMoreListed(c: Printers, ids: seq<Id>, i: nat, includeDisabled: bool)
    requires i < |ids| && forall id :: id in ids ==> id in c
    ensures ids[i] in c && (forall id :: id in ids[i..] + ids[i + 1..] ==> id in c)
    ensures ListCached(c, ids[i..], includeDisabled)
            == (if includeDisabled || c[ids[i]].enabled then [c[ids[i]]] else [])
              + ListCached(c, ids[i + 1..], includeDisabled)
  {
    assert ids[i] in ids;
    assert forall id :: id in ids[i..] ==> id in ids;
    assert forall id :: id in ids[i + 1..] ==> id in ids;
    assert ids[i..][0] == ids[i] && ids[i..][1..] == ids[i + 1..];
  }

  class PrinterSocketStore {
    const supported: set<int>
    const printerCache: PrinterCache
    var printerSocketAdaptersById: map<Id, WebsocketAdapter>
    /** Every adapter ever made, in order. */
    ghost var made: seq<WebsocketAdapter>

    ghost predicate Valid()
      reads this
    {
      && (forall i :: 0 <= i < |made| ==> made[i].number == i)
      && (forall id :: id in printerSocketAdaptersById ==>
            var a := printerSocketAdaptersById[id]; Knows(a))
    }

    ghost function State(): Sockets
      requires Valid()
      reads this, made
    {
      Sockets(supported, Numbers(printerSocketAdaptersById), States(made))
    }

    constructor (supported: set<int>, printerCache: PrinterCache)
      ensures Valid() && made == [] && this.printerCache == printerCache && State() == Sockets(supported, map[], [])
    {
      this.supported, this.printerCache := supported, printerCache;
      printerSocketAdaptersById, made := map[], [];
    }

    ghost predicate Knows(a: WebsocketAdapter)
      reads this
    {
      a.number < |made| && made[a.number] == a
    }

    method CloseSocket(a: WebsocketAdapter)
      requires Valid() && Knows(a)
      modifies a
      ensures Valid() && State() == Close(old(State()), a.number)
    {
      ghost var was := States(made);
      a.Close();
      assert States(made) == was[a.number := a.State()];
    }

    method BarSocket(a: WebsocketAdapter)
      requires Valid() && Knows(a)
      modifies a
      ensures Valid() && State() == Barred(old(State()), a.number)
    {
      ghost var was := States(made);
      a.DisallowEmittingEvents();
      assert States(made) == was[a.number := a.State()];
    }

    method RegisterSocket(a: WebsocketAdapter, printer: Printer)
      requires Valid() && Knows(a)
      modifies a
      ensures Valid() && State() == Register(old(State()), a.number, printer)
    {
      ghost var was := States(made);
      a.RegisterCredentials(printer.id, LoginOf(printer));
      assert States(made) == was[a.number := a.State()];
    }

    method MakeSocket(id: Id, printerType: int) returns (a: WebsocketAdapter?)
      requires Valid()
      modifies this
      ensures Valid() && (a == null <==> printerType !in supported)
      ensures a == null ==> State() == old(State()) && made == old(made)
      ensures a != null ==> fresh(a) && Knows(a) && a.number == |old(made)| && made == old(made) + [a]
      ensures a != null ==> id in printerSocketAdaptersById && printerSocketAdaptersById[id] == a
                            && State() == Make(old(State()), id, printerType)
    {
      ghost var was := State();
      a := CreateInstance(supported, printerType, |made|);
      if a != null {
        printerSocketAdaptersById := printerSocketAdaptersById[id := a];
        made := made + [a];
        assert States(made) == was.adapters + [MadeAdapter(printerType)];
        assert Numbers(printerSocketAdaptersById) == was.byId[id := a.number];
      }
    }

    method DeleteSocket(printerId: Id)
      requires Valid()
      modifies this, made
      ensures Valid() && made == old(made) && State() == PrinterEvents.DeleteSocket(old(State()), printerId)
    {
      if printerId in printerSocketAdaptersById {
        var socket := printerSocketAdaptersById[printerId];
        BarSocket(socket);
        CloseSocket(socket);
        printerSocketAdaptersById := printerSocketAdaptersById - {printerId};
        assert Numbers(printerSocketAdaptersById) == old(Numbers(printerSocketAdaptersById)) - {printerId};
      }
    }

    method CreateOrUpdateSocket(printer: Printer) returns (thrown: bool)
      requires Valid()
      modifies this, made
      ensures Valid() && old(made) <= made && (forall i :: |old(made)| <= i < |made| ==> fresh(made[i]))
      ensures State() == CreateOrUpdate(old(State()), printer)
      ensures thrown == Throws(old(State()), printer)
    {
      var id := printer.id;
      if !printer.enabled {
        DeleteSocket(id);
        return false;
      }
      var foundAdapter := PrepareSocket(printer);
      if foundAdapter == null { return true; }
      RegisterSocket(foundAdapter, printer);
      return false;
    }

    /** The adapter to register, or null if the factory throws. */
    method PrepareSocket(printer: Printer) returns (foundAdapter: WebsocketAdapter?)
      requires Valid() && printer.enabled
      modifies this, made
      ensures Valid() && old(made) <= made && (forall i :: |old(made)| <= i < |made| ==> fresh(made[i]))
      ensures State() == Prepared(old(State()), printer) && (foundAdapter == null <==> Throws(old(State()), printer))
      ensures foundAdapter != null ==> Knows(foundAdapter) && printer.id in printerSocketAdaptersById
                                       && printerSocketAdaptersById[printer.id] == foundAdapter
    {
      var id := printer.id;
      foundAdapter := null;
      if id in printerSocketAdaptersById {
        foundAdapter := printerSocketAdaptersById[id];
        CloseSocket(foundAdapter);
      }
      if foundAdapter == null || foundAdapter.printerType != printer.printerType {
        foundAdapter := MakeSocket(id, printer.printerType);
      }
    }

    method HandleBatchPrinterCreated(printers: seq<Printer>) returns (thrown: bool)
      requires Valid()
      modifies this, made
      ensures Valid() && State() == CreateBatch(old(State()), printers)
      ensures thrown == BatchThrows(old(State()), printers)
    {
      var i := 0;
      thrown := false;
      while i < |printers| && !thrown
        invariant 0 <= i <= |printers|
        invariant Valid() && old(made) <= made && forall k :: |old(made)| <= k < |made| ==> fresh(made[k])
        invariant CreateBatch(old(State()), printers) == if thrown then State() else CreateBatch(State(), printers[i..])
        invariant BatchThrows(old(State()), printers) == (thrown || BatchThrows(State(), printers[i..]))
      {
        assert printers[i..][1..] == printers[i + 1..];
        thrown := CreateOrUpdateSocket(printers[i]);
        i := i + 1;
      }
    }

    method HandlePrintersDeleted(printerIds: seq<Id>)
      requires Valid()
      modifies this, made
      ensures Valid() && State() == DeleteEach(old(State()), printerIds)
    {
      for i := 0 to |printerIds|
        invariant Valid() && made == old(made)
        invariant DeleteEach(State(), printerIds[i..]) == DeleteEach(old(State()), printerIds)
      {
        assert printerIds[i..][1..] == printerIds[i + 1..];
        DeleteSocket(printerIds[i]);
      }
    }

    /** The reconnect task opens the sockets of indexed adapters only. */
    method OpenSocket(printerId: Id)
      requires Valid()
      modifies made
      ensures Valid() && State() == Opened(old(State()), printerId)
    {
      if printerId in printerSocketAdaptersById {
        ghost var was := States(made);
        var a := printerSocketAdaptersById[printerId];
        a.Open();
        assert States(made) == was[a.number := a.State()];
      }
    }

    /** A printer whose adapter cannot be made is skipped. */
    method CreateSockets(printers: seq<Printer>)
      requires Valid()
      modifies this, made
      ensures Valid() && State() == CreateEach(old(State()), printers)
    {
      for i := 0 to |printers|
        invariant Valid() && old(made) <= made && forall k :: |old(made)| <= k < |made| ==> fresh(made[k])
        invariant CreateEach(State(), printers[i..]) == CreateEach(old(State()), printers)
      {
        assert printers[i..][1..] == printers[i + 1..];
        var _ := CreateOrUpdateSocket(printers[i]);
      }
    }

    /** The index is cleared first, without closing or barring the adapters in it. */
    method LoadPrinterSockets(rows: seq<Printer>)
      requires Valid()
      modifies this, made, printerCache
      ensures Valid() && printerCache.keyValueStore == SetEach(old(printerCache.keyValueStore), rows)
      ensures State() == CreateEach(old(State()).(byId := map[]), EnabledPrinters(printerCache.keyValueStore))
    {
      printerCache.SetKeyValuesBatch(rows);
      var printers := printerCache.ListCachedPrinters(false);
      printerSocketAdaptersById := map[];
      assert States(made) == old(States(made));
      CreateSockets(printers);
    }
  }

  /** The socket factory throws on a type it does not support. */
  method CreateInstance(supported: set<int>, printerType: int, ghost number: nat) returns (a: WebsocketAdapter?)
    ensures a == null <==> printerType !in supported
    ensures a != null ==> fresh(a) && a.number == number && a.State() == MadeAdapter(printerType)
  {
    if printerType !in supported { return null; }
    a := new WebsocketAdapter(printerType, number);
  }

  ghost function Numbers(byId: map<Id, WebsocketAdapter>): map<Id, nat> {
    map id | id in byId :: byId[id].number
  }

  ghost function States(adapters: seq<WebsocketAdapter>): (s: seq<Adapter>)
    reads adapters
    ensures |s| == |adapters| && forall i :: 0 <= i < |s| ==> s[i] == adapters[i].State()
  {
    seq(|adapters|, i requires 0 <= i < |adapters| reads adapters => adapters[i].State())
  }

  /** The event emitter with its three listeners, in the order in which they subscribe. */
  class EventEmitter {
    const printerCache: PrinterCache
    const socketStore: PrinterSocketStore
    const eventsCache: PrinterEventsCache

    ghost predicate Valid()
      reads socketStore
    {
      socketStore.Valid() && socketStore.printerCache == printerCache
    }

    ghost function State(): Fleet
      requires Valid()
      reads printerCache, socketStore, socketStore.made, eventsCache
    {
      Fleet(printerCache.keyValueStore, socketStore.State(), eventsCache.keyValueStore)
    }

    constructor (supported: set<int>)
      ensures Valid() && State() == Initial(supported)
    {
      var cache := new PrinterCache();
      var store := new PrinterSocketStore(supported, cache);
      var events := new PrinterEventsCache();
      printerCache, socketStore, eventsCache := cache, store, events;
    }

    /** What a listener throws leaves emit, after the cache has taken the printer. */
    method PrinterCreated(printer: Printer) returns (thrown: bool)
      requires Valid()
      modifies printerCache, socketStore, socketStore.made
      ensures Valid() && State() == Apply(old(State()), Created(printer))
      ensures thrown == Throws(old(State()).sockets, printer)
    {
      printerCache.HandlePrinterCreatedOrUpdated(printer);
      thrown := socketStore.CreateOrUpdateSocket(printer);
    }

    method PrinterUpdated(printer: Printer) returns (thrown: bool)
      requires Valid()
      modifies printerCache, socketStore, socketStore.made
      ensures Valid() && State() == Apply(old(State()), Updated(printer))
      ensures thrown == Throws(old(State()).sockets, printer)
    {
      printerCache.HandlePrinterCreatedOrUpdated(printer);
      thrown := socketStore.CreateOrUpdateSocket(printer);
    }

    method BatchPrinterCreated(printers: seq<Printer>) returns (thrown: bool)
      requires Valid()
      modifies printerCache, socketStore, socketStore.made
      ensures Valid() && State() == Apply(old(State()), CreatedBatch(printers))
      ensures thrown == BatchThrows(old(State()).sockets, printers)
    {
      printerCache.SetKeyValuesBatch(printers);
      thrown := socketStore.HandleBatchPrinterCreated(printers);
    }

    method PrintersDeleted(printerIds: seq<Id>)
      requires Valid()
      modifies printerCache, socketStore, socketStore.made, eventsCache
      ensures Valid() && State() == Apply(old(State()), Deleted(printerIds))
    {
      printerCache.HandlePrintersDeleted(printerIds);
      socketStore.HandlePrintersDeleted(printerIds);
      eventsCache.HandlePrintersDeleted(printerIds);
    }

    method LoadPrinterSockets(rows: seq<Printer>)
      requires Valid()
      modifies printerCache, socketStore, socketStore.made
      ensures Valid() && State() == Apply(old(State()), Reload(rows))
    {
      socketStore.LoadPrinterSockets(rows);
    }

    method OpenSocket(printerId: Id)
      requires Valid()
      modifies socketStore.made
      ensures Valid() && State() == Apply(old(State()), Open(printerId))
    {
      socketStore.OpenSocket(printerId);
    }

    /** A message arrives at any adapter ever made, indexed or not. */
    method MessageAt(a: WebsocketAdapter, m: Message, now: int)
      requires Valid() && socketStore.Knows(a)
      modifies eventsCache
      ensures Valid() && State() == Apply(old(State()), Emit(a.number, m, now))
    {
      a.EmitEvent(eventsCache, m, now);
    }
  }
}
