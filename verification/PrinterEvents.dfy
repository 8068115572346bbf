/** Printer events and the three tables that follow them: the printer cache, the index of websocket adapters
    and the cache of the last events per printer. Adapters are numbered in the order they are made. */
module PrinterEvents {
  import opened Common

  datatype Printer = Printer(id: Id, name: string, enabled: bool, printerType: int, printerURL: string,
                             apiKey: string, username: string, password: string)

  datatype LoginDto = LoginDto(apiKey: string, username: string, password: string, printerURL: string, printerType: int)

  function LoginOf(p: Printer): LoginDto {
    LoginDto(p.apiKey, p.username, p.password, p.printerURL, p.printerType)
  }

  const OCTOPRINT := 0
  const MOONRAKER := 1

  datatype Adapter = Adapter(printerType: int, printerId: Option<Id>, login: Option<LoginDto>,
                             emittingAllowed: bool, socketOpen: bool)

  function MadeAdapter(printerType: int): Adapter {
    Adapter(printerType, None, None, true, false)
  }

  /** `supported` are the printer types the socket factory can make; `adapters` are all adapters ever made,
      whether or not they are still in the index. */
  datatype Sockets = Sockets(supported: set<int>, byId: map<Id, nat>, adapters: seq<Adapter>)

  ghost predicate InRange(s: Sockets) {
    forall id :: id in s.byId ==> s.byId[id] < |s.adapters|
  }

  function Close(s: Sockets, n: nat): Sockets
    requires n < |s.adapters|
  {
    s.(adapters := s.adapters[n := s.adapters[n].(socketOpen := false)])
  }

  function Barred(s: Sockets, n: nat): Sockets
    requires n < |s.adapters|
  {
    s.(adapters := s.adapters[n := s.adapters[n].(emittingAllowed := false)])
  }

  function Register(s: Sockets, n: nat, p: Printer): Sockets
    requires n < |s.adapters|
  {
    s.(adapters := s.adapters[n := s.adapters[n].(printerId := Some(p.id), login := Some(LoginOf(p)))])
  }

  function Make(s: Sockets, id: Id, printerType: int): Sockets {
    s.(byId := s.byId[id := |s.adapters|], adapters := s.adapters + [MadeAdapter(printerType)])
  }

  /** Emission is barred before the adapter is closed and dropped. */
  function DeleteSocket(s: Sockets, id: Id): (r: Sockets)
    requires InRange(s)
    ensures InRange(r)
  {
    if id !in s.byId then s else
      Close(Barred(s, s.byId[id]), s.byId[id]).(byId := s.byId - {id})
  }

  predicate SameType(s: Sockets, p: Printer)
    requires InRange(s)
  {
    p.id in s.byId && s.adapters[s.byId[p.id]].printerType == p.printerType
  }

  /** The factory refuses the printer's type, and an adapter would have to be made. */
  predicate Throws(s: Sockets, p: Printer)
    requires InRange(s)
  {
    p.enabled && !SameType(s, p) && p.printerType !in s.supported
  }

  /** The adapter of an enabled printer is closed, and replaced if its type has changed; the replaced one may
      still emit. */
  function Prepared(s: Sockets, p: Printer): (r: Sockets)
    requires InRange(s)
    ensures InRange(r)
  {
    var closed := if p.id in s.byId then Close(s, s.byId[p.id]) else s;
    if SameType(s, p) || p.printerType !in s.supported then closed else Make(closed, p.id, p.printerType)
  }

  /** createOrUpdateSocket. */
  function CreateOrUpdate(s: Sockets, p: Printer): (r: Sockets)
    requires InRange(s)
    ensures InRange(r)
  {
    if !p.enabled then DeleteSocket(s, p.id)
    else if Throws(s, p) then Prepared(s, p)
    else Register(Prepared(s, p), Prepared(s, p).byId[p.id], p)
  }

  /** A batch stops at the first printer that throws; reloading goes on with the next one. */
  function CreateBatch(s: Sockets, ps: seq<Printer>): (r: Sockets)
    requires InRange(s)
    ensures InRange(r)
    decreases |ps|
  {
    if ps == [] then s
    else if Throws(s, ps[0]) then CreateOrUpdate(s, ps[0])
    else CreateBatch(CreateOrUpdate(s, ps[0]), ps[1..])
  }

  /** An exception ends the batch and reaches the caller of emit. */
  predicate BatchThrows(s: Sockets, ps: seq<Printer>)
    requires InRange(s)
    decreases |ps|
  {
    ps != [] && (Throws(s, ps[0]) || BatchThrows(CreateOrUpdate(s, ps[0]), ps[1..]))
  }

  function CreateEach(s: Sockets, ps: seq<Printer>): (r: Sockets)
    requires InRange(s)
    ensures InRange(r)
    decreases |ps|
  {
    if ps == [] then s else CreateEach(CreateOrUpdate(s, ps[0]), ps[1..])
  }

  function DeleteEach(s: Sockets, ids: seq<Id>): (r: Sockets)
    requires InRange(s)
    ensures InRange(r)
    decreases |ids|
  {
    if ids == [] then s else DeleteEach(DeleteSocket(s, ids[0]), ids[1..])
  }

  // ---------- the printer cache ----------

  type Printers = c: map<Id, Printer> | forall id :: id in c ==> c[id].id == id witness map[]

  function SetEach(c: Printers, ps: seq<Printer>): Printers
    decreases |ps|
  {
    if ps == [] then c else SetEach(c[ps[0].id := ps[0]], ps[1..])
  }

  function ListCached(c: Printers, ids: seq<Id>, includeDisabled: bool): (ps: seq<Printer>)
    requires forall id :: id in ids ==> id in c
    ensures forall i :: 0 <= i < |ps| ==> ps[i].id in c && ps[i] == c[ps[i].id] && ps[i].id in ids
    ensures forall id :: id in ids && (includeDisabled || c[id].enabled) ==> c[id] in ps
    decreases |ids|
  {
    if ids == [] then [] else
      assert ids[0] in ids;
      assert forall id :: id in ids[1..] ==> id in ids;
      var rest := ListCached(c, ids[1..], includeDisabled);
      if includeDisabled || c[ids[0]].enabled then [c[ids[0]]] + rest else rest
  }

  /** The enabled printers of the cache. */
  function EnabledPrinters(c: Printers): seq<Printer> {
    ListCached(c, SortBy(c.Keys, Ascending()), false)
  }

  // ---------- the events cache ----------

  datatype Value = Undefined | Scalar(int) | List(items: seq<int>)

  type Payload = map<string, Value>

  function Field(payload: Payload, key: string): Value {
    if key in payload then payload[key] else Undefined
  }

  datatype Topic = Current | StatusUpdate | Other

  datatype Stored = Stored(payload: Payload, receivedAt: int)

  /** Only these two of the record are ever set. */
  datatype Events = Events(current: Option<Stored>, statusUpdate: Option<Stored>)

  const NO_EVENTS := Events(None, None)

  datatype Message = Message(topic: Topic, payload: Payload)

  function KeysToUpdate(payload: Payload): seq<string> {
    var temps := Field(payload, "temps");
    ["state", "job", "progress", "currentZ", "offsets", "resends"]
    + (if temps.List? && temps.items != [] then ["temps"] else [])
  }

  function CopyKeys(target: Payload, source: Payload, keys: seq<string>): Payload
    decreases |keys|
  {
    if keys == [] then target else CopyKeys(target[keys[0] := Field(source, keys[0])], source, keys[1..])
  }

  function OrCreated(all: map<Id, Events>, id: Id): Events {
    if id in all then all[id] else NO_EVENTS
  }

  function SetTopic(e: Events, topic: Topic, stored: Stored): Events
    requires topic != Other
  {
    if topic == Current then e.(current := Some(stored)) else e.(statusUpdate := Some(stored))
  }

  function PartialPayload(e: Events): Payload {
    if e.current.Some? then e.current.value.payload else map[]
  }

  /** What the listeners make of a message, by the type of the adapter that emits it. */
  function Received(all: map<Id, Events>, printerType: int, id: Id, m: Message, now: int): map<Id, Events> {
    var e := OrCreated(all, id);
    if m.topic == Other || (m.topic == StatusUpdate && printerType != MOONRAKER) then all
    else if printerType == OCTOPRINT then
      all[id := SetTopic(e, Current, Stored(CopyKeys(PartialPayload(e), m.payload, KeysToUpdate(m.payload)), now))]
    else all[id := SetTopic(e, m.topic, Stored(m.payload, now))]
  }

  // ---------- runs ----------

  datatype Fleet = Fleet(cache: Printers, sockets: Sockets, events: map<Id, Events>)

  datatype Step =
    | Created(printer: Printer)
    | CreatedBatch(printers: seq<Printer>)
    | Updated(printer: Printer)
    | Deleted(ids: seq<Id>)
    | Reload(rows: seq<Printer>)
    | Open(id: Id)
    | Emit(adapter: nat, message: Message, now: int)

  function Without(all: map<Id, Events>, ids: seq<Id>): map<Id, Events> {
    map id | id in all && id !in ids :: all[id]
  }

  function WithoutPrinters(c: Printers, ids: seq<Id>): Printers {
    map id | id in c && id !in ids :: c[id]
  }

  function Opened(s: Sockets, id: Id): Sockets
    requires InRange(s)
  {
    if id !in s.byId then s else
      var n := s.byId[id];
      s.(adapters := s.adapters[n := s.adapters[n].(socketOpen := true)])
  }

  /** The gate of emitEvent and emitEventSync; an adapter has an id once it is registered. */
  predicate MayEmit(s: Sockets, n: nat) {
    n < |s.adapters| && s.adapters[n].emittingAllowed && s.adapters[n].printerId.Some?
  }

  function Reloaded(f: Fleet, rows: seq<Printer>): Fleet {
    var cache := SetEach(f.cache, rows);
    f.(cache := cache, sockets := CreateEach(f.sockets.(byId := map[]), EnabledPrinters(cache)))
  }

  function Apply(f: Fleet, step: Step): (g: Fleet)
    requires InRange(f.sockets)
    ensures InRange(g.sockets)
  {
    match step
    case Created(p) => f.(cache := f.cache[p.id := p], sockets := CreateOrUpdate(f.sockets, p))
    case Updated(p) => f.(cache := f.cache[p.id := p], sockets := CreateOrUpdate(f.sockets, p))
    case CreatedBatch(ps) => f.(cache := SetEach(f.cache, ps), sockets := CreateBatch(f.sockets, ps))
    case Deleted(ids) =>
      Fleet(WithoutPrinters(f.cache, ids), DeleteEach(f.sockets, ids), Without(f.events, ids))
    case Reload(rows) => Reloaded(f, rows)
    case Open(id) => f.(sockets := Opened(f.sockets, id))
    case Emit(n, m, now) =>
      if MayEmit(f.sockets, n) then
        var a := f.sockets.adapters[n];
        f.(events := Received(f.events, a.printerType, a.printerId.value, m, now))
      else f
  }

  function Run(f: Fleet, steps: seq<Step>): (g: Fleet)
    requires InRange(f.sockets)
    ensures InRange(g.sockets)
    decreases |steps|
  {
    if steps == [] then f else Run(Apply(f, steps[0]), steps[1..])
  }

  function Initial(supported: set<int>): Fleet {
    Fleet(map[], Sockets(supported, map[], []), map[])
  }
}
