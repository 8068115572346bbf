/** What the events cache remembers of the messages of an OctoPrint printer. */
module PrinterMessages {
  import opened Common
  import opened PrinterEvents

  lemma {:induction false} CopyKeysAt(target: Payload, source: Payload, keys: seq<string>, key: string)
    ensures Field(CopyKeys(target, source, keys), key) == if key in keys then Field(source, key) else Field(target, key)
    decreases |keys|
  {
    if keys != [] {
      CopyKeysAt(target[keys[0] := Field(source, keys[0])], source, keys[1..], key);
    }
  }

  function Remembered(all: map<Id, Events>, id: Id, key: string): Value {
    Field(PartialPayload(OrCreated(all, id)), key)
  }

  predicate HasTemps(payload: Payload) {
    var temps := Field(payload, "temps");
    temps.List? && temps.items != []
  }

  const PRINT_KEYS := ["state", "job", "progress", "currentZ", "offsets", "resends"]

  lemma ReceivedCurrent(all: map<Id, Events>, id: Id, payload: Payload, now: int, key: string)
    ensures Remembered(Received(all, OCTOPRINT, id, Message(Current, payload), now), id, key)
            == if key in PRINT_KEYS || (key == "temps" && HasTemps(payload)) then Field(payload, key)
              else Remembered(all, id, key)
  {
    assert KeysToUpdate(payload) == PRINT_KEYS + (if HasTemps(payload) then ["temps"] else []);
    CopyKeysAt(PartialPayload(OrCreated(all, id)), payload, KeysToUpdate(payload), key);
  }

  // ---------- over whole runs ----------

  /** What reaches the current record of one printer: a message of an OctoPrint adapter, which is copied key by
      key, one of any other adapter, which replaces it, or the deletion of the printer. */
  datatype Delivery = Patch(payload: Payload) | Overwrite(payload: Payload) | Reset

  function DeliveryOf(f: Fleet, step: Step, id: Id): seq<Delivery>
    requires InRange(f.sockets)
  {
    match step
    case Deleted(ids) => if id in ids then [Reset] else []
    case Emit(n, m, now) =>
      if !MayEmit(f.sockets, n) || f.sockets.adapters[n].printerId != Some(id) || m.topic != Current then []
      else if f.sockets.adapters[n].printerType == OCTOPRINT then [Patch(m.payload)] else [Overwrite(m.payload)]
    case _ => []
  }

  /** The deliveries of a run, oldest first, whatever else happens in between. */
  function Deliveries(f: Fleet, steps: seq<Step>, id: Id): seq<Delivery>
    requires InRange(f.sockets)
    decreases |steps|
  {
    if steps == [] then [] else DeliveryOf(f, steps[0], id) + Deliveries(Apply(f, steps[0]), steps[1..], id)
  }

  function Delivered(value: Value, d: Delivery, key: string): Value {
    match d
    case Patch(payload) => if key in PRINT_KEYS || (key == "temps" && HasTemps(payload)) then Field(payload, key)
      else value
    case Overwrite(payload) => Field(payload, key)
    case Reset => Undefined
  }

  function AllDelivered(value: Value, ds: seq<Delivery>, key: string): Value {
    if ds == [] then value else Delivered(AllDelivered(value, ds[..|ds| - 1], key), ds[|ds| - 1], key)
  }

  lemma {:induction false} DeliveredInTurn(value: Value, ds: seq<Delivery>, es: seq<Delivery>, key: string)
    ensures AllDelivered(value, ds + es, key) == AllDelivered(AllDelivered(value, ds, key), es, key)
  {
    if es == [] {
      assert ds + es == ds;
    } else {
      var n := |es| - 1;
      DeliveredInTurn(value, ds, es[..n], key);
      assert (ds + es)[..|ds| + n] == ds + es[..n];
    }
  }

  lemma StepDelivers(f: Fleet, step: Step, id: Id, key: string)
    requires InRange(f.sockets)
    ensures Remembered(Apply(f, step).events, id, key)
            == AllDelivered(Remembered(f.events, id, key), DeliveryOf(f, step, id), key)
  {
    if step.Emit? && MayEmit(f.sockets, step.adapter) {
      var a := f.sockets.adapters[step.adapter];
      EmitDelivers(f.events, a, id, step.message, step.now, key);
    }
  }

  lemma EmitDelivers(all: map<Id, Events>, a: Adapter, id: Id, m: Message, now: int, key: string)
    requires a.printerId.Some?
    ensures Remembered(Received(all, a.printerType, a.printerId.value, m, now), id, key)
            == if a.printerId != Some(id) || m.topic != Current then Remembered(all, id, key)
               else if a.printerType == OCTOPRINT then Delivered(Remembered(all, id, key), Patch(m.payload), key)
               else Field(m.payload, key)
  {
    if a.printerId == Some(id) && m.topic == Current && a.printerType == OCTOPRINT {
      ReceivedCurrent(all, id, m.payload, now, key);
      assert m == Message(Current, m.payload);
    }
  }

  /** What is remembered of a printer depends on its own deliveries alone. */
  lemma {:induction false} RunDelivers(f: Fleet, steps: seq<Step>, id: Id, key: string)
    requires InRange(f.sockets)
    ensures Remembered(Run(f, steps).events, id, key)
            == AllDelivered(Remembered(f.events, id, key), Deliveries(f, steps, id), key)
    decreases |steps|
  {
    if steps != [] {
      StepDelivers(f, steps[0], id, key);
      RunDelivers(Apply(f, steps[0]), steps[1..], id, key);
      DeliveredInTurn(Remembered(f.events, id, key), DeliveryOf(f, steps[0], id),
                      Deliveries(Apply(f, steps[0]), steps[1..], id), key);
    }
  }

  /** In every run whose last delivery is an OctoPrint message, the print keys are those of that message, missing
      ones included. */
  lemma PrintKeysAreLast(f: Fleet, steps: seq<Step>, id: Id, key: string)
    requires InRange(f.sockets) && key in PRINT_KEYS
    requires var ds := Deliveries(f, steps, id); ds != [] && ds[|ds| - 1].Patch?
    ensures var ds := Deliveries(f, steps, id);
            Remembered(Run(f, steps).events, id, key) == Field(ds[|ds| - 1].payload, key)
  {
    RunDelivers(f, steps, id, key);
  }

  /** Delivery i is the last one that can have set the temperatures. */
  ghost predicate LastTemps(ds: seq<Delivery>, i: nat) {
    && i < |ds| && (ds[i].Patch? ==> HasTemps(ds[i].payload))
    && forall j :: i < j < |ds| ==> ds[j].Patch? && !HasTemps(ds[j].payload)
  }

  lemma {:induction false} TempsKept(value: Value, ds: seq<Delivery>, i: nat)
    requires LastTemps(ds, i)
    ensures AllDelivered(value, ds, "temps") == if ds[i].Reset? then Undefined else Field(ds[i].payload, "temps")
    decreases |ds|
  {
    var n := |ds| - 1;
    assert "temps" !in PRINT_KEYS;
    if i < n { TempsKept(value, ds[..n], i); }
  }

  /** Temperatures outlive the OctoPrint messages without any, but not a deletion. */
  lemma TempsAreLastSent(f: Fleet, steps: seq<Step>, id: Id, i: nat)
    requires InRange(f.sockets) && LastTemps(Deliveries(f, steps, id), i)
    ensures var d := Deliveries(f, steps, id)[i];
            Remembered(Run(f, steps).events, id, "temps") == if d.Reset? then Undefined else Field(d.payload, "temps")
  {
    RunDelivers(f, steps, id, "temps");
    TempsKept(Remembered(f.events, id, "temps"), Deliveries(f, steps, id), i);
  }

  lemma {:induction false} OtherKeyKept(value: Value, ds: seq<Delivery>, key: string)
    requires key !in PRINT_KEYS && key != "temps" && forall i :: 0 <= i < |ds| ==> ds[i].Patch?
    ensures AllDelivered(value, ds, key) == value
  {
    if ds != [] { OtherKeyKept(value, ds[..|ds| - 1], key); }
  }

  /** OctoPrint messages store no other key. */
  lemma NothingElseRemembered(f: Fleet, steps: seq<Step>, id: Id, key: string)
    requires InRange(f.sockets) && key !in PRINT_KEYS && key != "temps"
    requires forall i :: 0 <= i < |Deliveries(f, steps, id)| ==> Deliveries(f, steps, id)[i].Patch?
    ensures Remembered(Run(f, steps).events, id, key) == Remembered(f.events, id, key)
  {
    RunDelivers(f, steps, id, key);
    OtherKeyKept(Remembered(f.events, id, key), Deliveries(f, steps, id), key);
  }

  /** The step deletes the printer or is a message of an adapter of it. */
  predicate Concerns(f: Fleet, step: Step, id: Id) {
    match step
    case Deleted(ids) => id in ids
    case Emit(n, m, now) => MayEmit(f.sockets, n) && f.sockets.adapters[n].printerId == Some(id)
    case _ => false
  }

  ghost predicate NeverConcerns(f: Fleet, steps: seq<Step>, id: Id)
    requires InRange(f.sockets)
    decreases |steps|
  {
    steps == [] || (!Concerns(f, steps[0], id) && NeverConcerns(Apply(f, steps[0]), steps[1..], id))
  }

  /** Nothing that happens to other printers touches the record of this one. */
  lemma {:induction false} OthersUntouched(f: Fleet, steps: seq<Step>, id: Id)
    requires InRange(f.sockets) && NeverConcerns(f, steps, id)
    ensures id in Run(f, steps).events <==> id in f.events
    ensures id in f.events ==> Run(f, steps).events[id] == f.events[id]
    decreases |steps|
  {
    if steps != [] { OthersUntouched(Apply(f, steps[0]), steps[1..], id); }
  }
}
