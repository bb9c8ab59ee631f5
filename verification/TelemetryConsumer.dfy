/**
 The telemetry consumer: it processes each event id once, updates the device's health
 and publishes what the reading calls for.  Events may be delivered again and again.
 */
module TelemetryConsumer {
  import opened Wrappers
  import opened Simulator

  /** A payload with a field missing or of the wrong type cannot be evaluated. */
  datatype Payload = Malformed | Reading(telemetry: Telemetry)

  datatype Event = Event(eventId: string, deviceId: string, timestamp: int, payload: Payload)

  datatype Severity = WarningAlert | CriticalAlert

  datatype Published =
    | HealthUpdated(deviceId: string, status: DeviceStatus, healthScore: real, timestamp: int)
    | AlertGenerated(deviceId: string, severity: Severity, code: string, timestamp: int)
    | IncidentCreated(deviceId: string, severity: Severity, code: string, timestamp: int)

  /** The exceptions that may escape from process. */
  datatype Failure = DeviceNotFound | MalformedPayload

  type Devices = map<string, DeviceState>

  datatype ConsumerState = ConsumerState(processed: set<string>, devices: Devices, bus: seq<Published>)

  class DeviceRegistry {
    const devices: map<string, SimulatedDevice>

    /** No device object is filed under two ids. */
    ghost predicate Valid() {
      forall a, b :: a in devices && b in devices && a != b ==> devices[a] != devices[b]
    }

    ghost function States(): Devices
      reads devices.Values
    {
      map id | id in devices :: devices[id].State()
    }

    constructor (objects: map<string, SimulatedDevice>)
      ensures devices == objects
    {
      devices := objects;
    }

    /** Returns false where the source raises DeviceNotFoundError. */
    method UpdateHealth(deviceId: string, status: DeviceStatus, healthScore: real, now: int) returns (found: bool)
      requires Valid()
      modifies devices.Values
      ensures found == (deviceId in devices)
      ensures States() == Reported(old(States()), deviceId, status, healthScore, now)
    {
      if deviceId !in devices {
        return false;
      }
      devices[deviceId].UpdateHealth(status, healthScore, now);
      assert forall id :: id in devices && id != deviceId ==> devices[id].State() == old(devices[id].State());
      return true;
    }
  }

  function Reported(devices: Devices, deviceId: string, status: DeviceStatus, healthScore: real, now: int): Devices {
    if deviceId in devices then devices[deviceId := Apply(devices[deviceId], Report(status, healthScore, now))]
      else devices
  }

  class EventBus {
    var published: seq<Published>

    constructor ()
      ensures published == []
    {
      published := [];
    }

    method Publish(p: Published)
      modifies this
      ensures published == old(published) + [p]
    {
      published := published + [p];
    }
  }

  /** What one reading is worth: a health event always, an alert unless healthy, an incident if critical. */
  function Emissions(e: Event): (r: seq<Published>)
    requires e.payload.Reading?
    ensures r != []
  {
    var (status, score) := EvaluateHealth(e.payload.telemetry);
    var code := AlertCode(e.payload.telemetry);
    var health := HealthUpdated(e.deviceId, status, score, e.timestamp);
    if status == Healthy then [health]
    else if status == Critical then
      [health, AlertGenerated(e.deviceId, CriticalAlert, code, e.timestamp),
       IncidentCreated(e.deviceId, CriticalAlert, code, e.timestamp)]
    else [health, AlertGenerated(e.deviceId, WarningAlert, code, e.timestamp)]
  }

  /**
   A health event first, with what the device now holds; an alert unless it is healthy, of
   critical severity if it is critical, with what the reading is to blame for; and an
   incident that repeats a critical alert.
   */
  ghost predicate Announces(e: Event, published: seq<Published>, status: DeviceStatus, score: real)
    requires e.payload.Reading?
  {
    && |published| == (if status == Healthy then 1 else if status == Critical then 3 else 2)
    && published[0] == HealthUpdated(e.deviceId, status, score, e.timestamp)
    && (status != Healthy ==>
          && published[1].AlertGenerated? && Blames(e.payload.telemetry, published[1].code)
          && published[1] == AlertGenerated(e.deviceId,
               if status == Critical then CriticalAlert else WarningAlert, published[1].code, e.timestamp))
    && (status == Critical ==>
          published[2] == IncidentCreated(e.deviceId, published[1].severity, published[1].code, e.timestamp))
  }

  lemma EmissionsAnnounce(e: Event)
    requires e.payload.Reading?
    ensures var (status, score) := EvaluateHealth(e.payload.telemetry);
      Announces(e, Emissions(e), status, score) && MeansHealth(e.payload.telemetry, status, score)
  {
    ReadingMeans(e.payload.telemetry);
  }

  /** The event can be evaluated and its device is known. */
  predicate Handled(devices: set<string>, e: Event) {
    e.payload.Reading? && e.deviceId in devices
  }

  ghost function ProcessState(cs: ConsumerState, e: Event): ConsumerState {
    if e.eventId in cs.processed then cs
    else if !Handled(cs.devices.Keys, e) then cs.(processed := cs.processed + {e.eventId})
    else
      var (status, score) := EvaluateHealth(e.payload.telemetry);
      ConsumerState(
        cs.processed + {e.eventId},
        Reported(cs.devices, e.deviceId, status, score, e.timestamp),
        cs.bus + Emissions(e))
  }

  ghost function ProcessResult(cs: ConsumerState, e: Event): Result<seq<Published>, Failure> {
    if e.eventId in cs.processed then Ok([])
    else if e.payload.Malformed? then Err(MalformedPayload)
    else if e.deviceId !in cs.devices then Err(DeviceNotFound)
    else Ok(Emissions(e))
  }

  /** What is published of a handled event goes by the health its device then holds; no other device changes. */
  ghost predicate Updates(cs: ConsumerState, cs': ConsumerState, e: Event, published: seq<Published>)
    requires e.payload.Reading? && e.deviceId in cs.devices
  {
    && cs'.bus == cs.bus + published && cs'.devices.Keys == cs.devices.Keys
    && (forall id :: id in cs.devices && id != e.deviceId ==> cs'.devices[id] == cs.devices[id])
    && var d, d' := cs.devices[e.deviceId], cs'.devices[e.deviceId];
      && d' == d.(status := d'.status, healthScore := d'.healthScore, lastSeen := e.timestamp)
      && MeansHealth(e.payload.telemetry, d'.status, d'.healthScore)
      && Announces(e, published, d'.status, d'.healthScore)
  }

  /** One delivery: a repeat does nothing; a first one is remembered, and handled if it can be. */
  ghost predicate Delivers(cs: ConsumerState, cs': ConsumerState, e: Event, r: Result<seq<Published>, Failure>) {
    if e.eventId in cs.processed then cs' == cs && r == Ok([])
    else
      && cs'.processed == cs.processed + {e.eventId}
      && if e.payload.Malformed? then r == Err(MalformedPayload) && cs'.devices == cs.devices && cs'.bus == cs.bus
         else if e.deviceId !in cs.devices then
           r == Err(DeviceNotFound) && cs'.devices == cs.devices && cs'.bus == cs.bus
         else r.Ok? && Updates(cs, cs', e, r.value)
  }

  lemma ProcessDelivers(cs: ConsumerState, e: Event)
    ensures Delivers(cs, ProcessState(cs, e), e, ProcessResult(cs, e))
  {
    if e.payload.Reading? {
      EmissionsAnnounce(e);
    }
  }

  class Consumer {
    const registry: DeviceRegistry
    const bus: EventBus
    var processed: set<string>

    ghost function State(): ConsumerState
      reads this, bus, registry.devices.Values
    {
      ConsumerState(processed, registry.States(), bus.published)
    }

    constructor (registry: DeviceRegistry, bus: EventBus)
      ensures this.registry == registry && this.bus == bus && processed == {}
    {
      this.registry, this.bus, processed := registry, bus, {};
    }

    method Process(e: Event) returns (r: Result<seq<Published>, Failure>)
      requires registry.Valid()
      modifies this, bus, registry.devices.Values
      ensures State() == ProcessState(old(State()), e)
      ensures r == ProcessResult(old(State()), e)
      ensures Delivers(old(State()), State(), e, r)
    {
      ProcessDelivers(State(), e);
      if e.eventId in processed {
        return Ok([]);
      }
      processed := processed + {e.eventId};
      if e.payload.Malformed? {
        return Err(MalformedPayload);
      }
      var (status, healthScore) := EvaluateHealth(e.payload.telemetry);
      var found := registry.UpdateHealth(e.deviceId, status, healthScore, e.timestamp);
      if !found {
        return Err(DeviceNotFound);
      }
      var published := PublishReading(e, status, healthScore);
      return Ok(published);
    }

    /** Publish the health event, then the alert and the incident the reading calls for. */
    method PublishReading(e: Event, status: DeviceStatus, healthScore: real) returns (published: seq<Published>)
      requires e.payload.Reading? && (status, healthScore) == EvaluateHealth(e.payload.telemetry)
      modifies bus
      ensures published == Emissions(e) && bus.published == old(bus.published) + Emissions(e)
      ensures Announces(e, published, status, healthScore)
    {
      EmissionsAnnounce(e);
      var health := HealthUpdated(e.deviceId, status, healthScore, e.timestamp);
      bus.Publish(health);
      published := [health];
      if status != Healthy {
        var severity := if status == Critical then CriticalAlert else WarningAlert;
        var alert := AlertGenerated(e.deviceId, severity, AlertCode(e.payload.telemetry), e.timestamp);
        bus.Publish(alert);
        published := published + [alert];
        if severity == CriticalAlert {
          var incident := IncidentCreated(e.deviceId, severity, AlertCode(e.payload.telemetry), e.timestamp);
          bus.Publish(incident);
          published := published + [incident];
        }
      }
    }
  }

  // ---- streams with repeats

  ghost function Consume(cs: ConsumerState, events: seq<Event>): ConsumerState {
    if |events| == 0 then cs else ProcessState(Consume(cs, events[..|events| - 1]), events[|events| - 1])
  }

  ghost predicate Seen(events: seq<Event>, eventId: string) {
    exists i :: 0 <= i < |events| && events[i].eventId == eventId
  }

  /** The stream with every later delivery of an id removed. */
  ghost function FirstDeliveries(events: seq<Event>): seq<Event> {
    if |events| == 0 then []
    else
      var front, e := events[..|events| - 1], events[|events| - 1];
      if Seen(front, e.eventId) then FirstDeliveries(front) else FirstDeliveries(front) + [e]
  }

  lemma {:induction false} ProcessedAreSeen(cs: ConsumerState, events: seq<Event>)
    requires cs.processed == {}
    ensures forall id :: id in Consume(cs, events).processed <==> Seen(events, id)
    ensures Consume(cs, events).devices.Keys == cs.devices.Keys
  {
    if |events| > 0 {
      var front, e := events[..|events| - 1], events[|events| - 1];
      ProcessedAreSeen(cs, front);
      forall id
        ensures id in Consume(cs, events).processed <==> Seen(events, id)
      {
        if Seen(front, id) {
          var i :| 0 <= i < |front| && front[i].eventId == id;
          assert events[i].eventId == id;
        }
        if Seen(events, id) {
          var i :| 0 <= i < |events| && events[i].eventId == id;
          if i < |front| {
            assert front[i].eventId == id;
          }
        }
        assert events[|events| - 1].eventId == e.eventId;
      }
    }
  }

  /** Repeats leave no trace: the stream and its first deliveries end in the same state, bus included. */
  lemma {:induction false} RepeatsChangeNothing(cs: ConsumerState, events: seq<Event>)
    requires cs.processed == {}
    ensures Consume(cs, events) == Consume(cs, FirstDeliveries(events))
  {
    if |events| > 0 {
      var front := events[..|events| - 1];
      RepeatsChangeNothing(cs, front);
      ProcessedAreSeen(cs, front);
      var first := FirstDeliveries(events);
      if !Seen(front, events[|events| - 1].eventId) {
        assert first[..|first| - 1] == FirstDeliveries(front);
      }
    }
  }

  ghost function AllEmissions(devices: set<string>, events: seq<Event>): seq<Published> {
    if |events| == 0 then []
    else
      var front, e := AllEmissions(devices, events[..|events| - 1]), events[|events| - 1];
      if Handled(devices, e) then front + Emissions(e) else front
  }

  /** The bus carries exactly the emissions of the handled first deliveries, in order. */
  lemma {:induction false} BusIsFirstDeliveries(cs: ConsumerState, events: seq<Event>)
    requires cs.processed == {}
    ensures Consume(cs, events).bus == cs.bus + AllEmissions(cs.devices.Keys, FirstDeliveries(events))
  {
    if |events| > 0 {
      var front, e := events[..|events| - 1], events[|events| - 1];
      BusIsFirstDeliveries(cs, front);
      ProcessedAreSeen(cs, front);
      var first := FirstDeliveries(events);
      if !Seen(front, e.eventId) {
        assert first[..|first| - 1] == FirstDeliveries(front);
      }
    }
  }

  /** A reading alerts exactly when it is not healthy and opens an incident exactly when it is critical. */
  lemma EmissionsMeaning(e: Event)
    requires e.payload.Reading?
    ensures var status := EvaluateHealth(e.payload.telemetry).0;
      && (exists code, severity :: AlertGenerated(e.deviceId, severity, code, e.timestamp) in Emissions(e)) ==
        (status != Healthy)
      && (exists code :: IncidentCreated(e.deviceId, CriticalAlert, code, e.timestamp) in Emissions(e)) ==
        (status == Critical)
      && |Emissions(e)| == match status { case Healthy => 1 case Critical => 3 case _ => 2 }
  {
    var status := EvaluateHealth(e.payload.telemetry).0;
    var code := AlertCode(e.payload.telemetry);
    if status != Healthy {
      assert Emissions(e)[1] ==
        AlertGenerated(e.deviceId, if status == Critical then CriticalAlert else WarningAlert, code, e.timestamp);
    }
    if status == Critical {
      assert Emissions(e)[2] == IncidentCreated(e.deviceId, CriticalAlert, code, e.timestamp);
    }
  }

  // ---- what becomes of one event

  /** What the deliveries under one id publish, taken together. */
  ghost function PublishedFor(cs: ConsumerState, events: seq<Event>, id: string): seq<Published> {
    if |events| == 0 then []
    else
      var front, e := events[..|events| - 1], events[|events| - 1];
      var before, result := PublishedFor(cs, front, id), ProcessResult(Consume(cs, front), e);
      if e.eventId == id && result.Ok? then before + result.value else before
  }

  ghost function FirstDelivery(events: seq<Event>, id: string): Event
    requires Seen(events, id)
  {
    var front := events[..|events| - 1];
    if Seen(front, id) then FirstDelivery(front, id)
    else
      var i :| 0 <= i < |events| && events[i].eventId == id;
      assert i < |events| - 1 ==> front[i].eventId == id;
      events[|events| - 1]
  }

  lemma SeenLonger(front: seq<Event>, e: Event, id: string)
    ensures Seen(front + [e], id) <==> Seen(front, id) || e.eventId == id
  {
    if Seen(front, id) {
      var i :| 0 <= i < |front| && front[i].eventId == id;
      assert (front + [e])[i].eventId == id;
    }
    assert (front + [e])[|front|] == e;
    if Seen(front + [e], id) {
      var i :| 0 <= i < |front + [e]| && (front + [e])[i].eventId == id;
      assert i < |front| ==> front[i].eventId == id;
    }
  }

  /** The promise is that an event is processed once; what counts is whether its first delivery could be handled. */
  lemma {:induction false} PublishedIffFirstHandled(cs: ConsumerState, events: seq<Event>, id: string)
    requires cs.processed == {}
    ensures !Seen(events, id) ==> PublishedFor(cs, events, id) == []
    ensures Seen(events, id) ==> var e := FirstDelivery(events, id);
      && (PublishedFor(cs, events, id) != [] <==> Handled(cs.devices.Keys, e))
      && (Handled(cs.devices.Keys, e) ==> PublishedFor(cs, events, id) == Emissions(e))
  {
    if |events| > 0 {
      var front, e := events[..|events| - 1], events[|events| - 1];
      PublishedIffFirstHandled(cs, front, id);
      ProcessedAreSeen(cs, front);
      SeenLonger(front, e, id);
      assert events == front + [e];
    }
  }

  const FLAWED := Event("event", "device", 0, Malformed)

  function Corrected(reading: Telemetry): Event {
    FLAWED.(payload := Reading(reading))
  }

  /** An event that could not be evaluated is never made good: its corrected redelivery is swallowed. */
  lemma CorrectedEventIsSwallowed(cs: ConsumerState, reading: Telemetry)
    requires cs.processed == {} && "device" in cs.devices
    ensures Handled(cs.devices.Keys, Corrected(reading))
    ensures PublishedFor(cs, [FLAWED, Corrected(reading)], "event") == []
  {
    var events := [FLAWED, Corrected(reading)];
    assert events[..1] == [FLAWED] && [FLAWED][..0] == [];
    assert events[0].eventId == "event" && [FLAWED][0].eventId == "event";
    assert FirstDelivery(events, "event") == FLAWED;
    PublishedIffFirstHandled(cs, events, "event");
  }
}
