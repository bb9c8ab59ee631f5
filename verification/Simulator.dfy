/**
 The simulated devices: failure scenarios, the telemetry a device reports, and the
 health that the consumer computes from it.  Readings are reals, times are integers.
 */
module Simulator {
  import opened Wrappers

  datatype DeviceStatus = Healthy | Warning | Critical | Offline

  datatype ServiceState = Running | Degraded | Stopped | Crashed

  datatype Scenario =
    | ServiceCrash
    | CpuSaturation
    | MemoryPressure
    | PacketLoss
    | NetworkTimeout
    | SensorInitializationFailure
    | TelemetryDelay
    | DiskCapacityWarning

  type Services = map<string, ServiceState>

  const SENSOR := "sensor-ingestor"
  const AGENT := "telemetry-agent"
  const SERVICE_NAMES := {"telemetry-agent", "control-plane", "sensor-ingestor", "diagnostic-runner"}

  const DELAY := 420_000_000

  /** What a device's fields hold; `index` is the number in its id. */
  datatype DeviceState = DeviceState(
    index: int,
    active: Option<Scenario>,
    status: DeviceStatus,
    healthScore: real,
    lastSeen: int,
    services: Services)

  datatype Telemetry = Telemetry(
    index: int,
    timestamp: int,
    cpu: real,
    memory: real,
    temperature: real,
    latency: real,
    packetLoss: real,
    disk: real,
    services: Services,
    delayed: bool)

  function AllRunning(services: Services): (r: Services)
    ensures r.Keys == services.Keys
  {
    map name | name in services :: Running
  }

  predicate Installed(services: Services) {
    services.Keys == SERVICE_NAMES
  }

  function ScenarioServices(services: Services, s: Scenario): Services {
    match s
    case ServiceCrash => services[SENSOR := Crashed]
    case SensorInitializationFailure => services[SENSOR := Crashed]
    case NetworkTimeout => services[AGENT := Degraded]
    case _ => AllRunning(services)
  }

  function BaseTelemetry(d: DeviceState, timestamp: int, delayed: bool): Telemetry {
    Telemetry(
      d.index,
      timestamp,
      (25 + (d.index * 3) % 45) as real,
      (35 + (d.index * 5) % 35) as real,
      (38 + d.index % 18) as real,
      (25 + (d.index * 7) % 100) as real,
      (d.index % 5) as real / 10.0,
      (45 + d.index % 30) as real,
      d.services,
      delayed)
  }

  function ScenarioTelemetry(t: Telemetry, s: Scenario): Telemetry {
    match s
    case ServiceCrash => t.(services := t.services[SENSOR := Crashed])
    case CpuSaturation => t.(cpu := 98.4)
    case MemoryPressure => t.(memory := 94.2)
    case PacketLoss => t.(packetLoss := 18.5)
    case NetworkTimeout => t.(latency := 5000.0, packetLoss := 100.0, services := t.services[AGENT := Degraded])
    case SensorInitializationFailure => t.(services := t.services[SENSOR := Crashed], temperature := 82.0)
    case DiskCapacityWarning => t.(disk := 91.0)
    case TelemetryDelay => t
  }

  function TelemetryFor(d: DeviceState, now: int): Telemetry {
    var delayed := d.active == Some(TelemetryDelay);
    var base := BaseTelemetry(d, if delayed then now - DELAY else now, delayed);
    match d.active
    case None => base
    case Some(s) => ScenarioTelemetry(base, s)
  }

  predicate SomeService(services: Services, state: ServiceState) {
    exists name :: name in services && services[name] == state
  }

  function EvaluateHealth(t: Telemetry): (DeviceStatus, real) {
    if t.cpu >= 95.0 || t.memory >= 95.0 || t.latency >= 3000.0 || t.packetLoss >= 50.0 || t.temperature >= 80.0
       || SomeService(t.services, Crashed) then
      (Critical, 18.0)
    else if t.cpu >= 85.0 || t.memory >= 85.0 || t.packetLoss >= 10.0 || t.disk >= 85.0 || t.delayed
       || SomeService(t.services, Degraded) || SomeService(t.services, Stopped) then
      (Warning, 62.0)
    else
      (Healthy, 96.0)
  }

  function AlertCode(t: Telemetry): string {
    if SomeService(t.services, Crashed) then "E-SERVICE-CRASH"
    else if t.latency >= 3000.0 then "E-NET-TIMEOUT"
    else if t.packetLoss >= 10.0 then "E-NET-LOSS"
    else if t.cpu >= 85.0 then "E-CPU-SATURATION"
    else if t.memory >= 85.0 then "E-MEM-PRESSURE"
    else if t.disk >= 85.0 then "E-DISK-CAPACITY"
    else if t.delayed then "E-TELEMETRY-DELAY"
    else "E-DEVICE-WARNING"
  }

  // ---- what a reading means

  ghost predicate Shows(t: Telemetry, state: ServiceState) {
    exists name :: name in t.services && t.services[name] == state
  }

  /** A reading that is critical whatever else it shows. */
  ghost predicate Alarming(t: Telemetry) {
    || t.cpu >= 95.0 || t.memory >= 95.0 || t.latency >= 3000.0 || t.packetLoss >= 50.0 || t.temperature >= 80.0
    || Shows(t, Crashed)
  }

  /** A reading that is not healthy. */
  ghost predicate Worrying(t: Telemetry) {
    || Alarming(t)
    || t.cpu >= 85.0 || t.memory >= 85.0 || t.packetLoss >= 10.0 || t.disk >= 85.0 || t.delayed
    || Shows(t, Degraded) || Shows(t, Stopped)
  }

  ghost predicate MeansHealth(t: Telemetry, status: DeviceStatus, score: real) {
    && status != Offline
    && (status == Critical <==> Alarming(t)) && (status == Healthy <==> !Worrying(t))
    && (status == Critical ==> score == 18.0) && (status == Warning ==> score == 62.0)
    && (status == Healthy ==> score == 96.0)
  }

  /** What an alert is blamed on: the first of these that applies. */
  ghost predicate Blames(t: Telemetry, code: string) {
    if Shows(t, Crashed) then code == "E-SERVICE-CRASH"
    else if t.latency >= 3000.0 then code == "E-NET-TIMEOUT"
    else if t.packetLoss >= 10.0 then code == "E-NET-LOSS"
    else if t.cpu >= 85.0 then code == "E-CPU-SATURATION"
    else if t.memory >= 85.0 then code == "E-MEM-PRESSURE"
    else if t.disk >= 85.0 then code == "E-DISK-CAPACITY"
    else if t.delayed then code == "E-TELEMETRY-DELAY"
    else code == "E-DEVICE-WARNING"
  }

  lemma ReadingMeans(t: Telemetry)
    ensures MeansHealth(t, EvaluateHealth(t).0, EvaluateHealth(t).1)
    ensures Blames(t, AlertCode(t))
  {
    assert forall state :: SomeService(t.services, state) <==> Shows(t, state);
  }

  /** No measure is lower, no service is in a better state for it, and a delay stays a delay. */
  ghost predicate NoBetter(a: Telemetry, b: Telemetry) {
    && a.cpu <= b.cpu && a.memory <= b.memory && a.temperature <= b.temperature && a.latency <= b.latency
    && a.packetLoss <= b.packetLoss && a.disk <= b.disk && (a.delayed ==> b.delayed)
    && a.services.Keys == b.services.Keys
    && forall name :: name in a.services && a.services[name] != b.services[name] ==>
      a.services[name] == Running || b.services[name] == Crashed
  }

  /** A reading that is no better is not healthier, and its score is not higher. */
  lemma NoBetterIsNoHealthier(a: Telemetry, b: Telemetry)
    requires NoBetter(a, b)
    ensures EvaluateHealth(a).0 == Critical ==> EvaluateHealth(b).0 == Critical
    ensures EvaluateHealth(b).0 == Healthy ==> EvaluateHealth(a).0 == Healthy
    ensures EvaluateHealth(b).1 <= EvaluateHealth(a).1
  {
    ReadingMeans(a);
    ReadingMeans(b);
    if Shows(a, Crashed) {
      var name :| name in a.services && a.services[name] == Crashed;
      assert name in b.services && b.services[name] == Crashed;
    }
    if Shows(a, Degraded) {
      var name :| name in a.services && a.services[name] == Degraded;
      assert name in b.services && b.services[name] in {Degraded, Crashed};
    }
    if Shows(a, Stopped) {
      var name :| name in a.services && a.services[name] == Stopped;
      assert name in b.services && b.services[name] in {Stopped, Crashed};
    }
  }

  // ---- what a scenario does to a device and to its readings

  /** Some services have come to these states, and the others are as they were. */
  ghost predicate Become(services: Services, services': Services, scenario: Scenario) {
    && services'.Keys == services.Keys
    && forall name :: name in services ==>
      services'[name] ==
        if scenario == ServiceCrash || scenario == SensorInitializationFailure then
          if name == "sensor-ingestor" then Crashed else services[name]
        else if scenario == NetworkTimeout then
          if name == "telemetry-agent" then Degraded else services[name]
        else Running
  }

  /** A scenario disturbs its own measures and no others. */
  lemma ScenarioDisturbs(d: DeviceState, scenario: Scenario, now: int)
    requires Installed(d.services)
    ensures var calm, t := TelemetryFor(d.(active := None), now), TelemetryFor(d.(active := Some(scenario)), now);
      && t.cpu == (if scenario == CpuSaturation then 98.4 else calm.cpu)
      && t.memory == (if scenario == MemoryPressure then 94.2 else calm.memory)
      && t.temperature == (if scenario == SensorInitializationFailure then 82.0 else calm.temperature)
      && t.latency == (if scenario == NetworkTimeout then 5000.0 else calm.latency)
      && t.packetLoss ==
        (if scenario == NetworkTimeout then 100.0 else if scenario == PacketLoss then 18.5 else calm.packetLoss)
      && t.disk == (if scenario == DiskCapacityWarning then 91.0 else calm.disk)
      && !calm.delayed && calm.timestamp == now && calm.services == d.services
      && t.delayed == (scenario == TelemetryDelay)
      && t.timestamp == (if scenario == TelemetryDelay then now - 7 * 60 * 1_000_000 else now)
      && t.index == calm.index == d.index
      && (if scenario in {ServiceCrash, SensorInitializationFailure, NetworkTimeout}
          then Become(d.services, t.services, scenario) else t.services == d.services)
  {
  }

  /** The calm readings of a device go by the number in its id. */
  lemma CalmReadings(d: DeviceState, now: int)
    requires d.active == None
    ensures d.index == 14 ==>
      var t := TelemetryFor(d, now);
      (t.cpu, t.memory, t.temperature, t.latency, t.packetLoss, t.disk) == (67.0, 35.0, 52.0, 123.0, 0.4, 59.0)
    ensures d.index == 50 ==>
      var t := TelemetryFor(d, now);
      (t.cpu, t.memory, t.temperature, t.latency, t.packetLoss, t.disk) == (40.0, 40.0, 52.0, 75.0, 0.0, 65.0)
    ensures var t := TelemetryFor(d, now);
      && 25.0 <= t.cpu <= 69.0 && 35.0 <= t.memory <= 69.0 && 38.0 <= t.temperature <= 55.0
      && 25.0 <= t.latency <= 124.0 && 0.0 <= t.packetLoss <= 0.4 && 45.0 <= t.disk <= 74.0
  {
  }

  // ---- the device object

  class SimulatedDevice {
    const index: int
    var active: Option<Scenario>
    var status: DeviceStatus
    var healthScore: real
    var lastSeen: int
    var services: Services

    function State(): DeviceState
      reads this
    {
      DeviceState(index, active, status, healthScore, lastSeen, services)
    }

    constructor (number: int, baseTime: int)
      ensures State() == SeedState(number, baseTime)
      ensures active == None && status == Healthy && healthScore == 96.0 && index == number
      ensures baseTime - 16 * 60 * 1_000_000 <= lastSeen <= baseTime
      ensures services.Keys == {"telemetry-agent", "control-plane", "sensor-ingestor", "diagnostic-runner"}
      ensures forall name :: name in services ==> services[name] == Running
    {
      index := number;
      active, status, healthScore := None, Healthy, 96.0;
      lastSeen := baseTime - (number % 17) * 60_000_000;
      services := map name | name in SERVICE_NAMES :: Running;
    }

    method ActivateScenario(scenario: Scenario, now: int)
      requires Installed(services)
      modifies this
      ensures State() == Apply(old(State()), Activate(scenario, now))
      ensures active == Some(scenario) && lastSeen == now && Become(old(services), services, scenario)
      ensures status == old(status) && healthScore == old(healthScore)
    {
      active := Some(scenario);
      lastSeen := now;
      if scenario == ServiceCrash || scenario == SensorInitializationFailure {
        services := services[SENSOR := Crashed];
      } else if scenario == NetworkTimeout {
        services := services[AGENT := Degraded];
      } else {
        services := AllRunning(services);
      }
    }

    method ClearScenario(now: int)
      modifies this
      ensures State() == Apply(old(State()), Clear(now))
      ensures active == None && status == Healthy && healthScore == 96.0 && lastSeen == now
      ensures services.Keys == old(services.Keys) && forall name :: name in services ==> services[name] == Running
    {
      active, status, healthScore, lastSeen := None, Healthy, 96.0, now;
      services := AllRunning(services);
    }

    method UpdateHealth(newStatus: DeviceStatus, newScore: real, now: int)
      modifies this
      ensures State() == Apply(old(State()), Report(newStatus, newScore, now))
      ensures status == newStatus && healthScore == newScore && lastSeen == now
      ensures active == old(active) && services == old(services)
    {
      status, healthScore, lastSeen := newStatus, newScore, now;
    }

    /** Returns false where the source raises DeviceNotFound. */
    method RestartService(name: string) returns (found: bool)
      modifies this
      ensures found == (name in old(services))
      ensures State() == Apply(old(State()), RestartOne(name))
      ensures services.Keys == old(services.Keys) && (found ==> services[name] == Running)
      ensures forall other :: other in services && other != name ==> services[other] == old(services[other])
      ensures active == old(active) && status == old(status) && healthScore == old(healthScore)
      ensures lastSeen == old(lastSeen)
    {
      if name !in services {
        return false;
      }
      services := services[name := Running];
      return true;
    }
  }

  // ---- histories

  datatype Operation =
    | Activate(scenario: Scenario, now: int)
    | Clear(now: int)
    | Report(status: DeviceStatus, healthScore: real, now: int)
    | RestartOne(name: string)

  function SeedState(number: int, baseTime: int): DeviceState {
    DeviceState(number, None, Healthy, 96.0, baseTime - (number % 17) * 60_000_000,
                map name | name in SERVICE_NAMES :: Running)
  }

  function Apply(d: DeviceState, op: Operation): DeviceState {
    match op
    case Activate(scenario, now) =>
      d.(active := Some(scenario), lastSeen := now, services := ScenarioServices(d.services, scenario))
    case Clear(now) =>
      d.(active := None, status := Healthy, healthScore := 96.0, lastSeen := now, services := AllRunning(d.services))
    case Report(status, healthScore, now) =>
      d.(status := status, healthScore := healthScore, lastSeen := now)
    case RestartOne(name) =>
      if name in d.services then d.(services := d.services[name := Running]) else d
  }

  ghost function Run(d: DeviceState, history: seq<Operation>): DeviceState {
    if |history| == 0 then d else Apply(Run(d, history[..|history| - 1]), history[|history| - 1])
  }

  /** The scenario of the latest activation, none once cleared. */
  ghost function ActiveAfter(history: seq<Operation>): Option<Scenario> {
    if |history| == 0 then None
    else
      match history[|history| - 1]
      case Activate(scenario, _) => Some(scenario)
      case Clear(_) => None
      case _ => ActiveAfter(history[..|history| - 1])
  }

  /** The status and score a scenario stands for. */
  ghost function StatusOf(active: Option<Scenario>): (DeviceStatus, real) {
    match active
    case None => (Healthy, 96.0)
    case Some(ServiceCrash) => (Critical, 18.0)
    case Some(CpuSaturation) => (Critical, 18.0)
    case Some(NetworkTimeout) => (Critical, 18.0)
    case Some(SensorInitializationFailure) => (Critical, 18.0)
    case Some(_) => (Warning, 62.0)
  }

  /** The alert code a scenario stands for. */
  ghost function CodeOf(scenario: Scenario): string {
    match scenario
    case ServiceCrash => "E-SERVICE-CRASH"
    case CpuSaturation => "E-CPU-SATURATION"
    case MemoryPressure => "E-MEM-PRESSURE"
    case PacketLoss => "E-NET-LOSS"
    case NetworkTimeout => "E-NET-TIMEOUT"
    case SensorInitializationFailure => "E-SERVICE-CRASH"
    case TelemetryDelay => "E-TELEMETRY-DELAY"
    case DiskCapacityWarning => "E-DISK-CAPACITY"
  }

  predicate ServiceScenario(active: Option<Scenario>) {
    active in {Some(ServiceCrash), Some(SensorInitializationFailure), Some(NetworkTimeout)}
  }

  /** A device that is in no service scenario has every service running. */
  ghost predicate Settled(d: DeviceState) {
    && Installed(d.services)
    && (!ServiceScenario(d.active) ==> forall name :: name in d.services ==> d.services[name] == Running)
  }

  lemma {:induction false} HistorySettles(number: int, baseTime: int, history: seq<Operation>)
    ensures var d := Run(SeedState(number, baseTime), history);
      Settled(d) && d.index == number && d.active == ActiveAfter(history)
  {
    if |history| > 0 {
      HistorySettles(number, baseTime, history[..|history| - 1]);
    }
  }

  lemma BaseIsHealthy(d: DeviceState, timestamp: int, delayed: bool)
    ensures var t := BaseTelemetry(d, timestamp, delayed);
      t.cpu < 85.0 && t.memory < 85.0 && t.temperature < 80.0 && t.latency < 3000.0 && t.packetLoss < 10.0
        && t.disk < 85.0
  {
  }

  lemma SettledStatus(d: DeviceState, now: int)
    requires Settled(d)
    ensures EvaluateHealth(TelemetryFor(d, now)) == StatusOf(d.active)
  {
    var t := TelemetryFor(d, now);
    BaseIsHealthy(d, if d.active == Some(TelemetryDelay) then now - DELAY else now, d.active == Some(TelemetryDelay));
    if d.active == Some(ServiceCrash) || d.active == Some(SensorInitializationFailure) {
      assert t.services[SENSOR] == Crashed;
    }
  }

  /** After any history, on any device, the computed status depends only on the active scenario. */
  lemma StatusDependsOnActiveScenario(number: int, baseTime: int, history: seq<Operation>, now: int)
    ensures EvaluateHealth(TelemetryFor(Run(SeedState(number, baseTime), history), now)) ==
      StatusOf(ActiveAfter(history))
  {
    HistorySettles(number, baseTime, history);
    SettledStatus(Run(SeedState(number, baseTime), history), now);
  }

  /**
   The alert code is not as forgetful as the status: a crash left behind by an earlier
   scenario hides a network timeout.  It is the only way the code can be wrong.
   */
  lemma CodeIsScenarioCodeIff(number: int, baseTime: int, history: seq<Operation>, now: int)
    requires ActiveAfter(history).Some?
    ensures var d := Run(SeedState(number, baseTime), history);
      (AlertCode(TelemetryFor(d, now)) == CodeOf(ActiveAfter(history).value)) <==>
      !(ActiveAfter(history) == Some(NetworkTimeout) && SomeService(d.services, Crashed))
  {
    var d := Run(SeedState(number, baseTime), history);
    HistorySettles(number, baseTime, history);
    BaseIsHealthy(d, if d.active == Some(TelemetryDelay) then now - DELAY else now, d.active == Some(TelemetryDelay));
    var t := TelemetryFor(d, now);
    match d.active.value {
      case ServiceCrash => assert t.services[SENSOR] == Crashed;
      case SensorInitializationFailure => assert t.services[SENSOR] == Crashed;
      case NetworkTimeout =>
        OnlySensorCrashes(number, baseTime, history);
        if SomeService(d.services, Crashed) {
          var name :| name in d.services && d.services[name] == Crashed;
          assert name in t.services && t.services[name] == Crashed;
        }
      case _ =>
    }
  }

  /** Only the sensor service can ever be crashed, so the timeout's own service state hides nothing. */
  lemma {:induction false} OnlySensorCrashes(number: int, baseTime: int, history: seq<Operation>)
    ensures forall name :: name in Run(SeedState(number, baseTime), history).services && name != SENSOR ==>
      Run(SeedState(number, baseTime), history).services[name] != Crashed
  {
    if |history| > 0 {
      OnlySensorCrashes(number, baseTime, history[..|history| - 1]);
    }
  }

  /** Two histories with the same active scenario and different alert codes. */
  lemma CodeDependsOnHistory(now: int)
    ensures var clean, crashed :=
      [Activate(NetworkTimeout, 0)], [Activate(ServiceCrash, 0), Activate(NetworkTimeout, 0)];
      && ActiveAfter(clean) == ActiveAfter(crashed)
      && AlertCode(TelemetryFor(Run(SeedState(14, 0), clean), now)) == "E-NET-TIMEOUT"
      && AlertCode(TelemetryFor(Run(SeedState(14, 0), crashed), now)) == "E-SERVICE-CRASH"
  {
    var clean, crashed := [Activate(NetworkTimeout, 0)], [Activate(ServiceCrash, 0), Activate(NetworkTimeout, 0)];
    CodeIsScenarioCodeIff(14, 0, clean, now);
    assert clean[..0] == [];
    assert crashed[..1] == [Activate(ServiceCrash, 0)] && crashed[..1][..0] == [];
    var d := Run(SeedState(14, 0), crashed);
    assert d == Apply(Apply(SeedState(14, 0), crashed[0]), crashed[1]);
    assert d.services[SENSOR] == Crashed;
    assert TelemetryFor(d, now).services[SENSOR] == Crashed;
  }
}
