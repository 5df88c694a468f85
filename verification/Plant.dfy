/** The simulated fire-water plant of internal/firewater/engine.go: the randomly jittered step,
    the events derived from its values, and the tick that feeds them to the alarm book.

    Metric names are an enumeration: the engine never stores another key. Each call of the
    random source is a separate, arbitrary draw. */
module Plant {
  import opened Common
  import opened Alarms
  import opened Simulator

  datatype Metric =
    | TankLevel | JockeyBar | MainBar | RiserBar | HeaderLps | ValveOpen | HydrantBar | RoomC
    | FloodMm | DieselPct | PumpAmps | Tamper | PumpVib | LeakDb | Turbidity | DelugeOpen
    | FoamPct | HeaterOn | SirenOn | VfdHz | PlcOk | FacpOk | DieselEcu | IoPack | EdgeCpu
    | EdgeTemp | ModelFps | K3sOk | MqttOk | OpcuaOk | LoraRssi | CellRsrp | TsnOk | PtpLock
    | CamAiFire | CamSmoke | FlameIr | MainsOk | UpsSoc | GenRun | PduW | LelPct | CoPpm
    | SmokePct | DoorSecure | NfcLock | Occupancy

  /** Scenario names; the engine treats "normal" and every name it does not know alike. */
  datatype Scenario =
    | Fire | LowTank | LowPress | PumpFail | Valve | Leak | Freeze | Hydrant | Comms | Vision
    | Power | Gas | Plc | Other(name: string)

  type Values = map<Metric, real>

  /** Where in a step a draw is made: the base loop, the fixed overrides, the scenario. */
  datatype Phase = Base | Healthy | Scene

  type Draws = Phase -> Metric -> Draw

  function Default(m: Metric): real {
    match m
    case TankLevel => 86.0 case JockeyBar => 8.2 case MainBar => 0.4 case RiserBar => 7.6
    case HeaderLps => 0.1 case ValveOpen => 100.0 case HydrantBar => 7.1 case RoomC => 24.0
    case FloodMm => 0.0 case DieselPct => 78.0 case PumpAmps => 0.0 case Tamper => 0.0
    case PumpVib => 2.1 case LeakDb => 38.0 case Turbidity => 2.4 case DelugeOpen => 0.0
    case FoamPct => 64.0 case HeaterOn => 0.0 case SirenOn => 0.0 case VfdHz => 18.0
    case PlcOk => 1.0 case FacpOk => 1.0 case DieselEcu => 1.0 case IoPack => 1.0
    case EdgeCpu => 22.0 case EdgeTemp => 48.0 case ModelFps => 24.0 case K3sOk => 1.0
    case MqttOk => 1.0 case OpcuaOk => 1.0 case LoraRssi => -78.0 case CellRsrp => -85.0
    case TsnOk => 1.0 case PtpLock => 1.0 case CamAiFire => 4.0 case CamSmoke => 3.0
    case FlameIr => 2.0 case MainsOk => 1.0 case UpsSoc => 96.0 case GenRun => 0.0
    case PduW => 420.0 case LelPct => 0.4 case CoPpm => 3.0 case SmokePct => 0.8
    case DoorSecure => 1.0 case NfcLock => 1.0 case Occupancy => 1.0
  }

  /** Metrics the base loop copies without jitter (their default lies in [0, 1]). */
  predicate Pinned(m: Metric) {
    && 0.0 <= Default(m) <= 1.0
    && (m == PlcOk || m == FacpOk || m == DieselEcu || m == IoPack || m == MqttOk || m == OpcuaOk
        || m == TsnOk || m == PtpLock || m == K3sOk || m == MainsOk || m == DoorSecure || m == NfcLock
        || m == HeaterOn || m == SirenOn || m == GenRun || m == Tamper)
  }

  function DefaultValues(): Values { map m: Metric | true :: Default(m) }

  // ---- one step ------------------------------------------------------------------------

  function BaseWrite(m: Metric): Write {
    if Pinned(m) then Put(Default(m)) else Jitter(Default(m), 0.04 * (1.0 + Default(m)))
  }

  /** The overrides that follow the base loop. */
  function HealthyWrite(m: Metric): Option<Write> {
    match m
    case TankLevel => Some(Jitter(86.0, 0.6))
    case JockeyBar => Some(Jitter(8.2, 0.08))
    case MainBar => Some(Jitter(0.4, 0.05))
    case RiserBar => Some(Jitter(7.6, 0.08))
    case HeaderLps => Some(Jitter(0.08, 0.04))
    case ValveOpen => Some(Put(100.0))
    case HydrantBar => Some(Jitter(7.1, 0.06))
    case RoomC => Some(Jitter(24.0, 0.3))
    case FloodMm => Some(Put(0.0))
    case DieselPct => Some(Jitter(78.0, 0.1))
    case PumpAmps => Some(Put(0.0))
    case Tamper => Some(Put(0.0))
    case _ => None
  }

  /** What a scenario writes over a healthy fleet. */
  function SceneWrite(s: Scenario, m: Metric): Option<Write> {
    match s
    case Fire => (match m
      case TankLevel => Some(Drain(35.0, 0.35))
      case JockeyBar => Some(Jitter(7.0, 0.2))
      case MainBar => Some(Jitter(9.4, 0.15))
      case RiserBar => Some(Jitter(8.1, 0.12))
      case HeaderLps => Some(Jitter(28.0, 1.4))
      case ValveOpen => Some(Put(100.0))
      case HydrantBar => Some(Jitter(6.4, 0.2))
      case RoomC => Some(Jitter(31.0, 0.4))
      case PumpAmps => Some(Jitter(148.0, 4.0))
      case PumpVib => Some(Jitter(6.8, 0.4))
      case DelugeOpen => Some(Put(100.0))
      case SirenOn => Some(Put(1.0))
      case VfdHz => Some(Jitter(50.0, 1.0))
      case CamAiFire => Some(Jitter(82.0, 4.0))
      case CamSmoke => Some(Jitter(71.0, 5.0))
      case FlameIr => Some(Jitter(77.0, 4.0))
      case SmokePct => Some(Jitter(28.0, 3.0))
      case ModelFps => Some(Jitter(18.0, 2.0))
      case EdgeCpu => Some(Jitter(74.0, 4.0))
      case Occupancy => Some(Jitter(6.0, 1.0))
      case _ => None)
    case LowTank => (match m
      case TankLevel => Some(JitterAbove(18.0, 22.0, 0.8))
      case _ => None)
    case LowPress => (match m
      case JockeyBar => Some(Jitter(5.1, 0.15))
      case RiserBar => Some(Jitter(3.6, 0.12))
      case HydrantBar => Some(Jitter(3.2, 0.1))
      case HeaderLps => Some(Jitter(2.4, 0.3))
      case VfdHz => Some(Jitter(48.0, 2.0))
      case _ => None)
    case PumpFail => (match m
      case HeaderLps => Some(Jitter(6.0, 0.4))
      case RiserBar => Some(Jitter(3.2, 0.2))
      case MainBar => Some(Jitter(0.6, 0.1))
      case PumpAmps => Some(Jitter(8.0, 2.0))
      case PumpVib => Some(Jitter(0.4, 0.1))
      case DieselEcu => Some(Put(0.0))
      case PlcOk => Some(Put(1.0))
      case _ => None)
    case Valve => (match m
      case ValveOpen => Some(Put(0.0))
      case NfcLock => Some(Put(1.0))
      case _ => None)
    case Leak => (match m
      case HeaderLps => Some(Jitter(1.8, 0.2))
      case JockeyBar => Some(Jitter(6.2, 0.15))
      case TankLevel => Some(Drain(40.0, 0.08))
      case LeakDb => Some(Jitter(81.0, 3.0))
      case _ => None)
    case Freeze => (match m
      case RoomC => Some(Jitter(2.4, 0.3))
      case HeaterOn => Some(Put(1.0))
      case _ => None)
    case Hydrant => (match m
      case Tamper => Some(Put(1.0))
      case HydrantBar => Some(Jitter(0.4, 0.1))
      case NfcLock => Some(Put(0.0))
      case DoorSecure => Some(Put(0.0))
      case _ => None)
    case Comms => (match m
      case MqttOk => Some(Put(0.0))
      case OpcuaOk => Some(Put(0.0))
      case LoraRssi => Some(Jitter(-122.0, 2.0))
      case CellRsrp => Some(Jitter(-124.0, 2.0))
      case TsnOk => Some(Put(0.0))
      case PtpLock => Some(Put(0.0))
      case K3sOk => Some(Put(0.0))
      case _ => None)
    case Vision => (match m
      case CamAiFire => Some(Jitter(88.0, 3.0))
      case CamSmoke => Some(Jitter(64.0, 4.0))
      case FlameIr => Some(Jitter(73.0, 3.0))
      case ModelFps => Some(Jitter(9.0, 1.0))
      case EdgeCpu => Some(Jitter(88.0, 3.0))
      case EdgeTemp => Some(Jitter(79.0, 2.0))
      case _ => None)
    case Power => (match m
      case MainsOk => Some(Put(0.0))
      case UpsSoc => Some(Jitter(18.0, 2.0))
      case GenRun => Some(Put(1.0))
      case PduW => Some(Jitter(3100.0, 80.0))
      case PlcOk => Some(Put(1.0))
      case _ => None)
    case Gas => (match m
      case LelPct => Some(Jitter(24.0, 2.0))
      case CoPpm => Some(Jitter(62.0, 4.0))
      case SirenOn => Some(Put(1.0))
      case Occupancy => Some(Put(0.0))
      case _ => None)
    case Plc => (match m
      case PlcOk => Some(Put(0.0))
      case IoPack => Some(Put(0.0))
      case FacpOk => Some(Put(0.0))
      case _ => None)
    case Other(_) => None
  }

  const BASE_TABLE: map<Metric, Write> := map m: Metric | true :: BaseWrite(m)

  const HEALTHY_TABLE: map<Metric, Write> := map m: Metric | HealthyWrite(m) != None :: HealthyWrite(m).value

  function SceneTable(s: Scenario): map<Metric, Write> {
    map m: Metric | SceneWrite(s, m) != None :: SceneWrite(s, m).value
  }

  /** A healthy fleet: the base loop and then its overrides. */
  function HealthyFleet(rng: Draws): Values {
    Applied(Applied(map[], BASE_TABLE, rng(Base)), HEALTHY_TABLE, rng(Healthy))
  }

  function Stepped(s: Scenario, rng: Draws): Values { Applied(HealthyFleet(rng), SceneTable(s), rng(Scene)) }

  function HealthyValue(m: Metric, rng: Draws): real {
    Under(HealthyWrite(m), Written(BaseWrite(m), 0.0, rng(Base)(m)), rng(Healthy)(m))
  }

  /** A metric after a step: the scenario's value where it writes one, else the healthy one. */
  function StepValue(s: Scenario, m: Metric, rng: Draws): real {
    Under(SceneWrite(s, m), HealthyValue(m, rng), rng(Scene)(m))
  }

  lemma StepAt(s: Scenario, m: Metric, rng: Draws)
    ensures Get(Stepped(s, rng), m) == StepValue(s, m, rng)
  {
    var base := Applied(map[], BASE_TABLE, rng(Base));
    AppliedAt(map[], BASE_TABLE, rng(Base), m);
    AppliedAt(base, HEALTHY_TABLE, rng(Healthy), m);
    AppliedAt(HealthyFleet(rng), SceneTable(s), rng(Scene), m);
  }

  function PumpAfter(s: Scenario, pump: bool): bool {
    if s == Fire then true else if s == PumpFail || s.Other? then false else pump
  }

  // ---- events --------------------------------------------------------------------------

  /** The limits past which Derive reports a metric; the tank, which has two, is apart. */
  predicate PastLimit(m: Metric, x: real) {
    match m
    case RiserBar => x <= 4.0
    case JockeyBar => x <= 5.5
    case ValveOpen => x < 20.0
    case HeaderLps => x > 1.2
    case RoomC => x <= 4.0
    case Tamper => x >= 1.0
    case FloodMm => x >= 30.0
    case DieselPct => x <= 20.0
    case LeakDb => x >= 75.0
    case CamAiFire => x >= 70.0
    case MqttOk => x < 1.0
    case CellRsrp => x <= -120.0
    case MainsOk => x < 1.0
    case UpsSoc => x <= 20.0
    case LelPct => x >= 20.0
    case CoPpm => x >= 50.0
    case PlcOk => x < 1.0
    case FacpOk => x < 1.0
    case NfcLock => x < 1.0
    case DoorSecure => x < 1.0
    case K3sOk => x < 1.0
    case PumpVib => x >= 11.0
    case _ => false
  }

  /** The metrics past their limits. */
  function Alarming(v: Values): set<Metric> { set m: Metric | PastLimit(m, Get(v, m)) }

  function TankEvents(level: real): seq<Event> {
    if level <= 30.0 then [Event("firewater.tank.low", Critical, "tank.fill")]
    else When(level <= 50.0, Event("firewater.tank.low", Warning, "tank.inspect"))
  }

  function PressureEvents(up: set<Metric>): seq<Event> {
    if RiserBar in up then [Event("firewater.pressure.low", Critical, "pump.start")]
    else When(JockeyBar in up, Event("firewater.pressure.low", Warning, "jockey.inspect"))
  }

  function WaterEvents(s: Scenario, up: set<Metric>): seq<Event> {
    PressureEvents(up)
    + When(s == Fire, Event("firewater.demand.active", Critical, "pump.confirm_run"))
    + When(s == PumpFail, Event("firewater.pump.fail", Critical, "pump.start_backup"))
    + When(ValveOpen in up, Event("firewater.valve.closed", Critical, "valve.open"))
    + When(HeaderLps in up && s != Fire, Event("firewater.flow.detected", Warning, "zone.investigate"))
  }

  function RoomEvents(up: set<Metric>): seq<Event> {
    When(RoomC in up, Event("firewater.freeze.risk", Critical, "room.heat"))
    + When(Tamper in up, Event("firewater.hydrant.tamper", Critical, "security.dispatch"))
    + When(FloodMm in up, Event("firewater.pumproom.flood", Critical, "sump.start"))
    + When(DieselPct in up, Event("firewater.diesel.low", Critical, "fuel.refill"))
    + When(LeakDb in up, Event("firewater.leak.acoustic", Critical, "zone.investigate"))
  }

  function EdgeEvents(up: set<Metric>): seq<Event> {
    When(CamAiFire in up, Event("edge.vision.fire", Critical, "nvr.clip"))
    + When(MqttOk in up || CellRsrp in up, Event("edge.comms.down", Critical, "radio.failover"))
    + When(MainsOk in up || UpsSoc in up, Event("edge.power.fail", Critical, "genset.start"))
    + When(LelPct in up || CoPpm in up, Event("edge.gas.alarm", Critical, "siren.on"))
  }

  function ControlEvents(up: set<Metric>): seq<Event> {
    When(PlcOk in up || FacpOk in up, Event("edge.control.fault", Critical, "plc.reset"))
    + When(NfcLock in up || DoorSecure in up, Event("edge.access.breach", Critical, "security.dispatch"))
    + When(K3sOk in up, Event("edge.runtime.down", Warning, "k3s.recover"))
    + When(PumpVib in up, Event("firewater.pump.vibration", Critical, "pump.inspect"))
  }

  function Derive(s: Scenario, v: Values): seq<Event> {
    var up := Alarming(v);
    TankEvents(Get(v, TankLevel)) + WaterEvents(s, up) + RoomEvents(up) + EdgeEvents(up) + ControlEvents(up)
  }

  // ---- scenario exactness --------------------------------------------------------------

  /** What each event reports, reading by reading. */
  predicate WaterReports(e: Event, s: Scenario, v: Values) {
    || (e == Event("firewater.tank.low", Critical, "tank.fill") && Get(v, TankLevel) <= 30.0)
    || (e == Event("firewater.tank.low", Warning, "tank.inspect") && 30.0 < Get(v, TankLevel) <= 50.0)
    || (e == Event("firewater.pressure.low", Critical, "pump.start") && Get(v, RiserBar) <= 4.0)
    || (e == Event("firewater.pressure.low", Warning, "jockey.inspect")
        && Get(v, RiserBar) > 4.0 && Get(v, JockeyBar) <= 5.5)
    || (e == Event("firewater.demand.active", Critical, "pump.confirm_run") && s == Fire)
    || (e == Event("firewater.pump.fail", Critical, "pump.start_backup") && s == PumpFail)
    || (e == Event("firewater.valve.closed", Critical, "valve.open") && Get(v, ValveOpen) < 20.0)
    || (e == Event("firewater.flow.detected", Warning, "zone.investigate") && Get(v, HeaderLps) > 1.2 && s != Fire)
  }

  predicate RoomReports(e: Event, v: Values) {
    || (e == Event("firewater.freeze.risk", Critical, "room.heat") && Get(v, RoomC) <= 4.0)
    || (e == Event("firewater.hydrant.tamper", Critical, "security.dispatch") && Get(v, Tamper) >= 1.0)
    || (e == Event("firewater.pumproom.flood", Critical, "sump.start") && Get(v, FloodMm) >= 30.0)
    || (e == Event("firewater.diesel.low", Critical, "fuel.refill") && Get(v, DieselPct) <= 20.0)
    || (e == Event("firewater.leak.acoustic", Critical, "zone.investigate") && Get(v, LeakDb) >= 75.0)
  }

  predicate EdgeReports(e: Event, v: Values) {
    || (e == Event("edge.vision.fire", Critical, "nvr.clip") && Get(v, CamAiFire) >= 70.0)
    || (e == Event("edge.comms.down", Critical, "radio.failover")
        && (Get(v, MqttOk) < 1.0 || Get(v, CellRsrp) <= -120.0))
    || (e == Event("edge.power.fail", Critical, "genset.start") && (Get(v, MainsOk) < 1.0 || Get(v, UpsSoc) <= 20.0))
    || (e == Event("edge.gas.alarm", Critical, "siren.on") && (Get(v, LelPct) >= 20.0 || Get(v, CoPpm) >= 50.0))
  }

  predicate ControlReports(e: Event, v: Values) {
    || (e == Event("edge.control.fault", Critical, "plc.reset") && (Get(v, PlcOk) < 1.0 || Get(v, FacpOk) < 1.0))
    || (e == Event("edge.access.breach", Critical, "security.dispatch")
        && (Get(v, NfcLock) < 1.0 || Get(v, DoorSecure) < 1.0))
    || (e == Event("edge.runtime.down", Warning, "k3s.recover") && Get(v, K3sOk) < 1.0)
    || (e == Event("firewater.pump.vibration", Critical, "pump.inspect") && Get(v, PumpVib) >= 11.0)
  }

  lemma AmongFour(e: Event, a: bool, b: bool, c: bool, d: bool, w: Event, x: Event, y: Event, z: Event)
    ensures e in When(a, w) + When(b, x) + When(c, y) + When(d, z)
       <==> (e == w && a) || (e == x && b) || (e == y && c) || (e == z && d)
  {
  }

  lemma WaterIsReported(e: Event, s: Scenario, v: Values)
    ensures e in TankEvents(Get(v, TankLevel)) + WaterEvents(s, Alarming(v)) <==> WaterReports(e, s, v)
  {
  }

  lemma RoomIsReported(e: Event, v: Values)
    ensures e in RoomEvents(Alarming(v)) <==> RoomReports(e, v)
  {
    var up := Alarming(v);
    AmongFour(e, RoomC in up, Tamper in up, FloodMm in up, DieselPct in up,
              Event("firewater.freeze.risk", Critical, "room.heat"),
              Event("firewater.hydrant.tamper", Critical, "security.dispatch"),
              Event("firewater.pumproom.flood", Critical, "sump.start"),
              Event("firewater.diesel.low", Critical, "fuel.refill"));
  }

  lemma EdgeIsAmong(e: Event, up: set<Metric>)
    ensures e in EdgeEvents(up)
       <==> || (e == Event("edge.vision.fire", Critical, "nvr.clip") && CamAiFire in up)
            || (e == Event("edge.comms.down", Critical, "radio.failover") && (MqttOk in up || CellRsrp in up))
            || (e == Event("edge.power.fail", Critical, "genset.start") && (MainsOk in up || UpsSoc in up))
            || (e == Event("edge.gas.alarm", Critical, "siren.on") && (LelPct in up || CoPpm in up))
  {
    AmongFour(e, CamAiFire in up, MqttOk in up || CellRsrp in up, MainsOk in up || UpsSoc in up,
              LelPct in up || CoPpm in up,
              Event("edge.vision.fire", Critical, "nvr.clip"), Event("edge.comms.down", Critical, "radio.failover"),
              Event("edge.power.fail", Critical, "genset.start"), Event("edge.gas.alarm", Critical, "siren.on"));
  }

  lemma EdgeLimits(v: Values)
    ensures CamAiFire in Alarming(v) <==> Get(v, CamAiFire) >= 70.0
    ensures MqttOk in Alarming(v) <==> Get(v, MqttOk) < 1.0
    ensures CellRsrp in Alarming(v) <==> Get(v, CellRsrp) <= -120.0
  {
  }

  lemma PowerLimits(v: Values)
    ensures MainsOk in Alarming(v) <==> Get(v, MainsOk) < 1.0
    ensures UpsSoc in Alarming(v) <==> Get(v, UpsSoc) <= 20.0
    ensures LelPct in Alarming(v) <==> Get(v, LelPct) >= 20.0
    ensures CoPpm in Alarming(v) <==> Get(v, CoPpm) >= 50.0
  {
  }

  lemma EdgeIsReported(e: Event, v: Values)
    ensures e in EdgeEvents(Alarming(v)) <==> EdgeReports(e, v)
  {
    EdgeIsAmong(e, Alarming(v));
    EdgeLimits(v);
    PowerLimits(v);
  }

  lemma ControlIsAmong(e: Event, up: set<Metric>)
    ensures e in ControlEvents(up)
       <==> || (e == Event("edge.control.fault", Critical, "plc.reset") && (PlcOk in up || FacpOk in up))
            || (e == Event("edge.access.breach", Critical, "security.dispatch")
                && (NfcLock in up || DoorSecure in up))
            || (e == Event("edge.runtime.down", Warning, "k3s.recover") && K3sOk in up)
            || (e == Event("firewater.pump.vibration", Critical, "pump.inspect") && PumpVib in up)
  {
    AmongFour(e, PlcOk in up || FacpOk in up, NfcLock in up || DoorSecure in up, K3sOk in up, PumpVib in up,
              Event("edge.control.fault", Critical, "plc.reset"),
              Event("edge.access.breach", Critical, "security.dispatch"),
              Event("edge.runtime.down", Warning, "k3s.recover"),
              Event("firewater.pump.vibration", Critical, "pump.inspect"));
  }

  lemma ControlLimits(v: Values)
    ensures PlcOk in Alarming(v) <==> Get(v, PlcOk) < 1.0
    ensures FacpOk in Alarming(v) <==> Get(v, FacpOk) < 1.0
    ensures NfcLock in Alarming(v) <==> Get(v, NfcLock) < 1.0
    ensures DoorSecure in Alarming(v) <==> Get(v, DoorSecure) < 1.0
    ensures K3sOk in Alarming(v) <==> Get(v, K3sOk) < 1.0
    ensures PumpVib in Alarming(v) <==> Get(v, PumpVib) >= 11.0
  {
  }

  lemma ControlIsReported(e: Event, v: Values)
    ensures e in ControlEvents(Alarming(v)) <==> ControlReports(e, v)
  {
    ControlIsAmong(e, Alarming(v));
    ControlLimits(v);
  }

  /** For any values at all, Derive emits exactly the events whose readings call for them. */
  lemma DeriveReportsExactly(e: Event, s: Scenario, v: Values)
    ensures e in Derive(s, v)
       <==> WaterReports(e, s, v) || RoomReports(e, v) || EdgeReports(e, v) || ControlReports(e, v)
  {
    WaterIsReported(e, s, v);
    RoomIsReported(e, v);
    EdgeIsReported(e, v);
    ControlIsReported(e, v);
  }

  /** The events each scenario stands for. */
  function Expected(s: Scenario): seq<Event> {
    match s
    case Fire => [Event("firewater.demand.active", Critical, "pump.confirm_run"),
                  Event("edge.vision.fire", Critical, "nvr.clip")]
    case LowTank => [Event("firewater.tank.low", Critical, "tank.fill")]
    case LowPress => [Event("firewater.pressure.low", Critical, "pump.start"),
                      Event("firewater.flow.detected", Warning, "zone.investigate")]
    case PumpFail => [Event("firewater.pressure.low", Critical, "pump.start"),
                      Event("firewater.pump.fail", Critical, "pump.start_backup"),
                      Event("firewater.flow.detected", Warning, "zone.investigate")]
    case Valve => [Event("firewater.valve.closed", Critical, "valve.open")]
    case Leak => [Event("firewater.flow.detected", Warning, "zone.investigate"),
                  Event("firewater.leak.acoustic", Critical, "zone.investigate")]
    case Freeze => [Event("firewater.freeze.risk", Critical, "room.heat")]
    case Hydrant => [Event("firewater.hydrant.tamper", Critical, "security.dispatch"),
                     Event("edge.access.breach", Critical, "security.dispatch")]
    case Comms => [Event("edge.comms.down", Critical, "radio.failover"),
                   Event("edge.runtime.down", Warning, "k3s.recover")]
    case Vision => [Event("edge.vision.fire", Critical, "nvr.clip")]
    case Power => [Event("edge.power.fail", Critical, "genset.start")]
    case Gas => [Event("edge.gas.alarm", Critical, "siren.on")]
    case Plc => [Event("edge.control.fault", Critical, "plc.reset")]
    case Other(_) => []
  }

  /** The metrics each scenario pushes past their limits. */
  function Upset(s: Scenario): set<Metric> {
    match s
    case Fire => {HeaderLps, CamAiFire}
    case LowTank => {}
    case LowPress => {RiserBar, JockeyBar, HeaderLps}
    case PumpFail => {RiserBar, HeaderLps}
    case Valve => {ValveOpen}
    case Leak => {HeaderLps, LeakDb}
    case Freeze => {RoomC}
    case Hydrant => {Tamper, NfcLock, DoorSecure}
    case Comms => {MqttOk, CellRsrp, K3sOk}
    case Vision => {CamAiFire}
    case Power => {MainsOk, UpsSoc}
    case Gas => {LelPct, CoPpm}
    case Plc => {PlcOk, FacpOk}
    case Other(_) => {}
  }

  /** The metrics whose limit the healthy overrides decide; the base loop decides the others. */
  predicate Overridden(m: Metric) {
    m == RiserBar || m == JockeyBar || m == ValveOpen || m == HeaderLps || m == RoomC || m == Tamper || m == FloodMm
    || m == DieselPct
  }

  lemma OverrideIsQuiet(m: Metric, base: real, x: real)
    requires Overridden(m) && Gives(HealthyWrite(m), base, x)
    ensures !PastLimit(m, x)
  {
  }

  /** The flags and the levels that Derive reports and only the base loop writes. */
  predicate BaseFlag(m: Metric) {
    m == MqttOk || m == MainsOk || m == PlcOk || m == FacpOk || m == NfcLock || m == DoorSecure || m == K3sOk
  }

  predicate BaseLevel(m: Metric) {
    m == LeakDb || m == CamAiFire || m == CellRsrp || m == UpsSoc || m == LelPct || m == CoPpm || m == PumpVib
  }

  lemma FlagIsQuiet(m: Metric, x: real)
    requires BaseFlag(m) && Gives(Some(BaseWrite(m)), 0.0, x)
    ensures !PastLimit(m, x)
  {
  }

  lemma LevelIsQuiet(m: Metric, x: real)
    requires BaseLevel(m) && Gives(Some(BaseWrite(m)), 0.0, x)
    ensures !PastLimit(m, x)
  {
  }

  lemma OtherIsQuiet(m: Metric, x: real)
    requires !Overridden(m) && !BaseFlag(m) && !BaseLevel(m)
    ensures !PastLimit(m, x)
  {
  }

  lemma OnlyTheBaseWrites(m: Metric)
    requires BaseFlag(m) || BaseLevel(m)
    ensures HealthyWrite(m) == None
  {
  }

  lemma HealthyIsQuiet(m: Metric, base: real, x: real)
    requires Gives(Some(BaseWrite(m)), 0.0, base) && Gives(HealthyWrite(m), base, x)
    ensures !PastLimit(m, x)
  {
    if Overridden(m) {
      OverrideIsQuiet(m, base, x);
    } else if BaseFlag(m) {
      OnlyTheBaseWrites(m);
      FlagIsQuiet(m, base);
    } else if BaseLevel(m) {
      OnlyTheBaseWrites(m);
      LevelIsQuiet(m, base);
    } else {
      OtherIsQuiet(m, x);
    }
  }

  predicate WaterScene(s: Scenario) { s.Fire? || s.LowTank? || s.LowPress? || s.PumpFail? || s.Valve? || s.Leak? }

  lemma WaterSceneUpsets(s: Scenario, m: Metric, healthy: real, x: real)
    requires WaterScene(s) && !PastLimit(m, healthy) && Gives(SceneWrite(s, m), healthy, x)
    ensures PastLimit(m, x) <==> m in Upset(s)
  {
  }

  predicate SensorScene(s: Scenario) { s.Freeze? || s.Hydrant? || s.Comms? || s.Vision? }

  lemma SensorSceneUpsets(s: Scenario, m: Metric, healthy: real, x: real)
    requires SensorScene(s) && !PastLimit(m, healthy) && Gives(SceneWrite(s, m), healthy, x)
    ensures PastLimit(m, x) <==> m in Upset(s)
  {
  }

  lemma OtherSceneUpsets(s: Scenario, m: Metric, healthy: real, x: real)
    requires !WaterScene(s) && !SensorScene(s) && !PastLimit(m, healthy) && Gives(SceneWrite(s, m), healthy, x)
    ensures PastLimit(m, x) <==> m in Upset(s)
  {
  }

  /** Whatever the draws, the metrics past their limits after a step are exactly those the
      scenario upsets. */
  lemma LimitsAreExact(s: Scenario, rng: Draws)
    ensures Alarming(Stepped(s, rng)) == Upset(s)
  {
    forall m: Metric ensures PastLimit(m, Get(Stepped(s, rng), m)) <==> m in Upset(s) {
      var base := Written(BaseWrite(m), 0.0, rng(Base)(m));
      StepAt(s, m, rng);
      DrawsStayInRange(Some(BaseWrite(m)), 0.0, rng(Base)(m));
      DrawsStayInRange(HealthyWrite(m), base, rng(Healthy)(m));
      HealthyIsQuiet(m, base, HealthyValue(m, rng));
      DrawsStayInRange(SceneWrite(s, m), HealthyValue(m, rng), rng(Scene)(m));
      if WaterScene(s) {
        WaterSceneUpsets(s, m, HealthyValue(m, rng), StepValue(s, m, rng));
      } else if SensorScene(s) {
        SensorSceneUpsets(s, m, HealthyValue(m, rng), StepValue(s, m, rng));
      } else {
        OtherSceneUpsets(s, m, HealthyValue(m, rng), StepValue(s, m, rng));
      }
    }
  }

  lemma SceneTank(s: Scenario, healthy: real, level: real)
    requires 85.7 <= healthy <= 86.3 && Gives(SceneWrite(s, TankLevel), healthy, level)
    ensures if s == LowTank then 21.6 <= level <= 22.4 else 85.0 < level <= 86.3
  {
  }

  /** The drain that the fire and leak scenarios apply never accumulates: every step starts
      from a freshly filled tank, so their floors of 35 and 40 per cent are never met, and
      the tank is low exactly under its own scenario. */
  lemma TankNeverDrains(s: Scenario, rng: Draws)
    ensures var level := Get(Stepped(s, rng), TankLevel);
      if s == LowTank then 21.6 <= level <= 22.4 else 85.0 < level <= 86.3
  {
    var base := Written(BaseWrite(TankLevel), 0.0, rng(Base)(TankLevel));
    StepAt(s, TankLevel, rng);
    DrawsStayInRange(HealthyWrite(TankLevel), base, rng(Healthy)(TankLevel));
    DrawsStayInRange(SceneWrite(s, TankLevel), HealthyValue(TankLevel, rng), rng(Scene)(TankLevel));
    SceneTank(s, HealthyValue(TankLevel, rng), StepValue(s, TankLevel, rng));
  }

  function WaterExpected(s: Scenario): seq<Event> {
    if s.LowPress? || s.PumpFail? || s.Valve? then Expected(s)
    else if s.Fire? || s.Leak? then [Expected(s)[0]]
    else []
  }

  function RoomExpected(s: Scenario): seq<Event> {
    if s.Freeze? then Expected(s)
    else if s.Hydrant? then [Expected(s)[0]]
    else if s.Leak? then [Expected(s)[1]]
    else []
  }

  function EdgeExpected(s: Scenario): seq<Event> {
    if s.Vision? || s.Power? || s.Gas? then Expected(s)
    else if s.Comms? then [Expected(s)[0]]
    else if s.Fire? then [Expected(s)[1]]
    else []
  }

  function ControlExpected(s: Scenario): seq<Event> {
    if s.Plc? then Expected(s)
    else if s.Hydrant? || s.Comms? then [Expected(s)[1]]
    else []
  }

  lemma WaterReported(s: Scenario)
    ensures WaterEvents(s, Upset(s)) == WaterExpected(s)
  {
  }

  lemma RoomReported(s: Scenario)
    ensures RoomEvents(Upset(s)) == RoomExpected(s)
  {
  }

  lemma EdgeReported(s: Scenario)
    ensures EdgeEvents(Upset(s)) == EdgeExpected(s)
  {
  }

  lemma ControlReported(s: Scenario)
    ensures ControlEvents(Upset(s)) == ControlExpected(s)
  {
  }

  lemma ExpectedSplits(s: Scenario)
    ensures Expected(s) == (if s == LowTank then Expected(s) else [])
                         + WaterExpected(s) + RoomExpected(s) + EdgeExpected(s) + ControlExpected(s)
  {
  }

  /** Whatever the draws, one step under a scenario makes Derive emit exactly that scenario's
      events, in order and each once; "normal" and unknown names give none. */
  lemma ScenarioIsExact(s: Scenario, rng: Draws)
    ensures Derive(s, Stepped(s, rng)) == Expected(s)
  {
    LimitsAreExact(s, rng);
    TankNeverDrains(s, rng);
    WaterReported(s);
    RoomReported(s);
    EdgeReported(s);
    ControlReported(s);
    ExpectedSplits(s);
  }

  /** The expected events have pairwise different types, and none is informational. */
  lemma ExpectedAreDistinct(s: Scenario, i: nat, j: nat)
    requires i < j < |Expected(s)|
    ensures Expected(s)[i].typ != Expected(s)[j].typ
    ensures Expected(s)[i].severity != Info && Expected(s)[j].severity != Info
  {
  }

  // ---- the engine ----------------------------------------------------------------------

  const TELEMETRY := Event("telemetry.sample", Info, "")

  class Engine {
    var scenario: Scenario
    var values: Values
    var pumpOn: bool
    var telemetry: bool
    var alerts: bool
    const book: Book

    constructor ()
      ensures scenario == Other("normal") && values == DefaultValues() && !pumpOn
      ensures telemetry && !alerts && fresh(book) && book.active == map[]
    {
      scenario := Other("normal");
      values := DefaultValues();
      pumpOn, telemetry, alerts := false, true, false;
      book := new Book();
    }

    method SetScenario(s: Scenario)
      modifies this`scenario
      ensures scenario == s
    {
      scenario := s;
    }

    /** The base loop and its overrides; they write every metric, so nothing of the values
        before survives. */
    method SetHealthy(rng: Draws)
      modifies this`values
      ensures values == HealthyFleet(rng)
    {
      FullTableForgets(values, BASE_TABLE, rng(Base));
      values := Apply(values, BASE_TABLE, rng(Base));
      values := Apply(values, HEALTHY_TABLE, rng(Healthy));
    }

    /** One plant step: a healthy fleet, then the scenario. */
    method Step(rng: Draws)
      modifies this`values, this`pumpOn
      ensures values == Stepped(scenario, rng) && pumpOn == PumpAfter(scenario, old(pumpOn))
    {
      SetHealthy(rng);
      values := Apply(values, SceneTable(scenario), rng(Scene));
      match scenario {
        case Fire => pumpOn := true;
        case PumpFail => pumpOn := false;
        case Other(_) => pumpOn := false;
        case _ =>
      }
    }

    /** A step and the events derived from its values: exactly the scenario's. */
    method StepAndDerive(rng: Draws) returns (evts: seq<Event>)
      modifies this`values, this`pumpOn
      ensures values == Stepped(scenario, rng) && pumpOn == PumpAfter(scenario, old(pumpOn))
      ensures evts == Expected(scenario)
    {
      Step(rng);
      evts := Derive(scenario, values);
      ScenarioIsExact(scenario, rng);
    }

    /** A tick: step the plant, derive its events, let the book ingest them, and hand them on.
        Whatever was in the values before, the book gets exactly the scenario's events. */
    method Tick(rng: Draws, now: int) returns (published: seq<Event>, alarms: seq<Alarm>)
      modifies this`values, this`pumpOn, book
      ensures values == Stepped(scenario, rng) && pumpOn == PumpAfter(scenario, old(pumpOn))
      ensures book.active == Ingested(old(book.active), Expected(scenario), now)
      ensures telemetry && !alerts ==>
        published == [Event("telemetry.sample", Info, "")] + Expected(scenario)
      ensures !telemetry || alerts ==> published == Expected(scenario)
      ensures |alarms| == |book.active| && forall a :: a in alarms <==> a in book.active.Values
    {
      var evts := StepAndDerive(rng);
      book.Ingest(evts, now);
      alarms := book.List();
      published := Publish(evts);
    }

    /** What the subscriber gets: telemetry first unless switched off, alarms only if asked. */
    method Publish(evts: seq<Event>) returns (published: seq<Event>)
      requires evts == Expected(scenario)
      ensures telemetry && !alerts ==>
        published == [Event("telemetry.sample", Info, "")] + Expected(scenario)
      ensures !telemetry || alerts ==> published == Expected(scenario)
    {
      published := evts;
      if telemetry && !alerts {
        published := [TELEMETRY] + published;
      }
      if alerts {
        ExpectedHasNoInfo(scenario);
        assert forall i :: 0 <= i < |published| ==> published[i] in published;
        KeepAll(published, Serious(published));
        published := WithoutInfo(published);
      }
    }
  }

  /** Which events are not informational. */
  function Serious(evts: seq<Event>): (mask: seq<bool>)
    ensures |mask| == |evts| && forall i :: 0 <= i < |mask| ==> (mask[i] <==> evts[i].severity != Info)
  {
    seq(|evts|, i requires 0 <= i < |evts| => evts[i].severity != Info)
  }

  /** Filtering in place keeps exactly the events that are not informational, in their order. */
  method WithoutInfo(evts: seq<Event>) returns (kept: seq<Event>)
    ensures kept == Keep(evts, Serious(evts))
  {
    kept := [];
    for i := 0 to |evts|
      invariant kept == Keep(evts[..i], Serious(evts)[..i])
    {
      KeepSnoc(evts[..i], Serious(evts)[..i], evts[i], Serious(evts)[i]);
      assert evts[..i + 1] == evts[..i] + [evts[i]];
      assert Serious(evts)[..i + 1] == Serious(evts)[..i] + [Serious(evts)[i]];
      if evts[i].severity != Info {
        kept := kept + [evts[i]];
      }
    }
    assert evts[..|evts|] == evts && Serious(evts)[..|evts|] == Serious(evts);
  }

  lemma ExpectedHasNoInfo(s: Scenario)
    ensures forall e :: e in Expected(s) ==> e.severity != Info
  {
  }
}
