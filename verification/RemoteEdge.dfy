/** The simulated remote edge of internal/remoteedge/sim.go: what a step under each scenario
    makes its snapshot's link mode and Derive emit. Metric names are an enumeration; the
    start/stop protocol of the same engine is in Ticker. */
module RemoteEdge {
  import opened Common
  import opened Simulator

  datatype Metric =
    | BeaconOk | BeaconCpu | CruiserGpu | CruiserVram | CruiserC | CruiserKw | K3sOk | StarlinkSnr | StarlinkObstr
    | StarlinkMs | SdwanOk | LteRsrp | P5gUe | P5gPrb | DroneBatt | DroneAlt | DroneLink | CamFps | PpeScore
    | Intrude | WxC | FloodMm | GpsFix | FwReady

  datatype Scenario =
    | SatDown | Offline | GpuHot | DronePatrol | Intrusion | Flood | P5gLoad | Other(name: string)

  type Values = map<Metric, real>

  /** One independent draw a metric and step. */
  type Draws = Metric -> Draw

  datatype Event = Event(typ: string, severity: string, command: string, device: string)

  function Nominal(m: Metric): real {
    match m
    case BeaconOk => 1.0 case BeaconCpu => 28.0 case CruiserGpu => 41.0 case CruiserVram => 36.0
    case CruiserC => 27.0 case CruiserKw => 18.0 case K3sOk => 1.0 case StarlinkSnr => 8.4
    case StarlinkObstr => 2.0 case StarlinkMs => 42.0 case SdwanOk => 1.0 case LteRsrp => -92.0
    case P5gUe => 12.0 case P5gPrb => 22.0 case DroneBatt => 78.0 case DroneAlt => 0.0 case DroneLink => 1.0
    case CamFps => 18.0 case PpeScore => 96.0 case Intrude => 0.0 case WxC => 29.0 case FloodMm => 0.0
    case GpsFix => 1.0 case FwReady => 1.0
  }

  function BaseWrite(m: Metric): Write { Jitter(Nominal(m), 0.08 * (1.0 + Nominal(m))) }

  /** Metrics written back to a fixed value after the jittered loop. */
  function FixedWrite(m: Metric): Option<Write> {
    match m
    case BeaconOk => Some(Put(1.0)) case K3sOk => Some(Put(1.0)) case SdwanOk => Some(Put(1.0))
    case DroneLink => Some(Put(1.0)) case GpsFix => Some(Put(1.0)) case FwReady => Some(Put(1.0))
    case Intrude => Some(Put(0.0)) case DroneAlt => Some(Put(0.0))
    case _ => None
  }

  /** What a scenario writes over the base values. */
  function SceneWrite(s: Scenario, m: Metric): Option<Write> {
    match s
    case SatDown => (match m
      case StarlinkSnr => Some(Put(1.1))
      case StarlinkObstr => Some(Put(64.0))
      case StarlinkMs => Some(Put(420.0))
      case SdwanOk => Some(Put(0.0))
      case _ => None)
    case Offline => (match m
      case StarlinkSnr => Some(Put(0.0))
      case SdwanOk => Some(Put(0.0))
      case LteRsrp => Some(Put(-128.0))
      case K3sOk => Some(Put(1.0))
      case _ => None)
    case GpuHot => (match m
      case CruiserGpu => Some(Put(96.0))
      case CruiserVram => Some(Put(91.0))
      case CruiserC => Some(Put(48.0))
      case CruiserKw => Some(Put(54.0))
      case _ => None)
    case DronePatrol => (match m
      case DroneAlt => Some(Put(42.0))
      case DroneBatt => Some(Put(15.0))
      case DroneLink => Some(Put(1.0))
      case CamFps => Some(Put(22.0))
      case _ => None)
    case Intrusion => (match m
      case Intrude => Some(Put(1.0))
      case PpeScore => Some(Put(41.0))
      case CamFps => Some(Put(24.0))
      case DroneAlt => Some(Put(28.0))
      case _ => None)
    case Flood => (match m
      case FloodMm => Some(Put(180.0))
      case FwReady => Some(Put(0.0))
      case GpsFix => Some(Put(1.0))
      case _ => None)
    case P5gLoad => (match m
      case P5gUe => Some(Put(48.0))
      case P5gPrb => Some(Put(88.0))
      case _ => None)
    case Other(_) => None
  }

  const BASE_TABLE: map<Metric, Write> := map m: Metric | true :: BaseWrite(m)

  const FIXED_TABLE: map<Metric, Write> := map m: Metric | FixedWrite(m) != None :: FixedWrite(m).value

  function SceneTable(s: Scenario): map<Metric, Write> {
    map m: Metric | SceneWrite(s, m) != None :: SceneWrite(s, m).value
  }

  function Stepped(s: Scenario, rng: Draws): Values {
    Applied(Applied(Applied(map[], BASE_TABLE, rng), FIXED_TABLE, rng), SceneTable(s), rng)
  }

  function BaseValue(m: Metric, r: Draw): real { Under(FixedWrite(m), Written(BaseWrite(m), 0.0, r), r) }

  lemma StepAt(s: Scenario, m: Metric, rng: Draws)
    ensures Get(Stepped(s, rng), m) == Under(SceneWrite(s, m), BaseValue(m, rng(m)), rng(m))
  {
    var base := Applied(map[], BASE_TABLE, rng);
    AppliedAt(map[], BASE_TABLE, rng, m);
    AppliedAt(base, FIXED_TABLE, rng, m);
    AppliedAt(Applied(base, FIXED_TABLE, rng), SceneTable(s), rng, m);
  }

  datatype Link = Starlink | Lte | NoLink

  /** The link mode of a snapshot; the second test overrides the first. */
  function LinkMode(v: Values): Link {
    if Get(v, SdwanOk) < 1.0 && Get(v, StarlinkSnr) < 2.0 && Get(v, LteRsrp) <= -120.0 then NoLink
    else if Get(v, StarlinkSnr) < 2.0 && Get(v, LteRsrp) > -120.0 then Lte
    else Starlink
  }

  /** The limits past which Derive reports a metric. */
  predicate PastLimit(m: Metric, x: real) {
    match m
    case StarlinkSnr => x < 3.0
    case CruiserC => x > 45.0
    case CruiserGpu => x > 92.0
    case Intrude => x >= 1.0
    case FloodMm => x > 50.0
    case DroneBatt => x < 20.0
    case DroneAlt => x > 5.0
    case _ => false
  }

  /** The metrics past their limits. */
  function Alarming(v: Values): set<Metric> { set m: Metric | PastLimit(m, Get(v, m)) }

  function Reported(link: Link, up: set<Metric>): seq<Event> {
    When(StarlinkSnr in up, Event("remote-edge.link.starlink.degraded", "critical", "sdwan.failover", "gal_sat"))
    + When(link == NoLink, Event("remote-edge.link.offline", "critical", "store_and_forward", "gal_beacon"))
    + When(CruiserC in up || CruiserGpu in up,
           Event("remote-edge.galleon.thermal", "warning", "workload.shed", "gal_gpu"))
    + When(Intrude in up, Event("remote-edge.vision.intrusion", "critical", "uav.launch", "cam_perim"))
    + When(FloodMm in up, Event("remote-edge.iot.flood", "critical", "site.evacuate_low", "wx_flood"))
    + When(DroneBatt in up && DroneAlt in up, Event("remote-edge.uav.rtb", "warning", "uav.rtl", "uav_yard"))
  }

  function Derive(v: Values): seq<Event> { Reported(LinkMode(v), Alarming(v)) }

  /** What each event reports, reading by reading. */
  predicate Reports(e: Event, v: Values) {
    || (e == Event("remote-edge.link.starlink.degraded", "critical", "sdwan.failover", "gal_sat")
        && Get(v, StarlinkSnr) < 3.0)
    || (e == Event("remote-edge.link.offline", "critical", "store_and_forward", "gal_beacon")
        && Get(v, SdwanOk) < 1.0 && Get(v, StarlinkSnr) < 2.0 && Get(v, LteRsrp) <= -120.0)
    || (e == Event("remote-edge.galleon.thermal", "warning", "workload.shed", "gal_gpu")
        && (Get(v, CruiserC) > 45.0 || Get(v, CruiserGpu) > 92.0))
    || (e == Event("remote-edge.vision.intrusion", "critical", "uav.launch", "cam_perim") && Get(v, Intrude) >= 1.0)
    || (e == Event("remote-edge.iot.flood", "critical", "site.evacuate_low", "wx_flood") && Get(v, FloodMm) > 50.0)
    || (e == Event("remote-edge.uav.rtb", "warning", "uav.rtl", "uav_yard")
        && Get(v, DroneBatt) < 20.0 && Get(v, DroneAlt) > 5.0)
  }

  lemma Limits(v: Values)
    ensures StarlinkSnr in Alarming(v) <==> Get(v, StarlinkSnr) < 3.0
    ensures CruiserC in Alarming(v) <==> Get(v, CruiserC) > 45.0
    ensures CruiserGpu in Alarming(v) <==> Get(v, CruiserGpu) > 92.0
    ensures Intrude in Alarming(v) <==> Get(v, Intrude) >= 1.0
  {
  }

  lemma OutdoorLimits(v: Values)
    ensures FloodMm in Alarming(v) <==> Get(v, FloodMm) > 50.0
    ensures DroneBatt in Alarming(v) <==> Get(v, DroneBatt) < 20.0
    ensures DroneAlt in Alarming(v) <==> Get(v, DroneAlt) > 5.0
  {
  }

  lemma AmongReported(e: Event, link: Link, up: set<Metric>)
    ensures e in Reported(link, up)
       <==> || (e == Event("remote-edge.link.starlink.degraded", "critical", "sdwan.failover", "gal_sat")
                && StarlinkSnr in up)
            || (e == Event("remote-edge.link.offline", "critical", "store_and_forward", "gal_beacon")
                && link == NoLink)
            || (e == Event("remote-edge.galleon.thermal", "warning", "workload.shed", "gal_gpu")
                && (CruiserC in up || CruiserGpu in up))
            || (e == Event("remote-edge.vision.intrusion", "critical", "uav.launch", "cam_perim") && Intrude in up)
            || (e == Event("remote-edge.iot.flood", "critical", "site.evacuate_low", "wx_flood") && FloodMm in up)
            || (e == Event("remote-edge.uav.rtb", "warning", "uav.rtl", "uav_yard")
                && DroneBatt in up && DroneAlt in up)
  {
  }

  /** For any values at all, Derive emits exactly the events whose readings call for them. */
  lemma DeriveReportsExactly(e: Event, v: Values)
    ensures e in Derive(v) <==> Reports(e, v)
  {
    AmongReported(e, LinkMode(v), Alarming(v));
    Limits(v);
    OutdoorLimits(v);
  }

  /** The events each scenario stands for. */
  function Expected(s: Scenario): seq<Event> {
    match s
    case SatDown => [Event("remote-edge.link.starlink.degraded", "critical", "sdwan.failover", "gal_sat")]
    case Offline => [Event("remote-edge.link.starlink.degraded", "critical", "sdwan.failover", "gal_sat"),
                     Event("remote-edge.link.offline", "critical", "store_and_forward", "gal_beacon")]
    case GpuHot => [Event("remote-edge.galleon.thermal", "warning", "workload.shed", "gal_gpu")]
    case DronePatrol => [Event("remote-edge.uav.rtb", "warning", "uav.rtl", "uav_yard")]
    case Intrusion => [Event("remote-edge.vision.intrusion", "critical", "uav.launch", "cam_perim")]
    case Flood => [Event("remote-edge.iot.flood", "critical", "site.evacuate_low", "wx_flood")]
    case P5gLoad => []
    case Other(_) => []
  }

  /** The metrics each scenario pushes past their limits. */
  function Upset(s: Scenario): set<Metric> {
    match s
    case SatDown => {StarlinkSnr}
    case Offline => {StarlinkSnr}
    case GpuHot => {CruiserC, CruiserGpu}
    case DronePatrol => {DroneBatt, DroneAlt}
    case Intrusion => {Intrude, DroneAlt}
    case Flood => {FloodMm}
    case P5gLoad => {}
    case Other(_) => {}
  }

  lemma BaseIsQuiet(m: Metric, jittered: real, x: real)
    requires Gives(Some(BaseWrite(m)), 0.0, jittered) && Gives(FixedWrite(m), jittered, x)
    ensures !PastLimit(m, x)
  {
  }

  lemma SceneUpsets(s: Scenario, m: Metric, before: real, x: real)
    requires !PastLimit(m, before) && Gives(SceneWrite(s, m), before, x)
    ensures PastLimit(m, x) <==> m in Upset(s)
  {
  }

  /** Whatever the draws, the metrics past their limits after a step are exactly those the
      scenario upsets. */
  lemma LimitsAreExact(s: Scenario, rng: Draws)
    ensures Alarming(Stepped(s, rng)) == Upset(s)
  {
    forall m: Metric ensures PastLimit(m, Get(Stepped(s, rng), m)) <==> m in Upset(s) {
      StepAt(s, m, rng);
      var jittered := Written(BaseWrite(m), 0.0, rng(m));
      DrawsStayInRange(Some(BaseWrite(m)), 0.0, rng(m));
      DrawsStayInRange(FixedWrite(m), jittered, rng(m));
      BaseIsQuiet(m, jittered, BaseValue(m, rng(m)));
      DrawsStayInRange(SceneWrite(s, m), BaseValue(m, rng(m)), rng(m));
      SceneUpsets(s, m, BaseValue(m, rng(m)), Under(SceneWrite(s, m), BaseValue(m, rng(m)), rng(m)));
    }
  }

  /** The link mode under each scenario: cellular when only the satellite is down. */
  function LinkUnder(s: Scenario): Link { if s == SatDown then Lte else if s == Offline then NoLink else Starlink }

  lemma SnrReading(s: Scenario, r: Draw)
    ensures Under(SceneWrite(s, StarlinkSnr), BaseValue(StarlinkSnr, r), r) < 2.0 <==> s == SatDown || s == Offline
  {
  }

  lemma RsrpReading(s: Scenario, r: Draw)
    ensures Under(SceneWrite(s, LteRsrp), BaseValue(LteRsrp, r), r) <= -120.0 <==> s == Offline
  {
  }

  lemma SdwanReading(s: Scenario, r: Draw)
    ensures Under(SceneWrite(s, SdwanOk), BaseValue(SdwanOk, r), r) < 1.0 <==> s == SatDown || s == Offline
  {
  }

  lemma LinkIsExact(s: Scenario, rng: Draws)
    ensures LinkMode(Stepped(s, rng)) == LinkUnder(s)
  {
    StepAt(s, StarlinkSnr, rng);
    SnrReading(s, rng(StarlinkSnr));
    StepAt(s, LteRsrp, rng);
    RsrpReading(s, rng(LteRsrp));
    StepAt(s, SdwanOk, rng);
    SdwanReading(s, rng(SdwanOk));
  }

  lemma UpsetIsReported(s: Scenario)
    ensures Reported(LinkUnder(s), Upset(s)) == Expected(s)
  {
  }

  /** Whatever the draws, a step under a scenario gives exactly that scenario's events. */
  lemma ScenarioIsExact(s: Scenario, rng: Draws)
    ensures Derive(Stepped(s, rng)) == Expected(s)
  {
    LimitsAreExact(s, rng);
    LinkIsExact(s, rng);
    UpsetIsReported(s);
  }

  class Engine {
    var scenario: Scenario
    var values: Values

    constructor ()
      ensures scenario == Other("nominal") && values == map m: Metric | true :: Nominal(m)
    {
      scenario := Other("nominal");
      values := map m: Metric | true :: Nominal(m);
    }

    /** SetScenario and Tick: whatever the values were, the snapshot gives the scenario's events. */
    method SetScenario(s: Scenario, rng: Draws) returns (snapshot: Values)
      modifies this
      ensures scenario == s && values == snapshot == Stepped(s, rng) && Derive(snapshot) == Expected(s)
    {
      scenario := s;
      snapshot := Tick(rng);
    }

    method Tick(rng: Draws) returns (snapshot: Values)
      modifies this`values
      ensures values == snapshot == Stepped(scenario, rng) && Derive(snapshot) == Expected(scenario)
    {
      FullTableForgets(values, BASE_TABLE, rng);
      values := Apply(values, BASE_TABLE, rng);
      values := Apply(values, FIXED_TABLE, rng);
      values := Apply(values, SceneTable(scenario), rng);
      ScenarioIsExact(scenario, rng);
      snapshot := values;
    }
  }
}
