/** The simulated device fleet of internal/fleet/catalog.go and internal/fleet/sim.go: what a
    step under each scenario makes Derive emit. Device ids are an enumeration; the start/stop
    protocol of the same engine is in Ticker. */
module Fleet {
  import opened Common
  import opened Simulator
  import opened Rounding

  /** The catalog's ids, in its order. */
  datatype Metric =
    | AmrBatt | AmrPose | AgvLoad | ForkLoad | CobotNm | CraneT | UwbAnchor | BleTags | RfidGate | AnprOk
    | FaceGate | Epaper | Bodycam | HelmetGas | RadioRssi | WatchHr | PvKw | BessSoc | BessC | EvseKw | MeterKw
    | InverterOk | XfmrC | RmuOk | ChillerKw | AhuPa | VavPct | LiftOk | Lux | CracC | CduLpm | MbGw | OpcGw
    | PnGw | HartGw | DnpGw | IecGw | SparkGw | CncOk | CncOee | WeldA | ConvMps | PressBar | WwDo | WwCl2
    | WwTurb | WwInf | CpMv | AqiPm | CemsNox | NoiseDb | Seismic | Lightn | Hotbox | Axle | ReeferC | WbT
    | SoilVwc | SoilEc | LeafC | IrrOpen | HerdTag | AisOk | TideM | Iridium | DasOk | Elight | AedOk | ExtCap
    | Refuge | WifiAp | WifiCli | Otdr | GnssOk | HsmOk | CertDays | IdsEvt

  datatype Scenario = Blackout | Intrusion | Spill | AmrLost | OtStorm | Heatwave | Flood | Other(name: string)

  type Values = map<Metric, real>

  /** One independent draw a metric and step. */
  type Draws = Metric -> Draw

  datatype Event = Event(typ: string, severity: string, command: string, device: string)

  function Nominal(m: Metric): real {
    match m
    case AmrBatt => 72.0 case AmrPose => 1.0 case AgvLoad => 0.0 case ForkLoad => 0.0 case CobotNm => 12.0
    case CraneT => 0.0 case UwbAnchor => 1.0 case BleTags => 86.0 case RfidGate => 0.0 case AnprOk => 1.0
    case FaceGate => 1.0 case Epaper => 1.0 case Bodycam => 0.0 case HelmetGas => 0.3 case RadioRssi => -78.0
    case WatchHr => 78.0 case PvKw => 40.0 case BessSoc => 64.0 case BessC => 29.0 case EvseKw => 0.0
    case MeterKw => 120.0 case InverterOk => 1.0 case XfmrC => 58.0 case RmuOk => 1.0 case ChillerKw => 90.0
    case AhuPa => 80.0 case VavPct => 45.0 case LiftOk => 1.0 case Lux => 320.0 case CracC => 22.0
    case CduLpm => 18.0 case MbGw => 1.0 case OpcGw => 1.0 case PnGw => 1.0 case HartGw => 1.0 case DnpGw => 1.0
    case IecGw => 1.0 case SparkGw => 1.0 case CncOk => 1.0 case CncOee => 68.0 case WeldA => 0.0
    case ConvMps => 0.8 case PressBar => 0.0 case WwDo => 2.4 case WwCl2 => 0.6 case WwTurb => 1.2
    case WwInf => 210.0 case CpMv => -850.0 case AqiPm => 28.0 case CemsNox => 42.0 case NoiseDb => 61.0
    case Seismic => 0.2 case Lightn => 0.0 case Hotbox => 48.0 case Axle => 1.0 case ReeferC => -18.0
    case WbT => 0.0 case SoilVwc => 28.0 case SoilEc => 1.1 case LeafC => 26.0 case IrrOpen => 0.0
    case HerdTag => 120.0 case AisOk => 1.0 case TideM => 2.1 case Iridium => 1.0 case DasOk => 1.0
    case Elight => 1.0 case AedOk => 1.0 case ExtCap => 1.0 case Refuge => 1.0 case WifiAp => 1.0
    case WifiCli => 34.0 case Otdr => 0.0 case GnssOk => 1.0 case HsmOk => 1.0 case CertDays => 240.0
    case IdsEvt => 0.0
  }

  /** Devices whose unit is "flag" are copied without jitter. */
  predicate Flag(m: Metric) {
    m == AmrPose || m == UwbAnchor || m == AnprOk || m == FaceGate || m == Epaper || m == Bodycam
    || m == InverterOk || m == RmuOk || m == LiftOk || m == MbGw || m == OpcGw || m == PnGw || m == HartGw
    || m == DnpGw || m == IecGw || m == SparkGw || m == CncOk || m == Lightn || m == Axle || m == AisOk
    || m == Iridium || m == DasOk || m == Elight || m == AedOk || m == ExtCap || m == Refuge || m == WifiAp
    || m == Otdr || m == GnssOk || m == HsmOk
  }

  function BaseWrite(m: Metric): Write {
    if Flag(m) then Put(Nominal(m)) else Jitter(Nominal(m), 0.06 * (1.0 + Nominal(m)))
  }

  /** What a scenario writes over the base values. */
  function SceneWrite(s: Scenario, m: Metric): Option<Write> {
    match s
    case Blackout => (match m
      case InverterOk => Some(Put(0.0))
      case RmuOk => Some(Put(0.0))
      case WifiAp => Some(Put(0.0))
      case BessSoc => Some(Put(18.0))
      case PvKw => Some(Put(0.0))
      case _ => None)
    case Intrusion => (match m
      case AnprOk => Some(Put(1.0))
      case FaceGate => Some(Put(0.0))
      case Bodycam => Some(Put(1.0))
      case IdsEvt => Some(Put(12.0))
      case _ => None)
    case Spill => (match m
      case WwCl2 => Some(Put(0.05))
      case CemsNox => Some(Put(210.0))
      case AqiPm => Some(Put(160.0))
      case _ => None)
    case AmrLost => (match m
      case AmrPose => Some(Put(0.0))
      case AmrBatt => Some(Put(9.0))
      case UwbAnchor => Some(Put(0.0))
      case _ => None)
    case OtStorm => (match m
      case MbGw => Some(Put(0.0))
      case OpcGw => Some(Put(0.0))
      case PnGw => Some(Put(1.0))
      case IdsEvt => Some(Put(40.0))
      case _ => None)
    case Heatwave => (match m
      case CracC => Some(Put(31.0))
      case BessC => Some(Put(48.0))
      case XfmrC => Some(Put(98.0))
      case ReeferC => Some(Put(-8.0))
      case _ => None)
    case Flood => (match m
      case WwInf => Some(Put(720.0))
      case Elight => Some(Put(1.0))
      case Refuge => Some(Put(1.0))
      case _ => None)
    case Other(_) => None
  }

  const BASE_TABLE: map<Metric, Write> := map m: Metric | true :: BaseWrite(m)

  function SceneTable(s: Scenario): map<Metric, Write> {
    map m: Metric | SceneWrite(s, m) != None :: SceneWrite(s, m).value
  }

  function Stepped(s: Scenario, rng: Draws): Values {
    Applied(Applied(map[], BASE_TABLE, rng), SceneTable(s), rng)
  }

  function BaseValue(m: Metric, r: Draw): real { Written(BaseWrite(m), 0.0, r) }

  lemma StepAt(s: Scenario, m: Metric, rng: Draws)
    ensures Get(Stepped(s, rng), m) == Under(SceneWrite(s, m), BaseValue(m, rng(m)), rng(m))
  {
    AppliedAt(map[], BASE_TABLE, rng, m);
    AppliedAt(Applied(map[], BASE_TABLE, rng), SceneTable(s), rng, m);
  }

  /** The limits past which Derive reports a metric. */
  predicate PastLimit(m: Metric, x: real) {
    match m
    case InverterOk => x < 1.0
    case RmuOk => x < 1.0
    case AmrPose => x < 1.0
    case IdsEvt => x > 8.0
    case CemsNox => x > 150.0
    case AqiPm => x > 100.0
    case CracC => x > 28.0
    case FaceGate => x < 1.0
    case _ => false
  }

  /** The metrics past their limits. */
  function Alarming(v: Values): set<Metric> { set m: Metric | PastLimit(m, Get(v, m)) }

  function Reported(up: set<Metric>): seq<Event> {
    When(InverterOk in up || RmuOk in up, Event("fleet.power.island", "critical", "bess.discharge", "rmu_ok"))
    + When(AmrPose in up, Event("fleet.robot.lost", "critical", "amr.relocalize", "amr_pose"))
    + When(IdsEvt in up, Event("fleet.ot.ids", "warning", "ot.segment", "ids_evt"))
    + When(CemsNox in up || AqiPm in up, Event("fleet.env.exceedance", "critical", "process.curtail", "cems_nox"))
    + When(CracC in up, Event("fleet.dc.thermal", "warning", "workload.shed", "crac_c"))
    + When(FaceGate in up, Event("fleet.access.fault", "critical", "security.lockdown", "face_gate"))
  }

  function Derive(v: Values): seq<Event> { Reported(Alarming(v)) }

  /** What each event reports, reading by reading. */
  predicate Reports(e: Event, v: Values) {
    || (e == Event("fleet.power.island", "critical", "bess.discharge", "rmu_ok")
        && (Get(v, InverterOk) < 1.0 || Get(v, RmuOk) < 1.0))
    || (e == Event("fleet.robot.lost", "critical", "amr.relocalize", "amr_pose") && Get(v, AmrPose) < 1.0)
    || (e == Event("fleet.ot.ids", "warning", "ot.segment", "ids_evt") && Get(v, IdsEvt) > 8.0)
    || (e == Event("fleet.env.exceedance", "critical", "process.curtail", "cems_nox")
        && (Get(v, CemsNox) > 150.0 || Get(v, AqiPm) > 100.0))
    || (e == Event("fleet.dc.thermal", "warning", "workload.shed", "crac_c") && Get(v, CracC) > 28.0)
    || (e == Event("fleet.access.fault", "critical", "security.lockdown", "face_gate") && Get(v, FaceGate) < 1.0)
  }

  lemma Limits(v: Values)
    ensures InverterOk in Alarming(v) <==> Get(v, InverterOk) < 1.0
    ensures RmuOk in Alarming(v) <==> Get(v, RmuOk) < 1.0
    ensures AmrPose in Alarming(v) <==> Get(v, AmrPose) < 1.0
    ensures FaceGate in Alarming(v) <==> Get(v, FaceGate) < 1.0
  {
  }

  lemma UpperLimits(v: Values)
    ensures IdsEvt in Alarming(v) <==> Get(v, IdsEvt) > 8.0
    ensures CemsNox in Alarming(v) <==> Get(v, CemsNox) > 150.0
    ensures AqiPm in Alarming(v) <==> Get(v, AqiPm) > 100.0
    ensures CracC in Alarming(v) <==> Get(v, CracC) > 28.0
  {
  }

  lemma AmongReported(e: Event, up: set<Metric>)
    ensures e in Reported(up)
       <==> || (e == Event("fleet.power.island", "critical", "bess.discharge", "rmu_ok")
                && (InverterOk in up || RmuOk in up))
            || (e == Event("fleet.robot.lost", "critical", "amr.relocalize", "amr_pose") && AmrPose in up)
            || (e == Event("fleet.ot.ids", "warning", "ot.segment", "ids_evt") && IdsEvt in up)
            || (e == Event("fleet.env.exceedance", "critical", "process.curtail", "cems_nox")
                && (CemsNox in up || AqiPm in up))
            || (e == Event("fleet.dc.thermal", "warning", "workload.shed", "crac_c") && CracC in up)
            || (e == Event("fleet.access.fault", "critical", "security.lockdown", "face_gate") && FaceGate in up)
  {
  }

  /** For any values at all, Derive emits exactly the events whose readings call for them. */
  lemma DeriveReportsExactly(e: Event, v: Values)
    ensures e in Derive(v) <==> Reports(e, v)
  {
    AmongReported(e, Alarming(v));
    Limits(v);
    UpperLimits(v);
  }

  /** The events each scenario stands for. */
  function Expected(s: Scenario): seq<Event> {
    match s
    case Blackout => [Event("fleet.power.island", "critical", "bess.discharge", "rmu_ok")]
    case Intrusion => [Event("fleet.ot.ids", "warning", "ot.segment", "ids_evt"),
                       Event("fleet.access.fault", "critical", "security.lockdown", "face_gate")]
    case Spill => [Event("fleet.env.exceedance", "critical", "process.curtail", "cems_nox")]
    case AmrLost => [Event("fleet.robot.lost", "critical", "amr.relocalize", "amr_pose")]
    case OtStorm => [Event("fleet.ot.ids", "warning", "ot.segment", "ids_evt")]
    case Heatwave => [Event("fleet.dc.thermal", "warning", "workload.shed", "crac_c")]
    case Flood => []
    case Other(_) => []
  }

  /** The metrics each scenario pushes past their limits. */
  function Upset(s: Scenario): set<Metric> {
    match s
    case Blackout => {InverterOk, RmuOk}
    case Intrusion => {IdsEvt, FaceGate}
    case Spill => {CemsNox, AqiPm}
    case AmrLost => {AmrPose}
    case OtStorm => {IdsEvt}
    case Heatwave => {CracC}
    case Flood => {}
    case Other(_) => {}
  }

  lemma FlagIsQuiet(m: Metric, x: real)
    requires m == InverterOk || m == RmuOk || m == AmrPose || m == FaceGate
    requires Gives(Some(BaseWrite(m)), 0.0, x)
    ensures !PastLimit(m, x)
  {
  }

  lemma LevelIsQuiet(m: Metric, x: real)
    requires m == IdsEvt || m == CemsNox || m == AqiPm || m == CracC
    requires Gives(Some(BaseWrite(m)), 0.0, x)
    ensures !PastLimit(m, x)
  {
  }

  predicate PlantScene(s: Scenario) { s.Blackout? || s.Spill? || s.Heatwave? || s.Flood? }

  lemma PlantSceneUpsets(s: Scenario, m: Metric, before: real, x: real)
    requires PlantScene(s) && !PastLimit(m, before) && Gives(SceneWrite(s, m), before, x)
    ensures PastLimit(m, x) <==> m in Upset(s)
  {
  }

  lemma OtherSceneUpsets(s: Scenario, m: Metric, before: real, x: real)
    requires !PlantScene(s) && !PastLimit(m, before) && Gives(SceneWrite(s, m), before, x)
    ensures PastLimit(m, x) <==> m in Upset(s)
  {
  }

  /** Whatever the draws, the metrics past their limits after a step are exactly those the
      scenario upsets. */
  lemma LimitsAreExact(s: Scenario, rng: Draws)
    ensures Alarming(Stepped(s, rng)) == Upset(s)
  {
    forall m: Metric ensures PastLimit(m, Get(Stepped(s, rng), m)) <==> m in Upset(s) {
      StepAt(s, m, rng);
      DrawsStayInRange(Some(BaseWrite(m)), 0.0, rng(m));
      if m == InverterOk || m == RmuOk || m == AmrPose || m == FaceGate {
        FlagIsQuiet(m, BaseValue(m, rng(m)));
      } else if m == IdsEvt || m == CemsNox || m == AqiPm || m == CracC {
        LevelIsQuiet(m, BaseValue(m, rng(m)));
      }
      DrawsStayInRange(SceneWrite(s, m), BaseValue(m, rng(m)), rng(m));
      if PlantScene(s) {
        PlantSceneUpsets(s, m, BaseValue(m, rng(m)), Under(SceneWrite(s, m), BaseValue(m, rng(m)), rng(m)));
      } else {
        OtherSceneUpsets(s, m, BaseValue(m, rng(m)), Under(SceneWrite(s, m), BaseValue(m, rng(m)), rng(m)));
      }
    }
  }

  lemma UpsetIsReported(s: Scenario)
    ensures Reported(Upset(s)) == Expected(s)
  {
  }

  /** Whatever the draws, a step under a scenario gives exactly that scenario's events. */
  lemma ScenarioIsExact(s: Scenario, rng: Draws)
    ensures Derive(Stepped(s, rng)) == Expected(s)
  {
    LimitsAreExact(s, rng);
    UpsetIsReported(s);
  }

  lemma ReeferIsSet(r: Draw)
    ensures Under(SceneWrite(Heatwave, ReeferC), BaseValue(ReeferC, r), r) == -8.0
  {
  }

  lemma EightBelowIsShown()
    ensures Rounded(-8.0) == -7.99
  {
    HundredthsAreShown(-800);
  }

  /** The heatwave sets the reefer to -8 degrees and shows -7.99. */
  lemma ReeferIsShownTooWarm(rng: Draws)
    ensures Get(Stepped(Heatwave, rng), ReeferC) == -8.0
    ensures Rounded(Get(Stepped(Heatwave, rng), ReeferC)) == -7.99
  {
    StepAt(Heatwave, ReeferC, rng);
    ReeferIsSet(rng(ReeferC));
    EightBelowIsShown();
  }

  class Engine {
    var scenario: Scenario
    var values: Values

    constructor ()
      ensures scenario == Other("nominal") && values == map m: Metric | true :: Nominal(m)
    {
      scenario := Other("nominal");
      values := map m: Metric | true :: Nominal(m);
    }

    /** SetScenario and Tick: whatever the values were, the snapshot gives the scenario's events. */
    method SetScenario(s: Scenario, rng: Draws) returns (snapshot: Values)
      modifies this
      ensures scenario == s && values == snapshot == Stepped(s, rng) && Derive(snapshot) == Expected(s)
    {
      scenario := s;
      snapshot := Tick(rng);
    }

    method Tick(rng: Draws) returns (snapshot: Values)
      modifies this`values
      ensures values == snapshot == Stepped(scenario, rng) && Derive(snapshot) == Expected(scenario)
    {
      FullTableForgets(values, BASE_TABLE, rng);
      values := Apply(values, BASE_TABLE, rng);
      values := Apply(values, SceneTable(scenario), rng);
      ScenarioIsExact(scenario, rng);
      snapshot := values;
    }
  }
}
