/** The sensor catalogue of internal/firewater/fleet.go and the severity the snapshot shows for a
    reading (internal/firewater/engine.go, lines 433-468), against what the plant derives. */
module Catalogue {
  import opened Common
  import opened Alarms
  import opened Simulator
  import opened Plant

  /** Range and limits of a sensor; `invert` marks those on which a low reading is bad. */
  datatype Sensor = Sensor(min: real, max: real, warn: Option<real>, crit: Option<real>, invert: bool)

  function Limited(min: real, max: real, warn: real, crit: real, invert: bool): Sensor {
    Sensor(min, max, Some(warn), Some(crit), invert)
  }

  function Unlimited(min: real, max: real): Sensor { Sensor(min, max, None, None, false) }

  function Flag(): Sensor { Limited(0.0, 1.0, 1.0, 0.0, true) }

  function Def(m: Metric): Sensor {
    match m
    case TankLevel => Limited(0.0, 100.0, 50.0, 30.0, false)
    case JockeyBar => Limited(0.0, 16.0, 6.5, 5.5, true)
    case MainBar => Limited(0.0, 16.0, 6.0, 4.5, true)
    case RiserBar => Limited(0.0, 16.0, 5.5, 4.0, true)
    case HeaderLps => Unlimited(0.0, 80.0)
    case HydrantBar => Limited(0.0, 16.0, 4.5, 3.0, true)
    case RoomC => Limited(-5.0, 50.0, 8.0, 4.0, true)
    case FloodMm => Limited(0.0, 200.0, 10.0, 30.0, false)
    case DieselPct => Limited(0.0, 100.0, 40.0, 20.0, false)
    case PumpAmps => Unlimited(0.0, 220.0)
    case PumpVib => Limited(0.0, 20.0, 7.0, 11.0, false)
    case LeakDb => Limited(20.0, 100.0, 62.0, 75.0, false)
    case Turbidity => Limited(0.0, 40.0, 8.0, 15.0, false)
    case Tamper => Limited(0.0, 1.0, 1.0, 1.0, false)
    case ValveOpen => Limited(0.0, 100.0, 90.0, 20.0, false)
    case DelugeOpen => Unlimited(0.0, 100.0)
    case FoamPct => Limited(0.0, 100.0, 25.0, 10.0, false)
    case HeaterOn => Unlimited(0.0, 1.0)
    case SirenOn => Unlimited(0.0, 1.0)
    case VfdHz => Unlimited(0.0, 60.0)
    case PlcOk => Flag() case FacpOk => Flag() case DieselEcu => Flag() case IoPack => Flag()
    case EdgeCpu => Limited(0.0, 100.0, 80.0, 92.0, false)
    case EdgeTemp => Limited(20.0, 95.0, 75.0, 85.0, false)
    case ModelFps => Limited(0.0, 60.0, 8.0, 3.0, true)
    case K3sOk => Flag() case MqttOk => Flag() case OpcuaOk => Flag()
    case LoraRssi => Limited(-130.0, -40.0, -110.0, -120.0, true)
    case CellRsrp => Limited(-140.0, -50.0, -110.0, -120.0, true)
    case TsnOk => Flag() case PtpLock => Flag()
    case CamAiFire => Limited(0.0, 100.0, 40.0, 70.0, false)
    case CamSmoke => Limited(0.0, 100.0, 35.0, 60.0, false)
    case FlameIr => Limited(0.0, 100.0, 20.0, 50.0, false)
    case MainsOk => Flag()
    case UpsSoc => Limited(0.0, 100.0, 40.0, 20.0, false)
    case GenRun => Unlimited(0.0, 1.0)
    case PduW => Limited(0.0, 4000.0, 2800.0, 3500.0, false)
    case LelPct => Limited(0.0, 100.0, 10.0, 20.0, false)
    case CoPpm => Limited(0.0, 200.0, 35.0, 50.0, false)
    case SmokePct => Limited(0.0, 100.0, 8.0, 15.0, false)
    case DoorSecure => Flag() case NfcLock => Flag()
    case Occupancy => Unlimited(0.0, 20.0)
  }

  /** The severity shown for a reading. */
  function ShownBy(d: Sensor, m: Metric, x: real, s: Scenario): Severity {
    if m == Tamper then (if x >= 1.0 then Critical else Info)
    else if m == HeaderLps then (if s == Fire then Critical else if x > 1.2 then Warning else Info)
    else if d.crit == None then Info
    else if d.invert then
      if x <= d.crit.value then Critical
      else if d.warn != None && x <= d.warn.value then Warning
      else Info
    else
      if x <= d.crit.value then Critical
      else if d.warn != None && x <= d.warn.value then Warning
      else Info
  }

  function Shown(m: Metric, x: real, s: Scenario): Severity { ShownBy(Def(m), m, x, s) }

  /** The mark for sensors on which low is bad changes nothing: low is taken to be bad on all. */
  lemma DirectionIsIgnored(d: Sensor, m: Metric, x: real, s: Scenario)
    ensures ShownBy(d, m, x, s) == ShownBy(d.(invert := !d.invert), m, x, s)
  {
  }

  // ---- the shown severity against the derived events -----------------------------------

  /** Sensors on which the catalogue's critical limit is Derive's, from the same side. */
  predicate LowIsBad(m: Metric) {
    m == RiserBar || m == JockeyBar || m == RoomC || m == DieselPct || m == CellRsrp || m == UpsSoc || m == Tamper
  }

  predicate IsFlag(m: Metric) {
    m == MqttOk || m == MainsOk || m == PlcOk || m == FacpOk || m == NfcLock || m == DoorSecure || m == K3sOk
  }

  /** Sensors on which a high reading is bad, with the limit of both tables. */
  function HighLimit(m: Metric): Option<real> {
    match m
    case FloodMm => Some(30.0) case LeakDb => Some(75.0) case CamAiFire => Some(70.0) case LelPct => Some(20.0)
    case CoPpm => Some(50.0) case PumpVib => Some(11.0) case _ => None
  }

  /** The reading is shown critical exactly when Derive counts it as past its limit. */
  predicate Agrees(m: Metric, x: real, s: Scenario) { PastLimit(m, x) <==> Shown(m, x, s) == Critical }

  lemma LowAgrees(m: Metric, x: real, s: Scenario)
    requires LowIsBad(m)
    ensures Agrees(m, x, s)
  {
  }

  lemma FlagAgreesExactlyWhen(m: Metric, x: real, s: Scenario)
    requires IsFlag(m)
    ensures Agrees(m, x, s) <==> !(0.0 < x < 1.0)
  {
    UpIsFlag(m);
  }

  /** Where high is bad the two contradict each other at every reading but the limit itself. */
  lemma HighAgreesExactlyWhen(m: Metric, x: real, s: Scenario)
    requires HighLimit(m) != None
    ensures Agrees(m, x, s) <==> x == HighLimit(m).value
  {
  }

  lemma ValveAgreesExactlyWhen(x: real, s: Scenario)
    ensures Agrees(ValveOpen, x, s) <==> x != 20.0
  {
  }

  lemma FlowAgreesExactlyWhen(x: real, s: Scenario)
    ensures Agrees(HeaderLps, x, s) <==> (x > 1.2 <==> s == Fire)
  {
  }

  /** The tank's event has the severity its reading shows. */
  lemma TankEventIsAsShown(x: real, s: Scenario)
    ensures TankEvents(x) == [] <==> Shown(TankLevel, x, s) == Info
    ensures TankEvents(x) != [] ==> TankEvents(x)[0].severity == Shown(TankLevel, x, s)
  {
  }

  /** What a healthy plant shows. */
  function HealthyShows(m: Metric): Severity {
    match m
    case MainBar => Critical case FloodMm => Critical case PumpVib => Critical case LeakDb => Critical
    case Turbidity => Critical case EdgeCpu => Critical case EdgeTemp => Critical case CamAiFire => Critical
    case CamSmoke => Critical case FlameIr => Critical case PduW => Critical case LelPct => Critical
    case CoPpm => Critical case SmokePct => Critical
    case PlcOk => Warning case FacpOk => Warning case DieselEcu => Warning case IoPack => Warning
    case K3sOk => Warning case MqttOk => Warning case OpcuaOk => Warning case TsnOk => Warning
    case PtpLock => Warning case MainsOk => Warning case DoorSecure => Warning case NfcLock => Warning
    case _ => Info
  }

  lemma OverrideShows(m: Metric, base: real, x: real, name: string)
    requires HealthyWrite(m) != None && Gives(HealthyWrite(m), base, x)
    ensures Shown(m, x, Other(name)) == HealthyShows(m)
  {
  }

  /** The flags of a healthy plant. */
  predicate UpFlag(m: Metric) {
    m == PlcOk || m == FacpOk || m == DieselEcu || m == IoPack || m == K3sOk || m == MqttOk || m == OpcuaOk
    || m == TsnOk || m == PtpLock || m == MainsOk || m == DoorSecure || m == NfcLock
  }

  lemma PinnedIsUp(m: Metric)
    requires HealthyWrite(m) == None && Pinned(m) && m != HeaterOn && m != SirenOn && m != GenRun
    ensures UpFlag(m) && Default(m) == 1.0
  {
  }

  lemma UpIsFlag(m: Metric)
    requires UpFlag(m)
    ensures Def(m) == Flag()
  {
    match m {
      case PlcOk => case FacpOk => case DieselEcu => case IoPack => case K3sOk => case MqttOk => case _ =>
    }
  }

  lemma UpIsToShowWarning(m: Metric)
    requires UpFlag(m)
    ensures HealthyShows(m) == Warning
  {
  }

  lemma FlagShowsWarning(m: Metric, s: Scenario)
    requires m != Tamper && m != HeaderLps
    ensures ShownBy(Flag(), m, 1.0, s) == Warning
  {
  }

  lemma UpShowsWarning(m: Metric, s: Scenario)
    requires UpFlag(m)
    ensures Shown(m, 1.0, s) == Warning == HealthyShows(m)
  {
    UpIsFlag(m);
    UpIsToShowWarning(m);
    FlagShowsWarning(m, s);
  }

  lemma PinnedShows(m: Metric, x: real, name: string)
    requires HealthyWrite(m) == None && Pinned(m) && Gives(Some(BaseWrite(m)), 0.0, x)
    ensures Shown(m, x, Other(name)) == HealthyShows(m)
  {
    if m != HeaterOn && m != SirenOn && m != GenRun {
      PinnedIsUp(m);
      UpShowsWarning(m, Other(name));
    }
  }

  /** The jittered readings: of the edge box, of its radios and cameras, of the plant, of the
      room, and of its gas sensors. */
  predicate OfEdgeBox(m: Metric) {
    m == EdgeCpu || m == EdgeTemp || m == ModelFps || m == UpsSoc || m == PduW
  }

  predicate OfSenses(m: Metric) {
    m == LoraRssi || m == CellRsrp || m == CamAiFire || m == CamSmoke || m == FlameIr
  }

  predicate OfPlant(m: Metric) { m == PumpVib || m == LeakDb || m == DelugeOpen || m == FoamPct || m == VfdHz }

  predicate OfRoom(m: Metric) { m == SmokePct || m == Occupancy || m == Turbidity }

  predicate OfGas(m: Metric) { m == LelPct || m == CoPpm }

  lemma JitteredIsEither(m: Metric)
    requires HealthyWrite(m) == None && !Pinned(m)
    ensures OfEdgeBox(m) || OfSenses(m) || OfPlant(m) || OfRoom(m) || OfGas(m)
  {
  }

  /** A jittered reading lies within two per cent of its default and one more. */
  predicate Near(m: Metric, x: real) {
    var d, h := Default(m), 0.02 * (1.0 + Default(m));
    if d >= -1.0 then d - h <= x <= d + h else d + h <= x <= d - h
  }

  lemma JitterIsNear(m: Metric, x: real)
    requires !Pinned(m) && Gives(Some(BaseWrite(m)), 0.0, x)
    ensures Near(m, x)
  {
  }

  lemma EdgeBoxShows(m: Metric, x: real, name: string)
    requires OfEdgeBox(m) && Near(m, x)
    ensures Shown(m, x, Other(name)) == HealthyShows(m)
  {
    match m {
      case EdgeCpu => case EdgeTemp => case ModelFps => case UpsSoc => case _ =>
    }
  }

  lemma SensesShow(m: Metric, x: real, name: string)
    requires OfSenses(m) && Near(m, x)
    ensures Shown(m, x, Other(name)) == HealthyShows(m)
  {
    match m {
      case LoraRssi => case CellRsrp => case CamAiFire => case CamSmoke => case _ =>
    }
  }

  lemma GasShows(m: Metric, x: real, name: string)
    requires OfGas(m) && Near(m, x)
    ensures Shown(m, x, Other(name)) == HealthyShows(m)
  {
  }

  lemma RoomShows(m: Metric, x: real, name: string)
    requires OfRoom(m) && Near(m, x)
    ensures Shown(m, x, Other(name)) == HealthyShows(m)
  {
    match m {
      case SmokePct => case Occupancy => case _ =>
    }
  }

  lemma PlantShows(m: Metric, x: real, name: string)
    requires OfPlant(m) && Near(m, x)
    ensures Shown(m, x, Other(name)) == HealthyShows(m)
  {
    match m {
      case PumpVib => case LeakDb => case DelugeOpen => case FoamPct => case _ =>
    }
  }

  lemma HealthyReadingShows(m: Metric, base: real, x: real, name: string)
    requires Gives(Some(BaseWrite(m)), 0.0, base) && Gives(HealthyWrite(m), base, x)
    ensures Shown(m, x, Other(name)) == HealthyShows(m)
  {
    if HealthyWrite(m) != None {
      OverrideShows(m, base, x, name);
    } else if Pinned(m) {
      PinnedShows(m, x, name);
    } else {
      JitteredIsEither(m);
      JitterIsNear(m, x);
      if OfEdgeBox(m) {
        EdgeBoxShows(m, x, name);
      } else if OfSenses(m) {
        SensesShow(m, x, name);
      } else if OfRoom(m) {
        RoomShows(m, x, name);
      } else if OfGas(m) {
        GasShows(m, x, name);
      } else {
        PlantShows(m, x, name);
      }
    }
  }

  lemma QuietStep(m: Metric, rng: Draws, name: string)
    ensures StepValue(Other(name), m, rng) == HealthyValue(m, rng)
  {
    assert SceneWrite(Other(name), m) == None;
  }

  /** Whatever the draws, a healthy plant shows these severities: critical on fourteen readings
      on which it has nothing to report, a warning on every flag that is up. */
  lemma HealthyPlantShows(m: Metric, rng: Draws, name: string)
    ensures Shown(m, StepValue(Other(name), m, rng), Other(name)) == HealthyShows(m)
  {
    var base := Written(BaseWrite(m), 0.0, rng(Base)(m));
    QuietStep(m, rng, name);
    DrawsStayInRange(Some(BaseWrite(m)), 0.0, rng(Base)(m));
    DrawsStayInRange(HealthyWrite(m), base, rng(Healthy)(m));
    HealthyReadingShows(m, base, HealthyValue(m, rng), name);
  }

  // ---- readings against their ranges ---------------------------------------------------

  predicate InRange(m: Metric, x: real) { Def(m).min <= x <= Def(m).max }

  lemma OverrideInRange(m: Metric, base: real, x: real)
    requires HealthyWrite(m) != None && Gives(HealthyWrite(m), base, x)
    ensures InRange(m, x)
  {
  }

  lemma PinnedIsWithin(m: Metric)
    requires Pinned(m)
    ensures InRange(m, 0.0) && InRange(m, 1.0)
  {
    match m {
      case HeaterOn => case SirenOn => case GenRun => case Tamper =>
      case _ => UpIsFlag(m);
    }
  }

  lemma PinnedInRange(m: Metric, x: real)
    requires Pinned(m) && Gives(Some(BaseWrite(m)), 0.0, x)
    ensures InRange(m, x)
  {
    PinnedIsWithin(m);
  }

  lemma EdgeBoxInRange(m: Metric, x: real)
    requires OfEdgeBox(m) && Near(m, x)
    ensures InRange(m, x)
  {
    match m {
      case EdgeCpu => case EdgeTemp => case ModelFps => case UpsSoc => case _ =>
    }
  }

  lemma SensesInRange(m: Metric, x: real)
    requires OfSenses(m) && Near(m, x)
    ensures InRange(m, x)
  {
    match m {
      case LoraRssi => case CellRsrp => case CamAiFire => case CamSmoke => case _ =>
    }
  }

  lemma GasInRange(m: Metric, x: real)
    requires OfGas(m) && Near(m, x)
    ensures InRange(m, x)
  {
  }

  lemma RoomInRange(m: Metric, x: real)
    requires OfRoom(m) && Near(m, x)
    ensures InRange(m, x)
  {
    match m {
      case SmokePct => case Occupancy => case _ =>
    }
  }

  lemma PlantInRange(m: Metric, x: real)
    requires OfPlant(m) && m != DelugeOpen && Near(m, x)
    ensures InRange(m, x)
  {
    match m {
      case PumpVib => case LeakDb => case DelugeOpen => case FoamPct => case _ =>
    }
  }

  lemma HealthyInRange(m: Metric, base: real, x: real)
    requires m != DelugeOpen && Gives(Some(BaseWrite(m)), 0.0, base) && Gives(HealthyWrite(m), base, x)
    ensures InRange(m, x)
  {
    if HealthyWrite(m) != None {
      OverrideInRange(m, base, x);
    } else if Pinned(m) {
      PinnedInRange(m, x);
    } else {
      JitteredIsEither(m);
      JitterIsNear(m, x);
      if OfEdgeBox(m) {
        EdgeBoxInRange(m, x);
      } else if OfSenses(m) {
        SensesInRange(m, x);
      } else if OfRoom(m) {
        RoomInRange(m, x);
      } else if OfGas(m) {
        GasInRange(m, x);
      } else {
        PlantInRange(m, x);
      }
    }
  }

  lemma FireInRange(m: Metric, healthy: real, x: real)
    requires SceneWrite(Fire, m) != None && Gives(SceneWrite(Fire, m), healthy, x)
    requires m == TankLevel ==> healthy <= 100.0
    ensures InRange(m, x)
  {
    match m {
      case TankLevel => case JockeyBar => case MainBar => case RiserBar => case HeaderLps => case _ =>
    }
  }

  lemma WaterInRange(s: Scenario, m: Metric, healthy: real, x: real)
    requires WaterScene(s) && s != Fire && SceneWrite(s, m) != None && Gives(SceneWrite(s, m), healthy, x)
    requires m == TankLevel ==> healthy <= 100.0
    ensures InRange(m, x)
  {
  }

  lemma SensorInRange(s: Scenario, m: Metric, healthy: real, x: real)
    requires SensorScene(s) && SceneWrite(s, m) != None && Gives(SceneWrite(s, m), healthy, x)
    ensures InRange(m, x)
  {
  }

  lemma OtherInRange(s: Scenario, m: Metric, healthy: real, x: real)
    requires !WaterScene(s) && !SensorScene(s) && SceneWrite(s, m) != None && Gives(SceneWrite(s, m), healthy, x)
    ensures InRange(m, x)
  {
  }

  lemma SceneInRange(s: Scenario, m: Metric, healthy: real, x: real)
    requires SceneWrite(s, m) != None && Gives(SceneWrite(s, m), healthy, x)
    requires m == TankLevel ==> healthy <= 100.0
    ensures InRange(m, x)
  {
    if s == Fire {
      FireInRange(m, healthy, x);
    } else if WaterScene(s) {
      WaterInRange(s, m, healthy, x);
    } else if SensorScene(s) {
      SensorInRange(s, m, healthy, x);
    } else {
      OtherInRange(s, m, healthy, x);
    }
  }

  lemma StepInRange(s: Scenario, m: Metric, rng: Draws)
    requires m != DelugeOpen || s == Fire
    ensures InRange(m, StepValue(s, m, rng))
  {
    var base := Written(BaseWrite(m), 0.0, rng(Base)(m));
    DrawsStayInRange(Some(BaseWrite(m)), 0.0, rng(Base)(m));
    DrawsStayInRange(HealthyWrite(m), base, rng(Healthy)(m));
    DrawsStayInRange(SceneWrite(s, m), HealthyValue(m, rng), rng(Scene)(m));
    if m != DelugeOpen {
      HealthyInRange(m, base, HealthyValue(m, rng));
    }
    if SceneWrite(s, m) != None {
      SceneInRange(s, m, HealthyValue(m, rng), StepValue(s, m, rng));
    }
  }

  /** Every draw at the bottom of its interval. */
  function Lowest(): Draws { (phase: Phase) => (m: Metric) => 0.0 }

  lemma DelugeFallsBelow(s: Scenario)
    requires s != Fire
    ensures StepValue(s, DelugeOpen, Lowest()) == -0.02
  {
    assert SceneWrite(s, DelugeOpen) == None;
    assert BaseWrite(DelugeOpen) == Jitter(0.0, 0.04);
  }

  /** A reading stays within its catalogued range whatever the draws, under every scenario,
      except the deluge valve's, which is jittered around zero unless there is a fire. */
  lemma RangeIsKeptExactlyWhen(s: Scenario, m: Metric)
    ensures (forall rng: Draws :: InRange(m, StepValue(s, m, rng))) <==> m != DelugeOpen || s == Fire
  {
    if m != DelugeOpen || s == Fire {
      forall rng: Draws
        ensures InRange(m, StepValue(s, m, rng))
      {
        StepInRange(s, m, rng);
      }
    } else {
      DelugeFallsBelow(s);
    }
  }
}
