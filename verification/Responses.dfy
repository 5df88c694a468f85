/** The simulated plant against the shipped rules: whether a step of each scenario leaves the
    system ready, and what the commands are answered then
    (internal/firewater/engine.go and interlock.go). */
module Responses {
  import opened Common
  import opened Simulator
  import opened Plant
  import opened ShippedRules
  import Interlock
  import RuleTable
  import Alarms
  import Catalogue

  // ---- the readings a step can give ----------------------------------------------------

  predicate Chain(s: Scenario, m: Metric, base: real, healthy: real, x: real) {
    Gives(Some(BaseWrite(m)), 0.0, base) && Gives(HealthyWrite(m), base, healthy) && Gives(SceneWrite(s, m), healthy, x)
  }

  /** For some draws, a step can leave the metric at x. */
  ghost predicate Can(s: Scenario, m: Metric, x: real) {
    exists base: real, healthy: real :: Chain(s, m, base, healthy, x)
  }

  lemma StepCan(s: Scenario, m: Metric, rng: Draws)
    ensures Can(s, m, Get(Stepped(s, rng), m))
  {
    var base := Written(BaseWrite(m), 0.0, rng(Base)(m));
    StepAt(s, m, rng);
    DrawsStayInRange(Some(BaseWrite(m)), 0.0, rng(Base)(m));
    DrawsStayInRange(HealthyWrite(m), base, rng(Healthy)(m));
    DrawsStayInRange(SceneWrite(s, m), HealthyValue(m, rng), rng(Scene)(m));
    assert Chain(s, m, base, HealthyValue(m, rng), StepValue(s, m, rng));
  }

  /** The same readings under their names, as far as the rules look. */
  predicate SameReadings(w: Interlock.Values, v: Values) {
    && Get(w, "tank_level") == Get(v, TankLevel) && Get(w, "valve_open") == Get(v, Metric.ValveOpen)
    && Get(w, "plc_ok") == Get(v, PlcOk) && Get(w, "facp_ok") == Get(v, FacpOk)
    && Get(w, "mains_ok") == Get(v, MainsOk) && Get(w, "gen_run") == Get(v, GenRun)
    && Get(w, "nfc_lock") == Get(v, NfcLock) && Get(w, "lel_pct") == Get(v, LelPct)
    && Get(w, "riser_bar") == Get(v, RiserBar) && Get(w, "diesel_ecu") == Get(v, DieselEcu)
    && Get(w, "room_c") == Get(v, RoomC) && Get(w, "cam_ai_fire") == Get(v, CamAiFire)
    && Get(w, "header_lps") == Get(v, HeaderLps) && Get(w, "heater_on") == Get(v, HeaterOn)
    && Get(w, "siren_on") == Get(v, Metric.SirenOn)
  }

  /** Readings that a step under the scenario can give. */
  ghost predicate Shows(w: Interlock.Values, s: Scenario) {
    && Can(s, TankLevel, Get(w, "tank_level")) && Can(s, Metric.ValveOpen, Get(w, "valve_open"))
    && Can(s, PlcOk, Get(w, "plc_ok")) && Can(s, FacpOk, Get(w, "facp_ok"))
    && Can(s, MainsOk, Get(w, "mains_ok")) && Can(s, GenRun, Get(w, "gen_run"))
    && Can(s, NfcLock, Get(w, "nfc_lock")) && Can(s, LelPct, Get(w, "lel_pct"))
    && Can(s, RiserBar, Get(w, "riser_bar")) && Can(s, DieselEcu, Get(w, "diesel_ecu"))
    && Can(s, RoomC, Get(w, "room_c")) && Can(s, CamAiFire, Get(w, "cam_ai_fire"))
    && Can(s, HeaderLps, Get(w, "header_lps")) && Can(s, HeaterOn, Get(w, "heater_on"))
    && Can(s, Metric.SirenOn, Get(w, "siren_on"))
  }

  lemma EveryStepShows(s: Scenario, rng: Draws, w: Interlock.Values)
    requires SameReadings(w, Stepped(s, rng))
    ensures Shows(w, s)
  {
    StepCan(s, TankLevel, rng);
    StepCan(s, Metric.ValveOpen, rng);
    StepCan(s, PlcOk, rng);
    StepCan(s, FacpOk, rng);
    StepCan(s, MainsOk, rng);
    StepCan(s, GenRun, rng);
    StepCan(s, NfcLock, rng);
    StepCan(s, LelPct, rng);
    StepCan(s, RiserBar, rng);
    StepCan(s, DieselEcu, rng);
    StepCan(s, RoomC, rng);
    StepCan(s, CamAiFire, rng);
    StepCan(s, HeaderLps, rng);
    StepCan(s, HeaterOn, rng);
    StepCan(s, Metric.SirenOn, rng);
  }

  lemma ValveReads(s: Scenario, x: real)
    requires Can(s, Metric.ValveOpen, x)
    ensures x == if s == Valve then 0.0 else 100.0
  {
  }

  lemma PlcReads(s: Scenario, x: real)
    requires Can(s, PlcOk, x)
    ensures x == if s == Plc then 0.0 else 1.0
  {
  }

  lemma FacpReads(s: Scenario, x: real)
    requires Can(s, FacpOk, x)
    ensures x == if s == Plc then 0.0 else 1.0
  {
  }

  lemma MainsReads(s: Scenario, x: real)
    requires Can(s, MainsOk, x)
    ensures x == if s == Power then 0.0 else 1.0
  {
  }

  lemma GensetReads(s: Scenario, x: real)
    requires Can(s, GenRun, x)
    ensures x == if s == Power then 1.0 else 0.0
  {
  }

  lemma LockReads(s: Scenario, x: real)
    requires Can(s, NfcLock, x)
    ensures x == if s == Hydrant then 0.0 else 1.0
  {
  }

  lemma DieselReads(s: Scenario, x: real)
    requires Can(s, DieselEcu, x)
    ensures x == if s == PumpFail then 0.0 else 1.0
  {
  }

  lemma HeaterReads(s: Scenario, x: real)
    requires Can(s, HeaterOn, x)
    ensures x == if s == Freeze then 1.0 else 0.0
  {
  }

  lemma SirenReads(s: Scenario, x: real)
    requires Can(s, Metric.SirenOn, x)
    ensures x == if s == Fire || s == Gas then 1.0 else 0.0
  {
  }

  lemma TankReads(s: Scenario, x: real)
    requires Can(s, TankLevel, x)
    ensures if s == LowTank then 20.0 <= x < 50.0 else x >= 50.0
  {
  }

  lemma LelReads(s: Scenario, x: real)
    requires Can(s, LelPct, x)
    ensures if s == Gas then x >= 20.0 else x < 10.0
  {
  }

  lemma CameraReads(s: Scenario, x: real)
    requires Can(s, CamAiFire, x)
    ensures x >= 70.0 <==> s == Fire || s == Vision
  {
  }

  lemma RoomReads(s: Scenario, x: real)
    requires Can(s, RoomC, x)
    ensures x <= 4.0 <==> s == Freeze
  {
  }

  lemma RiserReads(s: Scenario, x: real)
    requires Can(s, RiserBar, x)
    ensures if s == LowPress || s == PumpFail then x < 4.0 else x > 6.0
  {
  }

  lemma HeaderReads(s: Scenario, x: real)
    requires Can(s, HeaderLps, x)
    ensures x > 5.0 <==> s == Fire || s == PumpFail
  {
  }

  // ---- what the rules answer -----------------------------------------------------------

  lemma ReadyOf(s: Scenario, w: Interlock.Values)
    requires Shows(w, s)
    ensures RuleTable.SystemReady(w) <==> !(s.LowTank? || s.Valve? || s.Hydrant? || s.Gas? || s.Plc?)
  {
    TankReads(s, Get(w, "tank_level"));
    ValveReads(s, Get(w, "valve_open"));
    PlcReads(s, Get(w, "plc_ok"));
    FacpReads(s, Get(w, "facp_ok"));
    MainsReads(s, Get(w, "mains_ok"));
    GensetReads(s, Get(w, "gen_run"));
    LockReads(s, Get(w, "nfc_lock"));
    LelReads(s, Get(w, "lel_pct"));
  }

  /** Why the rules refuse a command under a scenario. */
  function RefusedUnder(cmd: RuleTable.Command, s: Scenario): seq<string> {
    match cmd
    case PumpStart =>
      if s.Valve? then ["zone OS&Y shut — riser will not charge"]
      else if s.Plc? then ["PLC heartbeat lost"]
      else if s.Gas? then ["pump-room LEL high — isolate ignition sources"]
      else []
    case PumpStartBackup => if s.PumpFail? then ["diesel ECU not ready"] else []
    case _ => []
  }

  lemma PumpRefusalOf(s: Scenario, w: Interlock.Values)
    requires Shows(w, s)
    ensures Refusals(RuleTable.PumpStart, w) == RefusedUnder(RuleTable.PumpStart, s)
  {
    TankReads(s, Get(w, "tank_level"));
    ValveReads(s, Get(w, "valve_open"));
    PlcReads(s, Get(w, "plc_ok"));
    LelReads(s, Get(w, "lel_pct"));
  }

  lemma BackupRefusalOf(s: Scenario, w: Interlock.Values)
    requires Shows(w, s)
    ensures Refusals(RuleTable.PumpStartBackup, w) == RefusedUnder(RuleTable.PumpStartBackup, s)
  {
    DieselReads(s, Get(w, "diesel_ecu"));
  }

  lemma RefusalOf(cmd: RuleTable.Command, s: Scenario, w: Interlock.Values)
    requires Shows(w, s)
    ensures Refusals(cmd, w) == RefusedUnder(cmd, s)
  {
    match cmd {
      case PumpStart => PumpRefusalOf(s, w);
      case PumpStartBackup => BackupRefusalOf(s, w);
      case _ =>
    }
  }

  /** The scenarios under which the rules order a command. */
  predicate OrderedUnder(cmd: RuleTable.Command, s: Scenario) {
    match cmd
    case PumpStart => s.LowPress? || s.PumpFail?
    case ValveOpen => s.Valve?
    case RoomHeat => s.Freeze?
    case GensetStart => s.Power?
    case SirenOn => s.Fire? || s.Vision? || s.Gas?
    case _ => false
  }

  /** The readings for which the rules order a command. */
  predicate CallsFor(cmd: RuleTable.Command, w: Interlock.Values) {
    match cmd
    case PumpStart => Get(w, "riser_bar") < 4.0
    case ValveOpen => Get(w, "valve_open") < 20.0
    case RoomHeat => Get(w, "room_c") <= 4.0
    case GensetStart => Get(w, "mains_ok") < 1.0
    case SirenOn => Get(w, "cam_ai_fire") >= 70.0 || Get(w, "lel_pct") >= 20.0
    case _ => false
  }

  lemma OrderIsCalledFor(cmd: RuleTable.Command, w: Interlock.Values)
    ensures Order(cmd, w).0 != "" <==> CallsFor(cmd, w)
  {
  }

  lemma SirenOrder(s: Scenario, fire: real, lel: real)
    requires Can(s, CamAiFire, fire) && Can(s, LelPct, lel)
    ensures fire >= 70.0 || lel >= 20.0 <==> s.Fire? || s.Vision? || s.Gas?
  {
    CameraReads(s, fire);
    LelReads(s, lel);
  }

  lemma OrderOf(cmd: RuleTable.Command, s: Scenario, w: Interlock.Values)
    requires Shows(w, s)
    ensures CallsFor(cmd, w) <==> OrderedUnder(cmd, s)
  {
    match cmd {
      case PumpStart => RiserReads(s, Get(w, "riser_bar"));
      case ValveOpen => ValveReads(s, Get(w, "valve_open"));
      case RoomHeat => RoomReads(s, Get(w, "room_c"));
      case GensetStart => MainsReads(s, Get(w, "mains_ok"));
      case SirenOn => SirenOrder(s, Get(w, "cam_ai_fire"), Get(w, "lel_pct"));
      case _ =>
    }
  }

  /** The scenarios under which a command's check passes. */
  predicate VerifiedUnder(cmd: RuleTable.Command, s: Scenario) {
    match cmd
    case PumpStart => s.Fire?
    case ValveOpen => !s.Valve?
    case RoomHeat => s.Freeze?
    case GensetStart => s.Power?
    case SirenOn => s.Fire? || s.Gas?
    case _ => false
  }

  lemma CheckOf(cmd: RuleTable.Command, s: Scenario, w: Interlock.Values)
    requires Shows(w, s)
    ensures Verified(cmd, w) <==> VerifiedUnder(cmd, s)
  {
    match cmd {
      case PumpStart =>
        HeaderReads(s, Get(w, "header_lps"));
        RiserReads(s, Get(w, "riser_bar"));
      case ValveOpen => ValveReads(s, Get(w, "valve_open"));
      case RoomHeat => HeaterReads(s, Get(w, "heater_on"));
      case GensetStart => GensetReads(s, Get(w, "gen_run"));
      case SirenOn => SirenReads(s, Get(w, "siren_on"));
      case _ =>
    }
  }

  /** Whatever the draws, after a step under a scenario: five leave the system not ready; each
      command is refused for exactly these reasons; and it is ordered, and passes its check,
      under exactly these scenarios. */
  lemma ScenarioAnswers(cmd: RuleTable.Command, s: Scenario, rng: Draws, w: Interlock.Values)
    requires SameReadings(w, Stepped(s, rng))
    ensures RuleTable.SystemReady(w) <==> !(s.LowTank? || s.Valve? || s.Hydrant? || s.Gas? || s.Plc?)
    ensures Refusals(cmd, w) == RefusedUnder(cmd, s)
    ensures Order(cmd, w).0 != "" <==> OrderedUnder(cmd, s)
    ensures Verified(cmd, w) <==> VerifiedUnder(cmd, s)
  {
    EveryStepShows(s, rng, w);
    ReadyOf(s, w);
    RefusalOf(cmd, s, w);
    OrderIsCalledFor(cmd, w);
    OrderOf(cmd, s, w);
    CheckOf(cmd, s, w);
  }

  lemma OrderedPasses(cmd: RuleTable.Command, s: Scenario)
    requires OrderedUnder(cmd, s)
    ensures VerifiedUnder(cmd, s) <==> s.Freeze? || s.Power? || s.Fire? || s.Gas?
  {
  }

  /** An order passes its check at once under these four scenarios and never under the others:
      low pressure, a failed pump, a shut valve and a fire that only the cameras see. */
  lemma OrderPassesExactlyWhen(cmd: RuleTable.Command, s: Scenario, rng: Draws, w: Interlock.Values)
    requires SameReadings(w, Stepped(s, rng)) && Order(cmd, w).0 != ""
    ensures Verified(cmd, w) <==> s.Freeze? || s.Power? || s.Fire? || s.Gas?
  {
    ScenarioAnswers(cmd, s, rng, w);
    OrderedPasses(cmd, s);
  }

  /** Readiness, the catalogue and the checks agree: the system is ready exactly when the tank and
      the gas are clear of the warnings of their sensors, the valve passes its own check, the
      flags are up to theirs, and the mains or the genset supplies. */
  lemma ReadyIsAtTheWarnings(w: Interlock.Values)
    ensures RuleTable.SystemReady(w) <==>
      && Catalogue.Def(TankLevel).warn == Some(50.0) && Get(w, "tank_level") >= 50.0
      && Catalogue.Def(LelPct).warn == Some(10.0) && Get(w, "lel_pct") < 10.0
      && Catalogue.Def(Metric.ValveOpen).warn == Some(90.0) && Verified(RuleTable.ValveOpen, w)
      && Catalogue.Def(PlcOk).warn == Some(1.0) && Get(w, "plc_ok") >= 1.0
      && Catalogue.Def(FacpOk).warn == Some(1.0) && Get(w, "facp_ok") >= 1.0
      && Catalogue.Def(NfcLock).warn == Some(1.0) && Get(w, "nfc_lock") >= 1.0
      && Get(w, "mains_ok") + Get(w, "gen_run") >= 1.0
  {
  }

  predicate Calls(es: seq<Alarms.Event>, command: string) { exists k :: 0 <= k < |es| && es[k].command == command }

  lemma OnlyPumpFailCalls(s: Scenario)
    ensures Calls(Expected(s), "pump.start_backup") <==> s.PumpFail?
  {
    if s.PumpFail? {
      assert Expected(s)[1].command == "pump.start_backup";
    }
  }

  /** The backup pump is refused under exactly the scenario whose events call for it. */
  lemma BackupIsRefusedExactlyWhenCalled(s: Scenario, rng: Draws, w: Interlock.Values)
    requires SameReadings(w, Stepped(s, rng))
    ensures Refusals(RuleTable.PumpStartBackup, w) != [] <==> Calls(Derive(s, Stepped(s, rng)), "pump.start_backup")
  {
    ScenarioIsExact(s, rng);
    OnlyPumpFailCalls(s);
    ScenarioAnswers(RuleTable.PumpStartBackup, s, rng, w);
  }
}
