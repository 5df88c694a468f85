/** The shipped cause-and-effect matrix of internal/firewater/interlock.go, lines 30-43, what its
    texts mean, what it decides, and the verification of lines 108-131. */
module ShippedRules {
  import opened Common
  import opened Interlock
  import opened Conditions
  import opened RuleTable

  function CommandName(c: Command): string {
    match c
    case PumpStart => "pump.start"
    case PumpStartBackup => "pump.start_backup"
    case ValveOpen => "valve.open"
    case RoomHeat => "room.heat"
    case GensetStart => "genset.start"
    case SirenOn => "siren.on"
    case Unlisted(name) => name
  }

  function Inhibit(id: string, command: Command, when: string, reason: string): Rule {
    Rule(id, command, when, true, reason, "", "", "")
  }

  function Action(id: string, command: Command, when: string, act: string, verify: string): Rule {
    Rule(id, command, when, false, "", act, verify, "/v1/firewater/verify?command=" + CommandName(command))
  }

  const MATRIX: seq<Rule> := [
    Inhibit("inh-tank", PumpStart, "tank_level < 20", "tank below 20% — dry-run inhibit"),
    Inhibit("inh-valve", PumpStart, "valve_open < 20", "zone OS&Y shut — riser will not charge"),
    Inhibit("inh-plc", PumpStart, "plc_ok < 1", "PLC heartbeat lost"),
    Inhibit("inh-lel", PumpStart, "lel_pct >= 20", "pump-room LEL high — isolate ignition sources"),
    Action("act-pump", PumpStart, "riser_bar < 4", "start main + confirm jockey", "header_lps > 5 AND riser_bar > 6"),
    Inhibit("act-backup", PumpStartBackup, "diesel_ecu < 1", "diesel ECU not ready"),
    Action("act-valve", ValveOpen, "valve_open < 20", "drive OS&Y open", "valve_open >= 90"),
    Action("act-heat", RoomHeat, "room_c <= 4", "energize heater", "heater_on == 1"),
    Action("act-gen", GensetStart, "mains_ok < 1", "start standby genset", "gen_run == 1"),
    Action("act-siren", SirenOn, "cam_ai_fire >= 70 OR lel_pct >= 20", "yard siren + strobe", "siren_on == 1")]

  // ---- what the texts mean -------------------------------------------------------------

  lemma Prints1()
    ensures NumberText(1, 0) == "1"
  {
    assert Decimal(0, 0) == "";
    assert Decimal(1, 1) == "1";
  }

  lemma Prints4()
    ensures NumberText(4, 0) == "4"
  {
    assert Decimal(0, 0) == "";
    assert Decimal(4, 1) == "4";
  }

  lemma Prints20()
    ensures NumberText(20, 0) == "20"
  {
    assert Decimal(0, 0) == "";
    assert Decimal(2, 0) == "2";
    assert Decimal(20, 1) == "20";
  }

  lemma Prints70()
    ensures NumberText(70, 0) == "70"
  {
    assert Decimal(0, 0) == "";
    assert Decimal(7, 0) == "7";
    assert Decimal(70, 1) == "70";
  }

  /** A name as the shipped texts have them. */
  predicate Name(s: string) { s != "" && forall i :: 0 <= i < |s| ==> '!' <= s[i] <= '~' }

  lemma NameIsPlain(metric: string, op: Op, n: nat)
    requires Name(metric)
    ensures Valid(Atom(metric, op, n, 0)) && Ascii(metric)
  {
  }

  /** The comparison an operator stands for. */
  lemma WholeTerm(metric: string, op: Op, n: nat, v: Values)
    ensures True(Atom(metric, op, n, 0), v) <==> Compare(OpText(op), Get(v, metric), n as real)
  {
    assert Pow10(0) == 1;
  }

  /** A condition written as one term means that term. */
  lemma OneTerm(text: string, metric: string, op: Op, n: nat, digits: string, v: Values)
    requires Name(metric) && NumberText(n, 0) == digits && text == metric + " " + OpText(op) + " " + digits
    ensures Holds(text, v) <==> Compare(OpText(op), Get(v, metric), n as real)
  {
    var a := Atom(metric, op, n, 0);
    NameIsPlain(metric, op, n);
    WholeTerm(metric, op, n, v);
    assert Texts([a]) == [AtomText(a)] && Join([AtomText(a)]) == AtomText(a);
    PrintedConditionKeepsMeaning([a], v);
    assert [a][0] == a;
  }

  /** A condition written as two terms means that one of them holds. */
  lemma TwoTerms(text: string, t0: string, t1: string, a: Atom, b: Atom, v: Values)
    requires Valid(a) && Ascii(a.metric) && Valid(b) && Ascii(b.metric)
    requires t0 == AtomText(a) && t1 == AtomText(b) && text == t0 + SEP + t1
    ensures Holds(text, v) <==> True(a, v) || True(b, v)
  {
    var ts := [t0, t1];
    assert Texts([a, b]) == ts && ts[1..] == [t1] && Join(ts) == t0 + SEP + t1;
    PrintedConditionKeepsMeaning([a, b], v);
    assert [a, b][0] == a && [a, b][1] == b;
  }

  lemma NamesOfConditions()
    ensures Name("tank_level") && Name("valve_open") && Name("plc_ok") && Name("lel_pct") && Name("riser_bar")
  {
  }

  lemma OtherNames()
    ensures Name("diesel_ecu") && Name("room_c") && Name("mains_ok") && Name("cam_ai_fire")
  {
  }

  lemma TankText(v: Values)
    ensures Holds("tank_level < 20", v) <==> Get(v, "tank_level") < 20.0
  {
    NamesOfConditions();
    Prints20();
    OneTerm("tank_level < 20", "tank_level", Lt, 20, "20", v);
  }

  lemma ValveText(v: Values)
    ensures Holds("valve_open < 20", v) <==> Get(v, "valve_open") < 20.0
  {
    NamesOfConditions();
    Prints20();
    OneTerm("valve_open < 20", "valve_open", Lt, 20, "20", v);
  }

  lemma PlcText(v: Values)
    ensures Holds("plc_ok < 1", v) <==> Get(v, "plc_ok") < 1.0
  {
    NamesOfConditions();
    Prints1();
    OneTerm("plc_ok < 1", "plc_ok", Lt, 1, "1", v);
  }

  lemma LelText(v: Values)
    ensures Holds("lel_pct >= 20", v) <==> Get(v, "lel_pct") >= 20.0
  {
    NamesOfConditions();
    Prints20();
    OneTerm("lel_pct >= 20", "lel_pct", Ge, 20, "20", v);
  }

  lemma RiserText(v: Values)
    ensures Holds("riser_bar < 4", v) <==> Get(v, "riser_bar") < 4.0
  {
    NamesOfConditions();
    Prints4();
    OneTerm("riser_bar < 4", "riser_bar", Lt, 4, "4", v);
  }

  lemma DieselText(v: Values)
    ensures Holds("diesel_ecu < 1", v) <==> Get(v, "diesel_ecu") < 1.0
  {
    OtherNames();
    Prints1();
    OneTerm("diesel_ecu < 1", "diesel_ecu", Lt, 1, "1", v);
  }

  lemma RoomText(v: Values)
    ensures Holds("room_c <= 4", v) <==> Get(v, "room_c") <= 4.0
  {
    OtherNames();
    Prints4();
    OneTerm("room_c <= 4", "room_c", Le, 4, "4", v);
  }

  lemma MainsText(v: Values)
    ensures Holds("mains_ok < 1", v) <==> Get(v, "mains_ok") < 1.0
  {
    OtherNames();
    Prints1();
    OneTerm("mains_ok < 1", "mains_ok", Lt, 1, "1", v);
  }

  lemma CamTerm()
    ensures AtomText(Atom("cam_ai_fire", Ge, 70, 0)) == "cam_ai_fire >= 70"
  {
    Prints70();
  }

  lemma LelTerm()
    ensures AtomText(Atom("lel_pct", Ge, 20, 0)) == "lel_pct >= 20"
  {
    Prints20();
  }

  lemma SirenJoins()
    ensures "cam_ai_fire >= 70 OR lel_pct >= 20" == "cam_ai_fire >= 70" + SEP + "lel_pct >= 20"
  {
  }

  lemma SirenText(v: Values)
    ensures Holds("cam_ai_fire >= 70 OR lel_pct >= 20", v)
       <==> Get(v, "cam_ai_fire") >= 70.0 || Get(v, "lel_pct") >= 20.0
  {
    NamesOfConditions();
    OtherNames();
    CamTerm();
    LelTerm();
    SirenJoins();
    NameIsPlain("cam_ai_fire", Ge, 70);
    NameIsPlain("lel_pct", Ge, 20);
    WholeTerm("cam_ai_fire", Ge, 70, v);
    WholeTerm("lel_pct", Ge, 20, v);
    TwoTerms("cam_ai_fire >= 70 OR lel_pct >= 20", "cam_ai_fire >= 70", "lel_pct >= 20",
             Atom("cam_ai_fire", Ge, 70, 0), Atom("lel_pct", Ge, 20, 0), v);
  }

  // ---- what the matrix decides ---------------------------------------------------------

  function CommandAt(k: nat): Command {
    match k
    case 5 => PumpStartBackup case 6 => ValveOpen case 7 => RoomHeat case 8 => GensetStart case 9 => SirenOn
    case _ => PumpStart
  }

  /** The condition of row k. */
  predicate Condition(k: nat, v: Values) {
    match k
    case 0 => Get(v, "tank_level") < 20.0
    case 1 => Get(v, "valve_open") < 20.0
    case 2 => Get(v, "plc_ok") < 1.0
    case 3 => Get(v, "lel_pct") >= 20.0
    case 4 => Get(v, "riser_bar") < 4.0
    case 5 => Get(v, "diesel_ecu") < 1.0
    case 6 => Get(v, "valve_open") < 20.0
    case 7 => Get(v, "room_c") <= 4.0
    case 8 => Get(v, "mains_ok") < 1.0
    case _ => Get(v, "cam_ai_fire") >= 70.0 || Get(v, "lel_pct") >= 20.0
  }

  function WhenAt(k: nat): string {
    match k
    case 0 => "tank_level < 20" case 1 => "valve_open < 20" case 2 => "plc_ok < 1" case 3 => "lel_pct >= 20"
    case 4 => "riser_bar < 4" case 5 => "diesel_ecu < 1" case 6 => "valve_open < 20" case 7 => "room_c <= 4"
    case 8 => "mains_ok < 1" case _ => "cam_ai_fire >= 70 OR lel_pct >= 20"
  }

  lemma RowTexts(k: nat)
    requires k < |MATRIX|
    ensures MATRIX[k].command == CommandAt(k) && MATRIX[k].when == WhenAt(k)
  {
  }

  lemma ConditionOfText(k: nat, v: Values)
    requires k < 10
    ensures Holds(WhenAt(k), v) <==> Condition(k, v)
  {
    match k {
      case 0 => TankText(v);
      case 1 => ValveText(v);
      case 2 => PlcText(v);
      case 3 => LelText(v);
      case 4 => RiserText(v);
      case 5 => DieselText(v);
      case 6 => ValveText(v);
      case 7 => RoomText(v);
      case 8 => MainsText(v);
      case _ => SirenText(v);
    }
  }

  lemma RowFires(k: nat, cmd: Command, v: Values)
    requires k < |MATRIX|
    ensures Fires(MATRIX[k], cmd, v) <==> cmd == CommandAt(k) && Condition(k, v)
  {
    RowTexts(k);
    ConditionOfText(k, v);
  }

  /** The reason of row k, which inhibits unless it has none. */
  function ReasonAt(k: nat): Option<string> {
    match k
    case 0 => Some("tank below 20% — dry-run inhibit")
    case 1 => Some("zone OS&Y shut — riser will not charge")
    case 2 => Some("PLC heartbeat lost")
    case 3 => Some("pump-room LEL high — isolate ignition sources")
    case 5 => Some("diesel ECU not ready")
    case _ => None
  }

  lemma RowInhibits(k: nat)
    requires k < |MATRIX|
    ensures MATRIX[k].inhibit == (ReasonAt(k) != None)
    ensures ReasonAt(k) != None ==> MATRIX[k].reason == ReasonAt(k).value
  {
  }

  /** What the first k rows refuse with. */
  function ReasonsUpto(k: nat, cmd: Command, v: Values): seq<string> {
    if k == 0 then []
    else
      ReasonsUpto(k - 1, cmd, v)
      + (if ReasonAt(k - 1) != None && cmd == CommandAt(k - 1) && Condition(k - 1, v)
         then [ReasonAt(k - 1).value] else [])
  }

  lemma ReasonsOfFront(rules: seq<Rule>, k: nat, cmd: Command, v: Values)
    requires 0 < k <= |rules|
    ensures Reasons(rules[..k], cmd, v) == Reasons(rules[..k - 1], cmd, v)
      + (if Fires(rules[k - 1], cmd, v) && rules[k - 1].inhibit then [rules[k - 1].reason] else [])
  {
    assert rules[..k][..k - 1] == rules[..k - 1];
  }

  lemma RowReason(k: nat, cmd: Command, v: Values)
    requires k < |MATRIX|
    ensures (if Fires(MATRIX[k], cmd, v) && MATRIX[k].inhibit then [MATRIX[k].reason] else [])
         == if ReasonAt(k) != None && cmd == CommandAt(k) && Condition(k, v) then [ReasonAt(k).value] else []
  {
    RowFires(k, cmd, v);
    RowInhibits(k);
  }

  lemma {:induction false} RowsReason(k: nat, cmd: Command, v: Values)
    requires k <= |MATRIX|
    ensures Reasons(MATRIX[..k], cmd, v) == ReasonsUpto(k, cmd, v)
  {
    if k > 0 {
      RowsReason(k - 1, cmd, v);
      RowReason(k - 1, cmd, v);
      ReasonsOfFront(MATRIX, k, cmd, v);
    }
  }

  /** The reasons the shipped matrix gives, in order. */
  function Refusals(cmd: Command, v: Values): seq<string> {
    match cmd
    case PumpStart =>
      When(Get(v, "tank_level") < 20.0, "tank below 20% — dry-run inhibit")
      + When(Get(v, "valve_open") < 20.0, "zone OS&Y shut — riser will not charge")
      + When(Get(v, "plc_ok") < 1.0, "PLC heartbeat lost")
      + When(Get(v, "lel_pct") >= 20.0, "pump-room LEL high — isolate ignition sources")
    case PumpStartBackup => When(Get(v, "diesel_ecu") < 1.0, "diesel ECU not ready")
    case _ => []
  }

  lemma FirstRows(cmd: Command, v: Values)
    ensures ReasonsUpto(5, cmd, v) == if cmd == PumpStart then Refusals(cmd, v) else []
  {
    assert ReasonsUpto(1, cmd, v) == if cmd == PumpStart && Condition(0, v) then [ReasonAt(0).value] else [];
    assert ReasonsUpto(3, cmd, v) == ReasonsUpto(2, cmd, v)
      + (if cmd == PumpStart && Condition(2, v) then [ReasonAt(2).value] else []);
    assert ReasonsUpto(5, cmd, v) == ReasonsUpto(4, cmd, v);
  }

  lemma LaterRows(cmd: Command, v: Values)
    ensures ReasonsUpto(10, cmd, v) == if cmd == PumpStart then ReasonsUpto(5, cmd, v) else Refusals(cmd, v)
  {
    FirstRows(cmd, v);
    assert ReasonsUpto(7, cmd, v) == ReasonsUpto(6, cmd, v);
    assert ReasonsUpto(8, cmd, v) == ReasonsUpto(7, cmd, v);
    assert ReasonsUpto(9, cmd, v) == ReasonsUpto(8, cmd, v);
  }

  lemma MatrixRefusals(cmd: Command, v: Values)
    ensures Reasons(MATRIX, cmd, v) == Refusals(cmd, v)
    ensures Inhibited(MATRIX, cmd, v) <==> Refusals(cmd, v) != []
  {
    FirstRows(cmd, v);
    LaterRows(cmd, v);
    RowsReason(10, cmd, v);
    assert MATRIX[..10] == MATRIX;
    RefusalsHaveReasons(MATRIX, cmd, v);
  }

  /** The action row of a command, if it has one. */
  function ActionRow(cmd: Command): Option<nat> {
    match cmd
    case PumpStart => Some(4) case ValveOpen => Some(6) case RoomHeat => Some(7) case GensetStart => Some(8)
    case SirenOn => Some(9) case _ => None
  }

  lemma OneActionRow(cmd: Command, i: nat)
    requires i < 10 && cmd == CommandAt(i) && ReasonAt(i) == None
    ensures ActionRow(cmd) == Some(i)
  {
  }

  lemma OnlyItsRowActs(cmd: Command, v: Values, i: nat)
    requires i < |MATRIX| && Fires(MATRIX[i], cmd, v) && !MATRIX[i].inhibit
    ensures ActionRow(cmd) == Some(i) && Condition(i, v)
  {
    RowFires(i, cmd, v);
    RowInhibits(i);
    OneActionRow(cmd, i);
  }

  lemma ItsRowActs(cmd: Command, v: Values)
    requires ActionRow(cmd) != None && Condition(ActionRow(cmd).value, v)
    ensures LastAction(MATRIX, cmd, v, ActionRow(cmd).value)
  {
    var k := ActionRow(cmd).value;
    RowFires(k, cmd, v);
    RowInhibits(k);
    forall j | k < j < |MATRIX| && !MATRIX[j].inhibit
      ensures !Fires(MATRIX[j], cmd, v)
    {
      if Fires(MATRIX[j], cmd, v) {
        OnlyItsRowActs(cmd, v, j);
      }
    }
  }

  /** What the shipped matrix tells an operator to do and how to check it. */
  function Order(cmd: Command, v: Values): (string, string) {
    match cmd
    case PumpStart =>
      if Get(v, "riser_bar") < 4.0 then ("start main + confirm jockey", "header_lps > 5 AND riser_bar > 6")
      else ("", "")
    case ValveOpen => if Get(v, "valve_open") < 20.0 then ("drive OS&Y open", "valve_open >= 90") else ("", "")
    case RoomHeat => if Get(v, "room_c") <= 4.0 then ("energize heater", "heater_on == 1") else ("", "")
    case GensetStart => if Get(v, "mains_ok") < 1.0 then ("start standby genset", "gen_run == 1") else ("", "")
    case SirenOn =>
      if Get(v, "cam_ai_fire") >= 70.0 || Get(v, "lel_pct") >= 20.0 then ("yard siren + strobe", "siren_on == 1")
      else ("", "")
    case _ => ("", "")
  }

  lemma OrderIsItsRow(cmd: Command, v: Values)
    ensures ActionRow(cmd) == None || !Condition(ActionRow(cmd).value, v) ==> Order(cmd, v) == ("", "")
    ensures ActionRow(cmd) != None && Condition(ActionRow(cmd).value, v) ==>
      var r := MATRIX[ActionRow(cmd).value];
      && Order(cmd, v) == (r.act, r.verify) && r.act != ""
      && r.probeUrl == "/v1/firewater/verify?command=" + CommandName(cmd)
  {
    match cmd {
      case PumpStart => case PumpStartBackup => case ValveOpen => case RoomHeat => case GensetStart =>
      case SirenOn => case Unlisted(_) =>
    }
  }

  /** Evaluate as the program calls it: over the shipped matrix. */
  method Decide(cmd: Command, v: Values) returns (d: Decision)
    ensures d.command == cmd && d.ready == SystemReady(v)
    ensures d.reasons == Refusals(cmd, v) && (d.allowed <==> Refusals(cmd, v) == [])
    ensures d.verify == Order(cmd, v).1
    ensures d.act == if Order(cmd, v).0 == "" && !d.allowed then "inhibit" else Order(cmd, v).0
    ensures d.probeUrl == if Order(cmd, v).0 == "" then "" else "/v1/firewater/verify?command=" + CommandName(cmd)
  {
    d := Evaluate(MATRIX, cmd, v);
    MatrixRefusals(cmd, v);
    OrderIsItsRow(cmd, v);
    if ActionRow(cmd) != None && Condition(ActionRow(cmd).value, v) {
      ItsRowActs(cmd, v);
    } else {
      forall i | 0 <= i < |MATRIX| && Fires(MATRIX[i], cmd, v)
        ensures MATRIX[i].inhibit
      {
        if !MATRIX[i].inhibit {
          OnlyItsRowActs(cmd, v, i);
        }
      }
    }
  }

  /** Under the shipped matrix the main pump may start exactly when its four interlocks are
      clear; a ready system clears them. */
  lemma PumpMayStartExactlyWhen(v: Values)
    ensures !Inhibited(MATRIX, PumpStart, v)
       <==> Get(v, "tank_level") >= 20.0 && Get(v, "valve_open") >= 20.0
            && Get(v, "plc_ok") >= 1.0 && Get(v, "lel_pct") < 20.0
    ensures SystemReady(v) ==> !Inhibited(MATRIX, PumpStart, v)
  {
    MatrixRefusals(PumpStart, v);
  }

  // ---- checking that a command worked --------------------------------------------------

  /** The program's own check of a command. */
  predicate Verified(cmd: Command, v: Values) {
    match cmd
    case PumpStart => Get(v, "header_lps") > 5.0 && Get(v, "riser_bar") > 6.0
    case ValveOpen => Get(v, "valve_open") >= 90.0
    case RoomHeat => Get(v, "heater_on") >= 1.0
    case GensetStart => Get(v, "gen_run") >= 1.0
    case SirenOn => Get(v, "siren_on") >= 1.0
    case _ => false
  }

  lemma NamesOfChecks()
    ensures Name("valve_open") && Name("heater_on") && Name("gen_run") && Name("siren_on")
  {
  }

  lemma Prints90()
    ensures NumberText(90, 0) == "90"
  {
    assert Decimal(0, 0) == "";
    assert Decimal(9, 0) == "9";
    assert Decimal(90, 1) == "90";
  }

  lemma Prints5()
    ensures NumberText(5, 0) == "5"
  {
    assert Decimal(0, 0) == "";
    assert Decimal(5, 1) == "5";
  }

  lemma OpenedText(v: Values)
    ensures Holds("valve_open >= 90", v) <==> Get(v, "valve_open") >= 90.0
  {
    NamesOfChecks();
    Prints90();
    OneTerm("valve_open >= 90", "valve_open", Ge, 90, "90", v);
  }

  lemma HeatedText(v: Values)
    ensures Holds("heater_on == 1", v) <==> Get(v, "heater_on") == 1.0
  {
    NamesOfChecks();
    Prints1();
    OneTerm("heater_on == 1", "heater_on", Eq, 1, "1", v);
  }

  lemma RunningText(v: Values)
    ensures Holds("gen_run == 1", v) <==> Get(v, "gen_run") == 1.0
  {
    NamesOfChecks();
    Prints1();
    OneTerm("gen_run == 1", "gen_run", Eq, 1, "1", v);
  }

  lemma SoundingText(v: Values)
    ensures Holds("siren_on == 1", v) <==> Get(v, "siren_on") == 1.0
  {
    NamesOfChecks();
    Prints1();
    OneTerm("siren_on == 1", "siren_on", Eq, 1, "1", v);
  }

  const AND_REST := Layout("", " ", " ", " AND riser_bar > 6")

  lemma RestFits()
    ensures Fits(AND_REST)
  {
  }

  lemma PumpTextIsSpread()
    ensures "header_lps > 5 AND riser_bar > 6" == Spread(AND_REST, "header_lps", ">", "5")
  {
  }

  lemma PumpTextHasNoO()
    ensures 'O' !in "header_lps > 5 AND riser_bar > 6"
  {
  }

  lemma SpreadTermHolds(text: string, l: Layout, a: Atom, v: Values)
    requires Fits(l) && Valid(a) && Ascii(a.metric) && 'O' !in text && text != ""
    requires text == Spread(l, a.metric, OpText(a.op), NumberText(a.mantissa, a.scale))
    ensures Holds(text, v) <==> True(a, v)
  {
    SpreadTermReadsBack(l, a, v);
    EncodedKeepsExactlyAscii(a.metric);
    NoOIsClean(text);
    CleanTextHolds(text, v);
  }

  /** The language has no AND: a scan of the pump's check stops at its first number. */
  lemma PumpText(v: Values)
    ensures Holds("header_lps > 5 AND riser_bar > 6", v) <==> Get(v, "header_lps") > 5.0
  {
    RestFits();
    PumpTextIsSpread();
    PumpTextHasNoO();
    Prints5();
    NameIsPlain("header_lps", Gt, 5);
    WholeTerm("header_lps", Gt, 5, v);
    SpreadTermHolds("header_lps > 5 AND riser_bar > 6", AND_REST, Atom("header_lps", Gt, 5, 0), v);
  }

  /** The text the matrix gives for the check of each action. */
  function CheckText(cmd: Command): string {
    match cmd
    case PumpStart => "header_lps > 5 AND riser_bar > 6"
    case ValveOpen => "valve_open >= 90"
    case RoomHeat => "heater_on == 1"
    case GensetStart => "gen_run == 1"
    case SirenOn => "siren_on == 1"
    case _ => ""
  }

  /** Read in the matrix's own language, a check's text agrees with the program's check exactly
      when: for the pump, not only its flow but no pressure is there; for the flags, they do not
      exceed one; for the valve, always. */
  lemma CheckTextAgreesExactlyWhen(cmd: Command, v: Values)
    requires CheckText(cmd) != ""
    ensures (Holds(CheckText(cmd), v) <==> Verified(cmd, v))
       <==> match cmd
            case PumpStart => !(Get(v, "header_lps") > 5.0 && Get(v, "riser_bar") <= 6.0)
            case RoomHeat => Get(v, "heater_on") <= 1.0
            case GensetStart => Get(v, "gen_run") <= 1.0
            case SirenOn => Get(v, "siren_on") <= 1.0
            case _ => true
  {
    match cmd {
      case PumpStart => PumpText(v);
      case ValveOpen => OpenedText(v);
      case RoomHeat => HeatedText(v);
      case GensetStart => RunningText(v);
      case SirenOn => SoundingText(v);
      case _ =>
    }
  }

  /** Whenever the matrix gives a check, it is that text. */
  lemma OrdersCheckText(cmd: Command, v: Values)
    ensures Order(cmd, v).1 == "" || Order(cmd, v).1 == CheckText(cmd)
  {
  }
}
