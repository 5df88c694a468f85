/** Rule tables and readiness of internal/firewater/interlock.go, lines 9-106; the shipped table is
    in ShippedRules. */
module RuleTable {
  import opened Common
  import opened Interlock
  import opened Conditions

  /** The commands of the shipped table; any other name is unlisted. */
  datatype Command =
    | PumpStart | PumpStartBackup | ValveOpen | RoomHeat | GensetStart | SirenOn | Unlisted(name: string)

  datatype Rule = Rule(id: string, command: Command, when: string, inhibit: bool, reason: string,
                       act: string, verify: string, probeUrl: string)

  datatype Decision = Decision(command: Command, allowed: bool, reasons: seq<string>,
                               act: string, verify: string, probeUrl: string, ready: bool)

  // ---- evaluation ----------------------------------------------------------------------

  /** The rule speaks about the command and its condition holds. */
  predicate Fires(r: Rule, cmd: Command, v: Values) { r.command == cmd && Holds(r.when, v) }

  /** The reasons of the inhibits that fire, in table order. */
  function Reasons(rules: seq<Rule>, cmd: Command, v: Values): seq<string> {
    if rules == [] then []
    else
      var r := rules[|rules| - 1];
      Reasons(rules[..|rules| - 1], cmd, v) + (if Fires(r, cmd, v) && r.inhibit then [r.reason] else [])
  }

  ghost predicate Inhibited(rules: seq<Rule>, cmd: Command, v: Values) {
    exists i :: 0 <= i < |rules| && Fires(rules[i], cmd, v) && rules[i].inhibit
  }

  /** Rule i is the last action of the table that fires. */
  ghost predicate LastAction(rules: seq<Rule>, cmd: Command, v: Values, i: nat) {
    && i < |rules| && Fires(rules[i], cmd, v) && !rules[i].inhibit
    && forall j :: i < j < |rules| && !rules[j].inhibit ==> !Fires(rules[j], cmd, v)
  }

  /** What the command should do when `act` came from the table (or is empty). */
  function Effective(act: string, allowed: bool): string {
    if !allowed && act == "" then "inhibit" else act
  }

  /** The fold over a rule table; the program runs it over the shipped one. */
  method Evaluate(rules: seq<Rule>, cmd: Command, v: Values) returns (d: Decision)
    ensures d.command == cmd && d.ready == SystemReady(v)
    ensures d.allowed <==> !Inhibited(rules, cmd, v)
    ensures d.reasons == Reasons(rules, cmd, v)
    ensures forall i: nat :: LastAction(rules, cmd, v, i) ==>
      d.act == Effective(rules[i].act, d.allowed) && d.verify == rules[i].verify && d.probeUrl == rules[i].probeUrl
    ensures (forall i :: 0 <= i < |rules| && Fires(rules[i], cmd, v) ==> rules[i].inhibit) ==>
      d.act == Effective("", d.allowed) && d.verify == "" && d.probeUrl == ""
  {
    var ready := SystemReady(v);
    d := FoldTable(rules, cmd, v, ready);
    FoldAllMeans(rules, cmd, v, ready);
    FoldFrame(rules, cmd, v, ready);
    if !d.allowed && d.act == "" {
      d := d.(act := "inhibit");
    }
  }

  method FoldTable(rules: seq<Rule>, cmd: Command, v: Values, ready: bool) returns (d: Decision)
    ensures d == FoldAll(rules, cmd, v, ready)
  {
    d := Decision(cmd, true, [], "", "", "", ready);
    for n := 0 to |rules|
      invariant d == FoldAll(rules[..n], cmd, v, ready)
    {
      var r := rules[n];
      assert rules[..n + 1][..n] == rules[..n];
      if r.command != cmd {
        continue;
      }
      var fires := WhenTrue(r.when, v);
      if !fires {
        continue;
      }
      if r.inhibit {
        d := d.(allowed := false, reasons := d.reasons + [r.reason]);
        continue;
      }
      d := d.(act := r.act, verify := r.verify, probeUrl := r.probeUrl);
    }
    assert rules[..|rules|] == rules;
  }

  /** One turn of the loop. */
  function Fold(d: Decision, r: Rule, cmd: Command, v: Values): Decision {
    if !Fires(r, cmd, v) then d
    else if r.inhibit then d.(allowed := false, reasons := d.reasons + [r.reason])
    else d.(act := r.act, verify := r.verify, probeUrl := r.probeUrl)
  }

  function FoldAll(rules: seq<Rule>, cmd: Command, v: Values, ready: bool): Decision {
    if rules == [] then Decision(cmd, true, [], "", "", "", ready)
    else Fold(FoldAll(rules[..|rules| - 1], cmd, v, ready), rules[|rules| - 1], cmd, v)
  }

  /** What the decision after the loop says about the table it has read. */
  ghost predicate Folded(rules: seq<Rule>, cmd: Command, v: Values, d: Decision) {
    && (d.allowed <==> !Inhibited(rules, cmd, v))
    && d.reasons == Reasons(rules, cmd, v)
    && (forall i: nat :: LastAction(rules, cmd, v, i) ==>
          d.act == rules[i].act && d.verify == rules[i].verify && d.probeUrl == rules[i].probeUrl)
    && ((forall i :: 0 <= i < |rules| && Fires(rules[i], cmd, v) ==> rules[i].inhibit) ==>
          d.act == "" && d.verify == "" && d.probeUrl == "")
  }

  lemma FoldNone(cmd: Command, v: Values, ready: bool)
    ensures Folded([], cmd, v, Decision(cmd, true, [], "", "", "", ready))
  {
  }

  lemma FoldFrame(rules: seq<Rule>, cmd: Command, v: Values, ready: bool)
    ensures FoldAll(rules, cmd, v, ready).command == cmd && FoldAll(rules, cmd, v, ready).ready == ready
  {
  }

  lemma {:induction false} FoldAllMeans(rules: seq<Rule>, cmd: Command, v: Values, ready: bool)
    ensures Folded(rules, cmd, v, FoldAll(rules, cmd, v, ready))
  {
    if rules == [] {
      FoldNone(cmd, v, ready);
    } else {
      var front, r := rules[..|rules| - 1], rules[|rules| - 1];
      FoldAllMeans(front, cmd, v, ready);
      assert rules == front + [r];
      FoldStep(front, r, rules, cmd, v, FoldAll(front, cmd, v, ready), FoldAll(rules, cmd, v, ready));
    }
  }

  lemma FoldStep(front: seq<Rule>, r: Rule, next: seq<Rule>, cmd: Command, v: Values, d: Decision, d': Decision)
    requires Folded(front, cmd, v, d) && next == front + [r] && d' == Fold(d, r, cmd, v)
    ensures Folded(next, cmd, v, d')
  {
    assert next[..|front|] == front;
    FoldInhibits(front, r, cmd, v);
    if forall i :: 0 <= i < |next| && Fires(next[i], cmd, v) ==> next[i].inhibit {
      FoldDefault(front, r, next, cmd, v, d, d');
    }
    forall i: nat | LastAction(next, cmd, v, i)
      ensures d'.act == next[i].act && d'.verify == next[i].verify && d'.probeUrl == next[i].probeUrl
    {
      FoldAction(front, r, next, cmd, v, d, d', i);
    }
  }

  lemma FoldAction(front: seq<Rule>, r: Rule, next: seq<Rule>, cmd: Command, v: Values, d: Decision, d': Decision,
                   i: nat)
    requires Folded(front, cmd, v, d) && next == front + [r] && d' == Fold(d, r, cmd, v)
    requires LastAction(next, cmd, v, i)
    ensures d'.act == next[i].act && d'.verify == next[i].verify && d'.probeUrl == next[i].probeUrl
  {
    assert next[|front|] == r;
    if i < |front| {
      assert forall j :: i <= j < |front| ==> next[j] == front[j];
      assert LastAction(front, cmd, v, i);
    }
  }

  lemma FoldDefault(front: seq<Rule>, r: Rule, next: seq<Rule>, cmd: Command, v: Values, d: Decision, d': Decision)
    requires Folded(front, cmd, v, d) && next == front + [r] && d' == Fold(d, r, cmd, v)
    requires forall i :: 0 <= i < |next| && Fires(next[i], cmd, v) ==> next[i].inhibit
    ensures d'.act == "" && d'.verify == "" && d'.probeUrl == ""
  {
    forall i | 0 <= i < |front| && Fires(front[i], cmd, v)
      ensures front[i].inhibit
    {
      assert next[i] == front[i];
    }
    assert next[|front|] == r;
  }

  lemma FoldInhibits(front: seq<Rule>, r: Rule, cmd: Command, v: Values)
    ensures Inhibited(front + [r], cmd, v) <==> Inhibited(front, cmd, v) || (Fires(r, cmd, v) && r.inhibit)
  {
    InhibitedConcat(front, [r], cmd, v);
    assert [r][0] == r;
  }

  lemma InhibitedConcat(xs: seq<Rule>, ys: seq<Rule>, cmd: Command, v: Values)
    ensures Inhibited(xs + ys, cmd, v) <==> Inhibited(xs, cmd, v) || Inhibited(ys, cmd, v)
  {
    var zs := xs + ys;
    if Inhibited(xs, cmd, v) {
      var i :| 0 <= i < |xs| && Fires(xs[i], cmd, v) && xs[i].inhibit;
      assert zs[i] == xs[i];
    }
    if Inhibited(ys, cmd, v) {
      var i :| 0 <= i < |ys| && Fires(ys[i], cmd, v) && ys[i].inhibit;
      assert zs[|xs| + i] == ys[i];
    }
  }

  /** A verdict comes with a reason exactly when it refuses. */
  lemma {:induction false} RefusalsHaveReasons(rules: seq<Rule>, cmd: Command, v: Values)
    ensures Inhibited(rules, cmd, v) <==> Reasons(rules, cmd, v) != []
  {
    if rules != [] {
      var front, r := rules[..|rules| - 1], rules[|rules| - 1];
      RefusalsHaveReasons(front, cmd, v);
      FoldInhibits(front, r, cmd, v);
      assert rules == front + [r];
    }
  }

  lemma {:induction false} ReasonsConcat(xs: seq<Rule>, ys: seq<Rule>, cmd: Command, v: Values)
    ensures Reasons(xs + ys, cmd, v) == Reasons(xs, cmd, v) + Reasons(ys, cmd, v)
  {
    if ys == [] {
      assert xs + ys == xs;
    } else {
      var n := |ys| - 1;
      assert (xs + ys)[..|xs + ys| - 1] == xs + ys[..n];
      ReasonsConcat(xs, ys[..n], cmd, v);
    }
  }

  /** Taking an element out, wherever it stands, takes it out of the multiset. */
  lemma TakenOut<T>(pre: seq<T>, x: T, post: seq<T>)
    ensures multiset(pre + ([x] + post)) == multiset(pre + post) + multiset{x}
  {
    assert multiset([x] + post) == multiset{x} + multiset(post);
    assert multiset(pre + ([x] + post)) == multiset(pre) + multiset([x] + post);
    assert multiset(pre + post) == multiset(pre) + multiset(post);
  }

  lemma FoundIn<T>(x: T, ys: seq<T>) returns (pre: seq<T>, post: seq<T>)
    requires x in ys
    ensures ys == pre + ([x] + post)
  {
    var k :| 0 <= k < |ys| && ys[k] == x;
    pre, post := ys[..k], ys[k + 1..];
  }

  /** Where the last element of one order stands in the other. */
  lemma Around<T>(front: seq<T>, x: T, ys: seq<T>) returns (pre: seq<T>, post: seq<T>)
    requires multiset(front + ([x] + [])) == multiset(ys)
    ensures ys == pre + ([x] + post) && multiset(front) == multiset(pre + post)
  {
    TakenOut(front, x, []);
    assert front + [] == front;
    assert x in multiset(ys);
    pre, post := FoundIn(x, ys);
    TakenOut(pre, x, post);
    SameRest(multiset(front), multiset(pre + post), x);
  }

  lemma SameRest<T>(m: multiset<T>, n: multiset<T>, x: T)
    requires m + multiset{x} == n + multiset{x}
    ensures m == n
  {
    assert m == (m + multiset{x}) - multiset{x};
    assert n == (n + multiset{x}) - multiset{x};
  }

  lemma {:induction false} OrderKeepsReasons(xs: seq<Rule>, ys: seq<Rule>, cmd: Command, v: Values)
    requires multiset(xs) == multiset(ys)
    ensures multiset(Reasons(xs, cmd, v)) == multiset(Reasons(ys, cmd, v))
  {
    if xs == [] {
      assert |multiset(ys)| == |ys|;
    } else {
      var n := |xs| - 1;
      var front, r := xs[..n], xs[n];
      assert xs == front + [r] && [r] + [] == [r];
      var pre, post := Around(front, r, ys);
      OrderKeepsReasons(front, pre + post, cmd, v);
      ReasonsConcat(front, [r], cmd, v);
      ReasonsAround(pre, r, post, cmd, v);
    }
  }

  lemma ReasonsAround(pre: seq<Rule>, r: Rule, post: seq<Rule>, cmd: Command, v: Values)
    ensures multiset(Reasons(pre + ([r] + post), cmd, v))
         == multiset(Reasons(pre + post, cmd, v)) + multiset(Reasons([r], cmd, v))
  {
    ReasonsConcat(pre, [r] + post, cmd, v);
    ReasonsConcat([r], post, cmd, v);
    ReasonsConcat(pre, post, cmd, v);
  }

  /** The order of the table matters neither for the verdict nor for which reasons are given. */
  lemma OrderDoesNotMatter(xs: seq<Rule>, ys: seq<Rule>, cmd: Command, v: Values)
    requires multiset(xs) == multiset(ys)
    ensures Inhibited(xs, cmd, v) <==> Inhibited(ys, cmd, v)
    ensures multiset(Reasons(xs, cmd, v)) == multiset(Reasons(ys, cmd, v))
  {
    OrderKeepsReasons(xs, ys, cmd, v);
    RefusalsHaveReasons(xs, cmd, v);
    RefusalsHaveReasons(ys, cmd, v);
    var p, q := Reasons(xs, cmd, v), Reasons(ys, cmd, v);
    assert |p| == |multiset(p)| == |multiset(q)| == |q|;
  }

  // ---- readiness -----------------------------------------------------------------------

  predicate SystemReady(v: Values) {
    && Get(v, "tank_level") >= 50.0
    && Get(v, "valve_open") >= 90.0
    && Get(v, "plc_ok") >= 1.0
    && Get(v, "facp_ok") >= 1.0
    && Get(v, "mains_ok") + Get(v, "gen_run") >= 1.0
    && Get(v, "nfc_lock") >= 1.0
    && Get(v, "lel_pct") < 10.0
  }

  /** The lines of ReadyWhy; the tank line shows the level. */
  datatype Why = TankLow(level: real) | ValveNotOpen | PlcDown | FacpDown | NoPower | LockOpen | LelHigh | Ready

  /** The complaint holds of the values. */
  predicate Justified(w: Why, v: Values) {
    match w
    case TankLow(level) => level == Get(v, "tank_level") && level < 50.0
    case ValveNotOpen => Get(v, "valve_open") < 90.0
    case PlcDown => Get(v, "plc_ok") < 1.0
    case FacpDown => Get(v, "facp_ok") < 1.0
    case NoPower => Get(v, "mains_ok") + Get(v, "gen_run") < 1.0
    case LockOpen => Get(v, "nfc_lock") < 1.0
    case LelHigh => Get(v, "lel_pct") >= 10.0
    case Ready => SystemReady(v)
  }

  ghost predicate Distinct(why: seq<Why>) {
    forall i, j :: 0 <= i < j < |why| ==> why[i] != why[j]
  }

  /** ReadyWhy lists each complaint that holds and no other, and says "ready" alone exactly
      when the system is ready. */
  method ReadyWhy(v: Values) returns (why: seq<Why>)
    ensures why == [Ready] <==> SystemReady(v)
    ensures forall w :: w in why <==> Justified(w, v)
    ensures Distinct(why)
  {
    why := Collect(v);
    ComplaintsAreJustified(v, 7);
    NoComplaintIsReady(v);
    if |why| == 0 {
      why := why + [Ready];
    }
    ReadyStandsAlone(why, v);
  }

  lemma ReadyStandsAlone(why: seq<Why>, v: Values)
    requires why == if Complaints(v, 7) == [] then [Ready] else Complaints(v, 7)
    ensures why == [Ready] <==> SystemReady(v)
    ensures forall w :: w in why <==> Justified(w, v)
  {
    ComplaintsAreJustified(v, 7);
    NoComplaintIsReady(v);
    assert Rank(Ready) == 7 && Ready !in Complaints(v, 7);
    forall w
      ensures w in why <==> Justified(w, v)
    {
      assert Rank(w) >= 7 ==> w == Ready;
    }
  }

  method Collect(v: Values) returns (why: seq<Why>)
    ensures why == Complaints(v, 7)
  {
    why := [];
    if Get(v, "tank_level") < 50.0 {
      why := why + [TankLow(Get(v, "tank_level"))];
    }
    assert why == Complaints(v, 1);
    if Get(v, "valve_open") < 90.0 {
      why := why + [ValveNotOpen];
    }
    assert why == Complaints(v, 2);
    if Get(v, "plc_ok") < 1.0 {
      why := why + [PlcDown];
    }
    assert why == Complaints(v, 3);
    if Get(v, "facp_ok") < 1.0 {
      why := why + [FacpDown];
    }
    assert why == Complaints(v, 4);
    if Get(v, "mains_ok") + Get(v, "gen_run") < 1.0 {
      why := why + [NoPower];
    }
    assert why == Complaints(v, 5);
    if Get(v, "nfc_lock") < 1.0 {
      why := why + [LockOpen];
    }
    assert why == Complaints(v, 6);
    if Get(v, "lel_pct") >= 10.0 {
      why := why + [LelHigh];
    }
  }

  /** The line the k-th test may add. */
  function Complaint(v: Values, k: nat): Why {
    match k
    case 0 => TankLow(Get(v, "tank_level")) case 1 => ValveNotOpen case 2 => PlcDown case 3 => FacpDown
    case 4 => NoPower case 5 => LockOpen case _ => LelHigh
  }

  function Complaints(v: Values, k: nat): seq<Why> {
    if k == 0 then []
    else Complaints(v, k - 1) + (if Justified(Complaint(v, k - 1), v) then [Complaint(v, k - 1)] else [])
  }

  function Rank(w: Why): nat {
    match w
    case TankLow(_) => 0 case ValveNotOpen => 1 case PlcDown => 2 case FacpDown => 3
    case NoPower => 4 case LockOpen => 5 case LelHigh => 6 case Ready => 7
  }

  /** The list holds exactly the complaints of the first k tests that hold, each once. */
  lemma {:induction false} ComplaintsAreJustified(v: Values, k: nat)
    requires k <= 7
    ensures forall w :: w in Complaints(v, k) <==> Rank(w) < k && Justified(w, v)
    ensures Distinct(Complaints(v, k))
  {
    if k > 0 {
      ComplaintsAreJustified(v, k - 1);
      forall w
        ensures Rank(w) == k - 1 && Justified(w, v) <==> w == Complaint(v, k - 1) && Justified(w, v)
      {
        RankFixes(v, k - 1, w);
      }
      var prev := Complaints(v, k - 1);
      RankFixes(v, k - 1, Complaint(v, k - 1));
      DistinctSnoc(prev, Complaint(v, k - 1), k - 1);
    }
  }

  lemma DistinctSnoc(why: seq<Why>, w: Why, k: nat)
    requires Distinct(why)
    requires (forall x :: x in why ==> Rank(x) < k) && Rank(w) == k
    ensures Distinct(why + [w])
  {
    assert w !in why;
  }

  lemma RankFixes(v: Values, k: nat, w: Why)
    requires k < 7
    ensures Rank(Complaint(v, k)) == k
    ensures Rank(w) == k && Justified(w, v) ==> w == Complaint(v, k)
  {
  }

  lemma SomeMember(s: seq<Why>)
    ensures s == [] || exists w :: w in s
  {
    if s != [] {
      assert s[0] in s;
    }
  }

  /** No complaint is left exactly when the system is ready. */
  lemma NoComplaintIsReady(v: Values)
    ensures Complaints(v, 7) == [] <==> SystemReady(v)
  {
    ComplaintsAreJustified(v, 7);
    SomeMember(Complaints(v, 7));
    if SystemReady(v) {
      forall w | Rank(w) < 7
        ensures !Justified(w, v)
      {
      }
    } else {
      assert exists k: nat :: k < 7 && Justified(Complaint(v, k), v) by {
        assert Justified(Complaint(v, 0), v) || Justified(Complaint(v, 1), v) || Justified(Complaint(v, 2), v)
            || Justified(Complaint(v, 3), v) || Justified(Complaint(v, 4), v) || Justified(Complaint(v, 5), v)
            || Justified(Complaint(v, 6), v);
      }
      var k: nat :| k < 7 && Justified(Complaint(v, k), v);
      RankFixes(v, k, Complaint(v, k));
      assert Complaint(v, k) in Complaints(v, 7);
    }
  }
}
