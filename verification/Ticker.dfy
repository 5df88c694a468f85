/** The start/stop protocol of the simulated engines: internal/fleet/sim.go (lines 76-122) and
    internal/remoteedge/sim.go (lines 85-132), where each goroutine captures the stop channel
    it was started with, and internal/firewater/engine.go (lines 196-235), where it reads
    e.stop anew whenever it enters the select.

    Every mutex section, channel operation and goroutine launch is one step; any interleaving
    of steps is a run. Channels are numbered in order of creation. A select evaluates its
    channel once, on entry: a goroutine inside it keeps that channel, and may still take the
    tick when the channel has just been closed. */
module Ticker {
  import opened Common

  datatype Capture = Captured | Reread

  /** Where a started run is: its Start has left the mutex but not launched it, it works
      (its first or a later tick), it is in select on the channel `watch`, or it has returned. */
  datatype Phase = Launching | Ticking | Selecting(watch: nat) | Exited

  datatype Runner = Runner(stop: nat, phase: Phase)

  datatype State = State(running: bool, stop: nat, made: nat, closed: set<nat>, runners: seq<Runner>, doubleClose: bool)

  datatype Step = Start | Stop | Launch(g: nat) | Wait(g: nat) | Fire(g: nat) | Exit(g: nat)

  const INITIAL := State(false, 0, 0, {}, [], false)

  /** The channel a goroutine finds on entering its select. */
  function Entered(mode: Capture, stop: nat, r: Runner): nat {
    if mode == Captured then r.stop else stop
  }

  predicate Enabled(mode: Capture, s: State, step: Step) {
    match step
    case Start => true
    case Stop => true
    case Launch(g) => g < |s.runners| && s.runners[g].phase == Launching
    case Wait(g) => g < |s.runners| && s.runners[g].phase == Ticking
    case Fire(g) => g < |s.runners| && s.runners[g].phase.Selecting?
    case Exit(g) => g < |s.runners| && s.runners[g].phase.Selecting? && s.runners[g].phase.watch in s.closed
  }

  function SetPhase(s: State, g: nat, phase: Phase): State
    requires g < |s.runners|
  {
    s.(runners := s.runners[g := s.runners[g].(phase := phase)])
  }

  function Do(mode: Capture, s: State, step: Step): State
    requires Enabled(mode, s, step)
  {
    match step
    case Start =>
      if s.running then s
      else s.(running := true, stop := s.made, made := s.made + 1, runners := s.runners + [Runner(s.made, Launching)])
    case Stop =>
      if !s.running then s
      else s.(running := false, closed := s.closed + {s.stop}, doubleClose := s.doubleClose || s.stop in s.closed)
    case Launch(g) => SetPhase(s, g, Ticking)
    case Wait(g) => SetPhase(s, g, Selecting(Entered(mode, s.stop, s.runners[g])))
    case Fire(g) => SetPhase(s, g, Ticking)
    case Exit(g) => SetPhase(s, g, Exited)
  }

  /** The steps, each enabled in its turn, lead from s to t. */
  ghost predicate Leads(mode: Capture, s: State, steps: seq<Step>, t: State)
    decreases |steps|
  {
    if steps == [] then t == s
    else Enabled(mode, s, steps[0]) && Leads(mode, Do(mode, s, steps[0]), steps[1..], t)
  }

  /** The locked sections of the engine itself. */
  class Engine {
    var running: bool
    var stop: nat
    var made: nat
    var closed: set<nat>
    ghost var runners: seq<Runner>

    ghost predicate Valid()
      reads this
    {
      Sound(Snapshot())
    }

    ghost function Snapshot(): State
      reads this
    {
      State(running, stop, made, closed, runners, false)
    }

    constructor ()
      ensures Snapshot() == INITIAL && Valid()
    {
      running, stop, made, closed, runners := false, 0, 0, {}, [];
    }

    /** Returns the channel for the goroutine to capture, or nothing when already running. */
    method Start() returns (captured: Option<nat>)
      requires Valid()
      modifies this
      ensures Valid() && Snapshot() == Do(Captured, old(Snapshot()), Step.Start)
      ensures captured == if old(running) then None else Some(stop)
      ensures captured != None ==>
        captured.value !in closed && forall r :: r in old(runners) ==> r.stop != captured.value
    {
      StartKeepsSound(Snapshot());
      if running {
        return None;
      }
      running := true;
      var channel := made;
      made := made + 1;
      stop := channel;
      runners := runners + [Runner(channel, Launching)];
      return Some(channel);
    }

    /** Closes the current channel, which is open: close never panics. */
    method Stop()
      requires Valid()
      modifies this
      ensures Valid() && Snapshot() == Do(Captured, old(Snapshot()), Step.Stop)
      ensures old(running) ==> old(stop) !in old(closed)
    {
      StopKeepsSound(Snapshot());
      if running {
        running := false;
        closed := closed + {stop};
      }
    }
  }

  // ---- what every step keeps -----------------------------------------------------------

  /** Channels exist before they are used; exactly the current channel of a running engine is
      open; every channel was captured by exactly one runner, in order of creation. */
  ghost predicate Sound(s: State) {
    && |s.runners| == s.made
    && (forall g :: 0 <= g < |s.runners| ==> s.runners[g].stop == g)
    && (forall g :: 0 <= g < |s.runners| && s.runners[g].phase.Selecting? ==> s.runners[g].phase.watch < s.made)
    && (forall c :: 0 <= c < s.made && !(s.running && c == s.stop) ==> c in s.closed)
    && (forall c :: c in s.closed ==> 0 <= c < s.made)
    && (s.running ==> s.stop < s.made && s.stop !in s.closed)
    && (s.made > 0 ==> s.stop == s.made - 1)
    && !s.doubleClose
  }

  lemma StartKeepsSound(s: State)
    requires Sound(s)
    ensures Sound(Do(Captured, s, Start))
  {
  }

  lemma StopKeepsSound(s: State)
    requires Sound(s)
    ensures Sound(Do(Captured, s, Stop))
  {
  }

  lemma StepKeepsSound(mode: Capture, s: State, step: Step)
    requires Sound(s) && Enabled(mode, s, step)
    ensures Sound(Do(mode, s, step))
  {
    match step {
      case Start => StartKeepsSound(s);
      case Stop => StopKeepsSound(s);
      case _ =>
    }
  }

  /** Every reachable state is sound, in both capture modes: no channel is closed twice. */
  lemma {:induction false} RunKeepsSound(mode: Capture, s: State, steps: seq<Step>, t: State)
    requires Leads(mode, s, steps, t) && Sound(s)
    ensures Sound(t)
    decreases |steps|
  {
    if steps != [] {
      StepKeepsSound(mode, s, steps[0]);
      RunKeepsSound(mode, Do(mode, s, steps[0]), steps[1..], t);
    }
  }

  // ---- captured channels: exactly one ----------------------------------------------------

  /** The runner waits on an open channel, or will if it enters its select now. */
  predicate Listens(mode: Capture, stop: nat, closed: set<nat>, r: Runner) {
    match r.phase
    case Exited => false
    case Selecting(watch) => watch !in closed
    case _ => Entered(mode, stop, r) !in closed
  }

  function Count(mode: Capture, stop: nat, closed: set<nat>, rs: seq<Runner>): nat {
    if rs == [] then 0
    else Count(mode, stop, closed, rs[..|rs| - 1]) + (if Listens(mode, stop, closed, rs[|rs| - 1]) then 1 else 0)
  }

  /** How many of the runs, launched or about to be, listen. */
  function Listeners(mode: Capture, s: State): nat { Count(mode, s.stop, s.closed, s.runners) }

  predicate OneNow(mode: Capture, s: State) { Listeners(mode, s) == if s.running then 1 else 0 }

  lemma {:induction false} NoneListens(mode: Capture, stop: nat, closed: set<nat>, rs: seq<Runner>)
    requires forall i :: 0 <= i < |rs| ==> !Listens(mode, stop, closed, rs[i])
    ensures Count(mode, stop, closed, rs) == 0
  {
    if rs != [] {
      NoneListens(mode, stop, closed, rs[..|rs| - 1]);
    }
  }

  /** When channels are captured a runner selects on its own channel and returns only when it
      is closed. */
  ghost predicate OwnChannelOnly(s: State) {
    && (forall g :: 0 <= g < |s.runners| && s.runners[g].phase == Exited ==> s.runners[g].stop in s.closed)
    && (forall g :: 0 <= g < |s.runners| && s.runners[g].phase.Selecting? ==>
          s.runners[g].phase.watch == s.runners[g].stop)
  }

  lemma {:induction false} RunKeepsOwnChannel(s: State, steps: seq<Step>, t: State)
    requires Leads(Captured, s, steps, t) && OwnChannelOnly(s)
    ensures OwnChannelOnly(t)
    decreases |steps|
  {
    if steps != [] {
      RunKeepsOwnChannel(Do(Captured, s, steps[0]), steps[1..], t);
    }
  }

  /** In every interleaving of every run, exactly one run of the engine listens to an open
      channel while the engine is running, and none otherwise; no channel is closed twice. */
  lemma ExactlyOneWhileRunning(steps: seq<Step>, s: State)
    requires Leads(Captured, INITIAL, steps, s)
    ensures Listeners(Captured, s) == if s.running then 1 else 0
    ensures !s.doubleClose
  {
    RunKeepsSound(Captured, INITIAL, steps, s);
    RunKeepsOwnChannel(INITIAL, steps, s);
    if s.running {
      var n := |s.runners| - 1;
      assert forall g :: 0 <= g < n ==> s.runners[..n][g] == s.runners[g];
      NoneListens(Captured, s.stop, s.closed, s.runners[..n]);
      assert Listens(Captured, s.stop, s.closed, s.runners[n]);
    } else {
      NoneListens(Captured, s.stop, s.closed, s.runners);
    }
  }

  lemma {:induction false} StaleStays(s: State, steps: seq<Step>, t: State, g: nat)
    requires Leads(Captured, s, steps, t) && OwnChannelOnly(s)
    requires g < |s.runners| && s.runners[g].stop in s.closed
    ensures g < |t.runners| && t.runners[g].stop == s.runners[g].stop && t.runners[g].stop in t.closed
    ensures s.runners[g].phase == Exited ==> t.runners[g].phase == Exited
    decreases |steps|
  {
    if steps != [] {
      RunKeepsOwnChannel(s, [steps[0]], Do(Captured, s, steps[0]));
      StaleStays(Do(Captured, s, steps[0]), steps[1..], t, g);
    }
  }

  /** A runner whose channel was closed never listens again, whatever follows, and once
      returned stays so: no later run adopts it. */
  lemma StaleStaysStale(past: seq<Step>, s: State, steps: seq<Step>, t: State, g: nat)
    requires Leads(Captured, INITIAL, past, s) && Leads(Captured, s, steps, t)
    requires g < |s.runners| && s.runners[g].stop in s.closed
    ensures g < |t.runners| && !Listens(Captured, t.stop, t.closed, t.runners[g])
    ensures s.runners[g].phase == Exited ==> t.runners[g].phase == Exited
  {
    RunKeepsOwnChannel(INITIAL, past, s);
    StaleStays(s, steps, t, g);
    RunKeepsOwnChannel(s, steps, t);
  }

  /** The steps a stopped runner still has to take. */
  function ExitPath(phase: Phase, g: nat): seq<Step> {
    match phase
    case Launching => [Launch(g), Wait(g), Exit(g)]
    case Ticking => [Wait(g), Exit(g)]
    case Selecting(_) => [Exit(g)]
    case Exited => []
  }

  /** From every reachable state, however often the engine was started since, a runner whose
      channel was closed can return by its own next steps alone. */
  lemma StaleRunnerCanReturn(past: seq<Step>, s: State, g: nat)
    requires Leads(Captured, INITIAL, past, s)
    requires g < |s.runners| && s.runners[g].stop in s.closed
    ensures Leads(Captured, s, ExitPath(s.runners[g].phase, g), SetPhase(s, g, Exited))
  {
    RunKeepsOwnChannel(INITIAL, past, s);
    var t, r := SetPhase(s, g, Exited), s.runners[g];
    var ticking, selecting := SetPhase(s, g, Ticking), SetPhase(s, g, Selecting(r.stop));
    assert SetPhase(selecting, g, Exited) == t && SetPhase(ticking, g, Selecting(r.stop)) == selecting;
    LeadsFirst(Captured, selecting, Exit(g), [], t);
    LeadsFirst(Captured, ticking, Wait(g), [Exit(g)], t);
    assert [Exit(g)] + [] == [Exit(g)] && [Wait(g)] + [Exit(g)] == [Wait(g), Exit(g)];
    match r.phase {
      case Launching =>
        LeadsFirst(Captured, s, Launch(g), [Wait(g), Exit(g)], t);
        assert [Launch(g)] + [Wait(g), Exit(g)] == ExitPath(r.phase, g);
      case Ticking => assert ticking == s;
      case Selecting(_) => assert selecting == s;
      case Exited => assert t == s;
    }
  }

  lemma LeadsFirst(mode: Capture, s: State, step: Step, rest: seq<Step>, t: State)
    requires Enabled(mode, s, step) && Leads(mode, Do(mode, s, step), rest, t)
    ensures Leads(mode, s, [step] + rest, t)
  {
    assert ([step] + rest)[1..] == rest;
  }

  // ---- a channel read anew at each select -------------------------------------------------

  /** Runs outside a select, launched or about to be: they will read e.stop. */
  function Loose(rs: seq<Runner>): nat {
    if rs == [] then 0
    else Loose(rs[..|rs| - 1]) + (if rs[|rs| - 1].phase in {Launching, Ticking} then 1 else 0)
  }

  /** On an open current channel, runners that select on closed ones do not listen and those
      outside a select do. */
  lemma {:induction false} LooseListen(stop: nat, closed: set<nat>, rs: seq<Runner>)
    requires stop !in closed
    requires forall i :: 0 <= i < |rs| && rs[i].phase.Selecting? ==> rs[i].phase.watch in closed
    ensures Count(Reread, stop, closed, rs) == Loose(rs)
  {
    if rs != [] {
      LooseListen(stop, closed, rs[..|rs| - 1]);
    }
  }

  lemma CountSnoc(mode: Capture, stop: nat, closed: set<nat>, rs: seq<Runner>, r: Runner)
    ensures Count(mode, stop, closed, rs + [r])
         == Count(mode, stop, closed, rs) + (if Listens(mode, stop, closed, r) then 1 else 0)
  {
    assert (rs + [r])[..|rs|] == rs;
  }

  lemma StartAddsToLoose(s: State)
    requires Sound(s) && !s.running
    ensures Listeners(Reread, Do(Reread, s, Start)) == Loose(s.runners) + 1
  {
    CountSnoc(Reread, s.made, s.closed, s.runners, Runner(s.made, Launching));
    LooseListen(s.made, s.closed, s.runners);
  }

  /** Starting a stopped engine that reads its channel at each select leaves exactly one
      listener if and only if no earlier run is outside its select (about to be launched, or
      at work in a tick); one blocked in select keeps its closed channel and can return. */
  lemma RereadStartIsCleanExactlyWhen(steps: seq<Step>, s: State)
    requires Leads(Reread, INITIAL, steps, s) && !s.running
    ensures var t := Do(Reread, s, Start);
      && (Listeners(Reread, t) == 1 <==>
          forall g :: 0 <= g < |s.runners| ==> s.runners[g].phase !in {Launching, Ticking})
      && forall g :: 0 <= g < |s.runners| && s.runners[g].phase.Selecting? ==> Enabled(Reread, t, Exit(g))
  {
    RunKeepsSound(Reread, INITIAL, steps, s);
    StartAddsToLoose(s);
    LooseIsZero(s.runners);
  }

  lemma {:induction false} LooseIsZero(rs: seq<Runner>)
    ensures Loose(rs) == 0 <==> forall i :: 0 <= i < |rs| ==> rs[i].phase !in {Launching, Ticking}
  {
    if rs != [] {
      var n := |rs| - 1;
      LooseIsZero(rs[..n]);
      assert forall i :: 0 <= i < n ==> rs[..n][i] == rs[i];
    }
  }

  // ---- whole runs of it ------------------------------------------------------------------

  predicate Restarts(s: State, step: Step) { step == Start && !s.running }

  /** The step is neither a start that finds a run outside its select, nor a tick taken in a
      running engine by a run whose channel is closed already. */
  predicate Clean(s: State, step: Step)
    requires Enabled(Reread, s, step)
  {
    && (Restarts(s, step) ==> Loose(s.runners) == 0)
    && (step.Fire? && s.running ==> s.runners[step.g].phase.watch !in s.closed)
  }

  /** Every step, taken in its turn, is clean. */
  ghost predicate CleanAlong(s: State, steps: seq<Step>, t: State)
    requires Leads(Reread, s, steps, t)
    decreases |steps|
  {
    steps == [] || (Clean(s, steps[0]) && CleanAlong(Do(Reread, s, steps[0]), steps[1..], t))
  }

  /** At every moment of the run one runner listens while the engine runs, none otherwise. */
  ghost predicate OneAlong(s: State, steps: seq<Step>, t: State)
    requires Leads(Reread, s, steps, t)
    decreases |steps|
  {
    OneNow(Reread, s) && (steps == [] || OneAlong(Do(Reread, s, steps[0]), steps[1..], t))
  }

  /** Changing one runner changes the count by that runner alone. */
  lemma {:induction false} CountUpdate(stop: nat, closed: set<nat>, rs: seq<Runner>, g: nat, r: Runner)
    requires g < |rs|
    ensures Count(Reread, stop, closed, rs[g := r])
         == Count(Reread, stop, closed, rs) - (if Listens(Reread, stop, closed, rs[g]) then 1 else 0)
            + (if Listens(Reread, stop, closed, r) then 1 else 0)
  {
    var n := |rs| - 1;
    if g < n {
      CountUpdate(stop, closed, rs[..n], g, r);
      assert rs[g := r][..n] == rs[..n][g := r];
    } else {
      assert rs[g := r][..n] == rs[..n];
    }
  }

  /** Moving one runner to another phase. */
  lemma PhaseStep(s: State, g: nat, phase: Phase)
    requires g < |s.runners|
    ensures var r := s.runners[g];
      Listeners(Reread, SetPhase(s, g, phase))
      == Listeners(Reread, s) - (if Listens(Reread, s.stop, s.closed, r) then 1 else 0)
         + (if Listens(Reread, s.stop, s.closed, r.(phase := phase)) then 1 else 0)
  {
    CountUpdate(s.stop, s.closed, s.runners, g, s.runners[g].(phase := phase));
  }

  lemma StopSilences(s: State)
    requires Sound(s) && !s.running
    ensures OneNow(Reread, s)
  {
    NoneListens(Reread, s.stop, s.closed, s.runners);
  }

  /** One step keeps the count right if and only if it is clean. */
  lemma StepKeepsOne(s: State, step: Step)
    requires Sound(s) && OneNow(Reread, s) && Enabled(Reread, s, step)
    ensures OneNow(Reread, Do(Reread, s, step)) <==> Clean(s, step)
  {
    match step {
      case Start =>
        if !s.running {
          StartAddsToLoose(s);
        }
      case Stop =>
        StopKeepsSound(s);
        if s.running {
          StopSilences(Do(Reread, s, Stop));
        }
      case Launch(g) => PhaseStep(s, g, Ticking);
      case Wait(g) => PhaseStep(s, g, Selecting(s.stop));
      case Fire(g) => PhaseStep(s, g, Ticking);
      case Exit(g) => PhaseStep(s, g, Exited);
    }
  }

  lemma {:induction false} OneAlongFrom(s: State, steps: seq<Step>, t: State)
    requires Sound(s) && OneNow(Reread, s) && Leads(Reread, s, steps, t)
    ensures OneAlong(s, steps, t) <==> CleanAlong(s, steps, t)
    decreases |steps|
  {
    if steps != [] {
      var next := Do(Reread, s, steps[0]);
      StepKeepsOne(s, steps[0]);
      StepKeepsSound(Reread, s, steps[0]);
      if OneNow(Reread, next) {
        OneAlongFrom(next, steps[1..], t);
      } else {
        assert !OneAlong(next, steps[1..], t);
      }
    }
  }

  /** A whole run of an engine that reads its channel at each select has the one listener it
      should have, at every moment, if and only if no start finds an earlier run outside its
      select and no run takes a tick that raced with the closing of its channel once the engine
      runs again. */
  lemma RereadHasOneExactlyWhen(steps: seq<Step>, t: State)
    requires Leads(Reread, INITIAL, steps, t)
    ensures OneAlong(INITIAL, steps, t) <==> CleanAlong(INITIAL, steps, t)
  {
    OneAlongFrom(INITIAL, steps, t);
  }

  // ---- two failing runs ------------------------------------------------------------------

  /** Two runners alive, the first of them from a start whose channel was closed. */
  const ADOPTED := State(true, 1, 2, {0}, [Runner(0, Ticking), Runner(1, Launching)], false)

  lemma AdoptionLeads()
    ensures Leads(Reread, INITIAL, [Start] + ([Launch(0)] + ([Stop] + ([Start] + []))), ADOPTED)
  {
    var started := State(true, 0, 1, {}, [Runner(0, Launching)], false);
    var ticking := State(true, 0, 1, {}, [Runner(0, Ticking)], false);
    var stopped := State(false, 0, 1, {0}, [Runner(0, Ticking)], false);
    assert Do(Reread, stopped, Start) == ADOPTED && Leads(Reread, ADOPTED, [], ADOPTED);
    LeadsFirst(Reread, stopped, Start, [], ADOPTED);
    assert Do(Reread, ticking, Stop) == stopped;
    LeadsFirst(Reread, ticking, Stop, [Start] + [], ADOPTED);
    assert Do(Reread, started, Launch(0)) == ticking;
    LeadsFirst(Reread, started, Launch(0), [Stop] + ([Start] + []), ADOPTED);
    assert Do(Reread, INITIAL, Start) == started;
    LeadsFirst(Reread, INITIAL, Start, [Launch(0)] + ([Stop] + ([Start] + [])), ADOPTED);
  }

  lemma AdoptedHasTwo()
    ensures Listeners(Reread, ADOPTED) == 2
  {
    var rs := ADOPTED.runners;
    assert rs[..1] == [rs[0]] && rs[..1][..0] == [];
    assert Count(Reread, ADOPTED.stop, ADOPTED.closed, rs[..1]) == 1;
  }

  /** A run that starts the engine again while the first goroutine has yet to reach its select:
      the old goroutine adopts the new channel and two listen. */
  lemma RereadAdoptsStaleRunner()
    ensures exists steps, s :: Leads(Reread, INITIAL, steps, s) && s.running && Listeners(Reread, s) == 2
  {
    AdoptionLeads();
    AdoptedHasTwo();
  }

  /** From any state in which a stopped runner is still in its select, starting again leaves it
      where it is; only taking the tick instead of returning makes it a second listener. */
  lemma RacingTickAdopts(steps: seq<Step>, s: State, g: nat)
    requires Leads(Reread, INITIAL, steps, s) && s.running && OneNow(Reread, s)
    requires g < |s.runners| && s.runners[g].phase.Selecting? && s.runners[g].phase.watch in s.closed
    ensures Listeners(Reread, Do(Reread, s, Fire(g))) == 2 && Listeners(Reread, Do(Reread, s, Exit(g))) == 1
  {
    RunKeepsSound(Reread, INITIAL, steps, s);
    PhaseStep(s, g, Ticking);
    PhaseStep(s, g, Exited);
  }
}
