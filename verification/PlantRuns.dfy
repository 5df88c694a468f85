/** Whole runs of the plant engine and its alarm book. A tick is two mutex sections, the step
    of the plant and the later ingestion of the events derived from it, so ticks may overtake
    one another and any other operation may come between (internal/firewater/engine.go, lines
    237-273; internal/firewater/alarms.go, lines 41-116). */
module PlantRuns {
  import opened Common
  import opened Alarms
  import opened Plant
  import opened AlarmRuns

  /** Events derived by a tick that has stepped under `scenario` and not yet ingested them. */
  datatype Batch = Batch(scenario: Scenario, evts: seq<Event>)

  /** `shown` is the scenario of the batch the book ingested last. */
  datatype World = World(scenario: Scenario, pumpOn: bool, book: Entries, inFlight: seq<Batch>, shown: Option<Scenario>)

  datatype Action =
    | SetScenario(s: Scenario)
    | TickStep(rng: Draws)
    | TickIngest(i: nat, now: int)
    | AckAlarm(id: string)
    | ShelveAlarm(id: string, until: int)

  const INITIAL := World(Other("normal"), false, map[], [], None)

  function Act(w: World, a: Action): World {
    match a
    case SetScenario(s) => w.(scenario := s)
    case TickStep(rng) =>
      w.(pumpOn := PumpAfter(w.scenario, w.pumpOn),
         inFlight := w.inFlight + [Batch(w.scenario, Derive(w.scenario, Stepped(w.scenario, rng)))])
    case TickIngest(i, now) =>
      if i >= |w.inFlight| then w
      else w.(book := Ingested(w.book, w.inFlight[i].evts, now),
              inFlight := w.inFlight[..i] + w.inFlight[i + 1..],
              shown := Some(w.inFlight[i].scenario))
    case AckAlarm(id) => w.(book := Acknowledged(w.book, id))
    case ShelveAlarm(id, until) => w.(book := PutOnShelf(w.book, id, until))
  }

  /** The world after a run of actions from w. */
  function From(w: World, acts: seq<Action>): World {
    if acts == [] then w else Act(From(w, acts[..|acts| - 1]), acts[|acts| - 1])
  }

  function History(acts: seq<Action>): World { From(INITIAL, acts) }

  lemma FromSnoc(w: World, acts: seq<Action>, a: Action)
    ensures From(w, acts + [a]) == Act(From(w, acts), a)
  {
    assert (acts + [a])[..|acts|] == acts;
  }

  lemma FromOne(w: World, a: Action)
    ensures From(w, [a]) == Act(w, a)
  {
    assert [a][..0] == [];
  }

  lemma {:induction false} FromJoin(w: World, acts: seq<Action>, more: seq<Action>)
    ensures From(w, acts + more) == From(From(w, acts), more)
  {
    if more == [] {
      assert acts + more == acts;
    } else {
      var front, last := more[..|more| - 1], more[|more| - 1];
      FromJoin(w, acts, front);
      FromSnoc(w, acts + front, last);
      assert acts + more == acts + front + [last];
    }
  }

  function ExpectedTypes(s: Option<Scenario>): set<string> {
    if s == None then {} else Types(Expected(s.value))
  }

  ghost predicate AllExpected(q: seq<Batch>) {
    forall i :: 0 <= i < |q| ==> q[i].evts == Expected(q[i].scenario)
  }

  lemma TakingKeepsExpected(q: seq<Batch>, i: nat)
    requires AllExpected(q) && i < |q|
    ensures AllExpected(q[..i] + q[i + 1..])
  {
  }

  lemma AddingKeepsExpected(q: seq<Batch>, b: Batch)
    requires AllExpected(q) && b.evts == Expected(b.scenario)
    ensures AllExpected(q + [b])
  {
  }

  lemma ActKeepsExpected(w: World, a: Action)
    requires AllExpected(w.inFlight)
    ensures AllExpected(Act(w, a).inFlight)
  {
    match a {
      case TickStep(rng) =>
        StepEnqueuesExpected(w, rng);
        AddingKeepsExpected(w.inFlight, Batch(w.scenario, Expected(w.scenario)));
      case TickIngest(i, _) =>
        if i < |w.inFlight| {
          TakingKeepsExpected(w.inFlight, i);
        }
      case _ =>
    }
  }

  lemma {:induction false} InFlightIsExpected(acts: seq<Action>)
    ensures AllExpected(History(acts).inFlight)
  {
    if acts != [] {
      InFlightIsExpected(acts[..|acts| - 1]);
      ActKeepsExpected(History(acts[..|acts| - 1]), acts[|acts| - 1]);
    }
  }

  lemma StepEnqueuesExpected(w: World, rng: Draws)
    ensures Act(w, TickStep(rng)) == w.(pumpOn := PumpAfter(w.scenario, w.pumpOn),
                                        inFlight := w.inFlight + [Batch(w.scenario, Expected(w.scenario))])
  {
    ScenarioIsExact(w.scenario, rng);
  }

  lemma ActFollowsPlant(w: World, a: Action)
    requires AllExpected(w.inFlight) && Reflects(w.book, ExpectedTypes(w.shown))
    ensures Reflects(Act(w, a).book, ExpectedTypes(Act(w, a).shown))
  {
    match a {
      case TickIngest(i, now) =>
        if i < |w.inFlight| {
          IngestReflects(w.book, w.inFlight[i].evts, now, ExpectedTypes(w.shown));
        }
      case AckAlarm(id) => ApplyReflects(w.book, Ack(id), ExpectedTypes(w.shown));
      case ShelveAlarm(id, until) => ApplyReflects(w.book, Shelve(id, until), ExpectedTypes(w.shown));
      case _ =>
    }
  }

  /** At every moment of every run the book reflects the scenario it was last shown: each of
      that scenario's alarms stands (unacknowledged, acknowledged or shelved), and no other
      alarm is unacknowledged. */
  lemma {:induction false} BookFollowsPlant(acts: seq<Action>)
    ensures Reflects(History(acts).book, ExpectedTypes(History(acts).shown))
  {
    if acts != [] {
      var front := acts[..|acts| - 1];
      BookFollowsPlant(front);
      InFlightIsExpected(front);
      ActFollowsPlant(History(front), acts[|acts| - 1]);
    }
  }

  /** Right after a tick that stepped under s has been ingested, however long ago it stepped
      and whatever came between: exactly the alarms of s may be unacknowledged or
      acknowledged, all of them stand, and every other entry is returned or shelved. */
  lemma AfterIngestOnlyExpectedStand(acts: seq<Action>, i: nat, now: int)
    requires i < |History(acts).inFlight|
    ensures var s, book := History(acts).inFlight[i].scenario, History(acts + [TickIngest(i, now)]).book;
      && (forall id :: id in Types(Expected(s)) ==> id in book && Standing(book[id].state))
      && (forall id :: id in book && id !in Types(Expected(s)) ==>
            book[id].state == Returned || book[id].state == Shelved)
  {
    var w, acts' := History(acts), acts + [TickIngest(i, now)];
    assert acts'[..|acts|] == acts;
    BookFollowsPlant(acts);
    InFlightIsExpected(acts);
    var evts := w.inFlight[i].evts;
    IngestReflects(w.book, evts, now, ExpectedTypes(w.shown));
    forall id | id in Ingested(w.book, evts, now) && id !in Types(evts)
      ensures Ingested(w.book, evts, now)[id].state in {Returned, Shelved}
    {
      IngestedAt(w.book, evts, id, now);
      HitsAreTypes(id, evts);
    }
  }

  lemma IngestLast(w: World, b: Batch, now: int)
    ensures Act(w.(inFlight := w.inFlight + [b]), TickIngest(|w.inFlight|, now))
         == w.(book := Ingested(w.book, b.evts, now), shown := Some(b.scenario))
  {
    var q := w.inFlight + [b];
    assert q[..|w.inFlight|] + q[|w.inFlight| + 1..] == w.inFlight;
  }

  function TickActs(w: World, rng: Draws, now: int): seq<Action> {
    [TickStep(rng)] + [TickIngest(|w.inFlight|, now)]
  }

  /** A tick with nothing in between shows the book the current scenario. */
  lemma SequentialTick(w: World, rng: Draws, now: int)
    ensures From(w, TickActs(w, rng, now))
         == w.(pumpOn := PumpAfter(w.scenario, w.pumpOn),
               book := Ingested(w.book, Expected(w.scenario), now), shown := Some(w.scenario))
  {
    var after := w.(pumpOn := PumpAfter(w.scenario, w.pumpOn));
    FromOne(w, TickStep(rng));
    FromSnoc(w, [TickStep(rng)], TickIngest(|w.inFlight|, now));
    StepEnqueuesExpected(w, rng);
    IngestLast(after, Batch(w.scenario, Expected(w.scenario)), now);
  }

  // ---- the pump ------------------------------------------------------------------------

  /** What a step under a scenario does to the pump: fire switches it on; pumpfail, normal and
      any unknown name switch it off; the others leave it. */
  function Effect(s: Scenario): Option<bool> {
    match s
    case Fire => Some(true)
    case PumpFail => Some(false)
    case Other(_) => Some(false)
    case _ => None
  }

  /** What action i of the run does to the pump. */
  function Switch(acts: seq<Action>, i: nat): Option<bool>
    requires i < |acts|
  {
    if acts[i].TickStep? then Effect(History(acts[..i]).scenario) else None
  }

  /** Action i switched the pump on and none since has switched it off. */
  ghost predicate LastOn(acts: seq<Action>, i: nat) {
    i < |acts| && Switch(acts, i) == Some(true) && forall j :: i < j < |acts| ==> Switch(acts, j) != Some(false)
  }

  lemma SwitchOfFront(acts: seq<Action>, i: nat)
    requires i < |acts| - 1
    ensures Switch(acts[..|acts| - 1], i) == Switch(acts, i)
  {
    assert acts[..|acts| - 1][..i] == acts[..i];
  }

  lemma PumpOfStep(s: Scenario, pump: bool)
    ensures PumpAfter(s, pump) == if Effect(s) == None then pump else Effect(s).value
  {
  }

  lemma PumpOfTick(w: World, rng: Draws)
    ensures Act(w, TickStep(rng)).pumpOn == PumpAfter(w.scenario, w.pumpOn)
  {
  }

  lemma PumpOfOthers(w: World, a: Action)
    requires !a.TickStep?
    ensures Act(w, a).pumpOn == w.pumpOn
  {
  }

  lemma HistoryLast(acts: seq<Action>)
    requires acts != []
    ensures History(acts) == Act(History(acts[..|acts| - 1]), acts[|acts| - 1])
  {
  }

  lemma PumpStep(acts: seq<Action>)
    requires acts != []
    ensures var n := |acts| - 1;
      History(acts).pumpOn == (if Switch(acts, n) == None then History(acts[..n]).pumpOn else Switch(acts, n).value)
  {
    HistoryLast(acts);
    var w, a := History(acts[..|acts| - 1]), acts[|acts| - 1];
    if a.TickStep? {
      PumpOfTick(w, a.rng);
      PumpOfStep(w.scenario, w.pumpOn);
    } else {
      PumpOfOthers(w, a);
    }
  }

  lemma LastOnOfFront(acts: seq<Action>, i: nat)
    requires i < |acts| - 1
    ensures LastOn(acts, i) <==> LastOn(acts[..|acts| - 1], i) && Switch(acts, |acts| - 1) != Some(false)
  {
    var n := |acts| - 1;
    forall j | i <= j < n
      ensures Switch(acts[..n], j) == Switch(acts, j)
    {
      SwitchOfFront(acts, j);
    }
  }

  /** In every run, whatever comes between the steps, the pump is on if and only if some step
      was under fire and no later one under pumpfail, normal or an unknown scenario. */
  lemma {:induction false} PumpIsOnExactlyWhen(acts: seq<Action>)
    ensures History(acts).pumpOn <==> exists i: nat :: LastOn(acts, i)
  {
    if acts != [] {
      var n := |acts| - 1;
      PumpIsOnExactlyWhen(acts[..n]);
      PumpStep(acts);
      if Switch(acts, n) == Some(true) {
        assert LastOn(acts, n);
      } else if History(acts).pumpOn {
        var i: nat :| LastOn(acts[..n], i);
        LastOnOfFront(acts, i);
      } else if exists i: nat :: LastOn(acts, i) {
        var i: nat :| LastOn(acts, i);
        LastOnOfFront(acts, i);
      }
    }
  }

  // ---- draining the book ---------------------------------------------------------------

  function Acks(ids: seq<string>): (ops: seq<Op>)
    ensures |ops| == |ids|
  {
    if ids == [] then [] else Acks(ids[..|ids| - 1]) + [Ack(ids[|ids| - 1])]
  }

  /** What a list of acknowledgements makes of one alarm. */
  function AckedBy(a: Option<Alarm>, listed: bool): Option<Alarm> {
    if !listed || a == None then a
    else if a.value.state == Returned then None
    else Some(a.value.(state := Acked))
  }

  lemma {:induction false} AcksFate(a: Option<Alarm>, ids: seq<string>, id: string)
    ensures FateRun(a, Acks(ids), id) == AckedBy(a, id in ids)
  {
    if ids != [] {
      var front, last := ids[..|ids| - 1], ids[|ids| - 1];
      AcksFate(a, front, id);
      assert ids == front + [last];
      assert Acks(ids)[..|front|] == Acks(front);
    }
  }

  /** Acknowledging a list of ids, repeats included: returned alarms go, others are acked. */
  lemma AcksAt(book: Entries, ids: seq<string>, id: string)
    ensures Find(Run(book, Acks(ids)), id) == AckedBy(Find(book, id), id in ids)
  {
    AcksFate(Find(book, id), ids, id);
    AlarmsAreIndependent(book, Acks(ids), id);
  }

  /** One round of the drain: a tick under "normal" (or any unknown scenario) and then an
      acknowledgement of every id in the book. */
  ghost function Round(book: Entries, name: string, now: int, ids: seq<string>): Entries {
    Run(Ingested(book, Expected(Other(name)), now), Acks(ids))
  }

  /** A round leaves exactly the alarms that were shelved, all acknowledged. */
  lemma RoundLeavesTheShelved(book: Entries, name: string, now: int, ids: seq<string>, batch: set<string>)
    requires Reflects(book, batch) && forall id :: id in book ==> id in ids
    ensures forall id :: id in Round(book, name, now, ids) <==> id in book && book[id].state == Shelved
    ensures forall id :: id in Round(book, name, now, ids) ==> Round(book, name, now, ids)[id].state == Acked
    ensures Reflects(Round(book, name, now, ids), {})
  {
    var evts := Expected(Other(name));
    var quiet, after := Ingested(book, evts, now), Round(book, name, now, ids);
    IngestReflects(book, evts, now, batch);
    forall id
      ensures id in after <==> id in book && book[id].state == Shelved
      ensures id in after ==> after[id].state == Acked && WellFormed(id, after[id], {})
    {
      IngestedAt(book, evts, id, now);
      AcksAt(quiet, ids, id);
      assert Find(after, id) == None <==> id !in after;
    }
  }

  function AckActs(ids: seq<string>): seq<Action> {
    if ids == [] then [] else AckActs(ids[..|ids| - 1]) + [AckAlarm(ids[|ids| - 1])]
  }

  /** The actions of a round from a world: no other tick or operator comes between them. */
  function RoundActs(w: World, name: string, rng: Draws, now: int, ids: seq<string>): seq<Action> {
    [SetScenario(Other(name))] + (TickActs(w, rng, now) + AckActs(ids))
  }

  lemma {:induction false} AcksRun(w: World, ids: seq<string>)
    ensures From(w, AckActs(ids)) == w.(book := Run(w.book, Acks(ids)))
  {
    if ids != [] {
      var front, last := ids[..|ids| - 1], ids[|ids| - 1];
      AcksRun(w, front);
      FromSnoc(w, AckActs(front), AckAlarm(last));
      assert Acks(ids)[..|front|] == Acks(front);
    }
  }

  /** A round, run on the plant: it changes the book, the scenario and what was shown last,
      and leaves every batch that was in flight where it was. */
  lemma RoundRuns(w: World, name: string, rng: Draws, now: int, ids: seq<string>)
    ensures From(w, RoundActs(w, name, rng, now, ids))
         == World(Other(name), false, Round(w.book, name, now, ids), w.inFlight, Some(Other(name)))
  {
    var quiet := w.(scenario := Other(name));
    FromOne(w, SetScenario(Other(name)));
    FromJoin(w, [SetScenario(Other(name))], TickActs(w, rng, now) + AckActs(ids));
    FromJoin(quiet, TickActs(w, rng, now), AckActs(ids));
    SequentialTick(quiet, rng, now);
    AcksRun(From(quiet, TickActs(w, rng, now)), ids);
  }

  ghost predicate NothingShelved(book: Entries) { forall id :: id in book ==> book[id].state != Shelved }

  /** One round empties the book of any run exactly when nothing is shelved in it. */
  lemma RoundDrainsExactlyWhen(acts: seq<Action>, name: string, rng: Draws, now: int, ids: seq<string>)
    requires forall id :: id in History(acts).book ==> id in ids
    ensures var w := History(acts); var after := History(acts + RoundActs(w, name, rng, now, ids)).book;
      && (after == map[] <==> NothingShelved(w.book))
      && NothingShelved(after)
  {
    var book := History(acts).book;
    var once := Round(book, name, now, ids);
    BookFollowsPlant(acts);
    FromJoin(INITIAL, acts, RoundActs(History(acts), name, rng, now, ids));
    RoundRuns(History(acts), name, rng, now, ids);
    RoundLeavesTheShelved(book, name, now, ids, ExpectedTypes(History(acts).shown));
    if NothingShelved(book) {
      assert forall id :: id !in once;
    } else {
      var id :| id in book && book[id].state == Shelved;
      assert id in once;
    }
  }

  lemma OnlyShelvingShelves(w: World, a: Action)
    requires NothingShelved(w.book) && !a.ShelveAlarm?
    ensures NothingShelved(Act(w, a).book)
  {
    if a.TickIngest? && a.i < |w.inFlight| {
      var evts := w.inFlight[a.i].evts;
      forall id | id in Act(w, a).book ensures Act(w, a).book[id].state != Shelved {
        IngestedAt(w.book, evts, id, a.now);
      }
    }
  }

  lemma {:induction false} NothingGetsShelved(w: World, acts: seq<Action>)
    requires NothingShelved(w.book) && forall i :: 0 <= i < |acts| ==> !acts[i].ShelveAlarm?
    ensures NothingShelved(From(w, acts).book)
  {
    if acts != [] {
      NothingGetsShelved(w, acts[..|acts| - 1]);
      OnlyShelvingShelves(From(w, acts[..|acts| - 1]), acts[|acts| - 1]);
    }
  }

  /** Draining: from every moment of every run, two rounds leave the book empty, whatever
      happens between them short of shelving: other scenarios, ticks, late batches. */
  lemma TwoRoundsDrain(acts: seq<Action>, name1: string, rng1: Draws, now1: int, ids1: seq<string>,
                       between: seq<Action>, name2: string, rng2: Draws, now2: int, ids2: seq<string>)
    requires forall id :: id in History(acts).book ==> id in ids1
    requires forall i :: 0 <= i < |between| ==> !between[i].ShelveAlarm?
    requires var acts' := acts + RoundActs(History(acts), name1, rng1, now1, ids1) + between;
      forall id :: id in History(acts').book ==> id in ids2
    ensures var acts' := acts + RoundActs(History(acts), name1, rng1, now1, ids1) + between;
      History(acts' + RoundActs(History(acts'), name2, rng2, now2, ids2)).book == map[]
  {
    var once := acts + RoundActs(History(acts), name1, rng1, now1, ids1);
    RoundDrainsExactlyWhen(acts, name1, rng1, now1, ids1);
    FromJoin(INITIAL, once, between);
    NothingGetsShelved(History(once), between);
    RoundDrainsExactlyWhen(once + between, name2, rng2, now2, ids2);
  }

  /** A batch still in flight when the book was drained, from however long ago, refills it
      with exactly the alarms of its own scenario: each unacknowledged, once, and with the
      severity and command of its event. */
  lemma LateBatchRefills(acts: seq<Action>, i: nat, now: int)
    requires History(acts).book == map[] && i < |History(acts).inFlight|
    ensures var s, book := History(acts).inFlight[i].scenario, History(acts + [TickIngest(i, now)]).book;
      && (forall id :: id in book ==> exists e :: e in Expected(s) && e.typ == id)
      && (forall e :: e in Expected(s) ==>
           e.typ in book && book[e.typ] == Alarm(e.typ, e.typ, e.severity, Unack, 1, now, now, None, e.command))
  {
    var w, book := History(acts), History(acts + [TickIngest(i, now)]).book;
    var s, evts := w.inFlight[i].scenario, w.inFlight[i].evts;
    FromSnoc(INITIAL, acts, TickIngest(i, now));
    InFlightIsExpected(acts);
    forall id | id in book
      ensures exists e :: e in evts && e.typ == id
    {
      IngestedAt(w.book, evts, id, now);
      HitsAreTypes(id, evts);
    }
    forall e | e in evts
      ensures e.typ in book && book[e.typ] == Alarm(e.typ, e.typ, e.severity, Unack, 1, now, now, None, e.command)
    {
      IngestedAt(w.book, evts, e.typ, now);
      ExpectedHitsOnce(s, e);
    }
  }

  /** Each expected event is the only one of its type in its batch. */
  lemma ExpectedHitsOnce(s: Scenario, e: Event)
    requires e in Expected(s)
    ensures Hits(e.typ, Expected(s)) == [e]
  {
    var k :| 0 <= k < |Expected(s)| && Expected(s)[k] == e;
    OneHit(Expected(s), k, s);
  }

  lemma {:induction false} OneHit(evts: seq<Event>, k: nat, s: Scenario)
    requires evts <= Expected(s)
    requires k < |Expected(s)|
    ensures Hits(Expected(s)[k].typ, evts) == if k < |evts| then [Expected(s)[k]] else []
  {
    if evts != [] {
      var n := |evts| - 1;
      OneHit(evts[..n], k, s);
      if k < n {
        ExpectedAreDistinct(s, k, n);
      } else if n < k {
        ExpectedAreDistinct(s, n, k);
      } else {
        ExpectedHasNoInfo(s);
        assert Expected(s)[k] in Expected(s);
      }
    }
  }
}
