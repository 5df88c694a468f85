/** The alarm book of internal/firewater/alarms.go: a reduced alarm lifecycle (unacknowledged,
    acknowledged, shelved, returned) over a map from alarm id to alarm. Each mutex section is
    one atomic operation; the wall clock it reads is a parameter. */
module Alarms {
  import opened Common

  datatype Severity = Info | Warning | Critical

  datatype AlarmState = Normal | Unack | Acked | Shelved | Returned

  datatype Event = Event(typ: string, severity: Severity, command: string)

  datatype Alarm = Alarm(id: string, typ: string, severity: Severity, state: AlarmState, count: int,
                         firstAt: int, lastAt: int, shelvedTo: Option<int>, message: string)

  type Entries = map<string, Alarm>

  // ---- what a batch does to one alarm --------------------------------------------------

  /** The events of a batch that concern the alarm `id`: of its type and not informational. */
  function Hits(id: string, evts: seq<Event>): seq<Event> {
    if evts == [] then []
    else
      var front, e := Hits(id, evts[..|evts| - 1]), evts[|evts| - 1];
      if e.typ == id && e.severity != Info then front + [e] else front
  }

  predicate StillShelved(a: Alarm, now: int) {
    a.state == Shelved && a.shelvedTo != None && now < a.shelvedTo.value
  }

  /** The alarm after a batch that holds its condition `hits` times. */
  function Raised(prev: Option<Alarm>, hits: seq<Event>, now: int): Alarm
    requires hits != []
  {
    var last := hits[|hits| - 1];
    match prev
    case None =>
      Alarm(hits[0].typ, hits[0].typ, last.severity, Unack, |hits|, now, now, None, hits[0].command)
    case Some(a) =>
      if StillShelved(a, now) then a.(count := a.count + |hits|, lastAt := now)
      else a.(state := if a.state == Acked then Acked else Unack,
              shelvedTo := if a.state == Shelved then None else a.shelvedTo,
              severity := last.severity, count := a.count + |hits|, lastAt := now)
  }

  /** The alarm after a batch without its condition. */
  function Cleared(a: Alarm): Alarm {
    if a.state == Unack || a.state == Acked then a.(state := Returned) else a
  }

  function Types(evts: seq<Event>): set<string> {
    set e | e in evts && e.severity != Info :: e.typ
  }

  /** What becomes of one alarm id under a batch. */
  function Outcome(prev: Option<Alarm>, hits: seq<Event>, now: int): Option<Alarm> {
    if hits != [] then Some(Raised(prev, hits, now))
    else if prev == None then None
    else Some(Cleared(prev.value))
  }

  /** The whole book after a batch: each id on its own, from its own events only. */
  function Ingested(book: Entries, evts: seq<Event>, now: int): Entries {
    map id | id in book.Keys + Types(evts) && Outcome(Find(book, id), Hits(id, evts), now) != None
      :: Outcome(Find(book, id), Hits(id, evts), now).value
  }

  lemma {:induction false} HitsAreTypes(id: string, evts: seq<Event>)
    ensures Hits(id, evts) != [] <==> id in Types(evts)
    ensures forall i :: 0 <= i < |Hits(id, evts)| ==> Hits(id, evts)[i].typ == id
  {
    if evts != [] {
      var n := |evts| - 1;
      HitsAreTypes(id, evts[..n]);
      assert evts == evts[..n] + [evts[n]];
    }
  }

  /** Which events of a batch concern the alarm. */
  function Concerns(id: string, evts: seq<Event>): (mask: seq<bool>)
    ensures |mask| == |evts|
    ensures forall i :: 0 <= i < |mask| ==> (mask[i] <==> evts[i].typ == id && evts[i].severity != Info)
  {
    seq(|evts|, i requires 0 <= i < |evts| => evts[i].typ == id && evts[i].severity != Info)
  }

  /** The hits are those events, in their order and as often as they occur. */
  lemma {:induction false} HitsAreTheEvents(id: string, evts: seq<Event>)
    ensures Hits(id, evts) == Keep(evts, Concerns(id, evts))
  {
    if evts != [] {
      var n := |evts| - 1;
      HitsAreTheEvents(id, evts[..n]);
      assert Concerns(id, evts)[..n] == Concerns(id, evts[..n]);
    }
  }

  function Acknowledged(book: Entries, id: string): Entries {
    if id !in book then book
    else if book[id].state == Returned then book - {id}
    else book[id := book[id].(state := Acked)]
  }

  function PutOnShelf(book: Entries, id: string, until: int): Entries {
    if id !in book then book
    else book[id := book[id].(state := Shelved, shelvedTo := Some(until))]
  }

  class Book {
    var active: Entries

    constructor ()
      ensures active == map[]
    {
      active := map[];
    }

    method Ingest(evts: seq<Event>, now: int)
      modifies this
      ensures active == Ingested(old(active), evts, now)
    {
      ghost var before := active;
      var seen: set<string> := {};
      for i := 0 to |evts|
        invariant seen == Types(evts[..i])
        invariant active == Taken(before, evts[..i], now)
      {
        TurnOf(before, evts, i, now);
        if evts[i].severity == Info {
          continue;
        }
        seen := seen + {evts[i].typ};
        Take(evts[i], now);
      }
      assert evts[..|evts|] == evts;
      ReturnUnseen(seen);
      IngestEnds(before, evts, now, active);
    }

    /** One turn of the first loop: an event that is not informational. */
    method Take(ev: Event, now: int)
      modifies this
      ensures active == old(active)[ev.typ := Raised(Find(old(active), ev.typ), [ev], now)]
    {
      if ev.typ !in active {
        active := active[ev.typ := Alarm(ev.typ, ev.typ, ev.severity, Unack, 1, now, now, None, ev.command)];
        return;
      }
      var a := active[ev.typ];
      if a.state == Shelved && a.shelvedTo != None && now < a.shelvedTo.value {
        active := active[ev.typ := a.(count := a.count + 1, lastAt := now)];
        return;
      }
      if a.state == Shelved {
        a := a.(state := Unack, shelvedTo := None);
      }
      if a.state == Normal || a.state == Returned {
        a := a.(state := Unack);
      }
      active := active[ev.typ := a.(count := a.count + 1, lastAt := now, severity := ev.severity)];
    }

    /** The second loop: a standing alarm whose condition was not seen has returned. */
    method ReturnUnseen(seen: set<string>)
      modifies this
      ensures active.Keys == old(active).Keys
      ensures forall id :: id in active ==>
        active[id] == if id in seen then old(active)[id] else Cleared(old(active)[id])
    {
      ghost var taken := active;
      var pending := active.Keys;
      while pending != {}
        invariant pending <= taken.Keys == active.Keys
        invariant forall id :: id in taken ==>
          active[id] == if id in pending || id in seen then taken[id] else Cleared(taken[id])
        decreases pending
      {
        var id :| id in pending;
        pending := pending - {id};
        if id in seen {
          continue;
        }
        if active[id].state == Unack || active[id].state == Acked {
          active := active[id := active[id].(state := Returned)];
        }
      }
    }

    method Ack(id: string) returns (r: Option<Alarm>)
      modifies this
      ensures active == Acknowledged(old(active), id)
      ensures id !in old(active) ==> r == None
      ensures id in old(active) ==> r == Some(old(active)[id].(state :=
                if old(active)[id].state == Returned then Normal else Acked))
    {
      if id !in active {
        return None;
      }
      var a := active[id];
      if a.state == Returned {
        active := active - {id};
        return Some(a.(state := Normal));
      }
      a := a.(state := Acked);
      active := active[id := a];
      return Some(a);
    }

    method Shelve(id: string, d: int, now: int) returns (r: Option<Alarm>)
      modifies this
      ensures active == PutOnShelf(old(active), id, now + d)
      ensures r == Find(active, id)
    {
      if id !in active {
        return None;
      }
      var until := now + d;
      var a := active[id].(state := Shelved, shelvedTo := Some(until));
      active := active[id := a];
      return Some(a);
    }

    /** Every alarm of the book, each once, in no particular order. */
    method List() returns (out: seq<Alarm>)
      ensures |out| == |active|
      ensures forall a :: a in out <==> a in active.Values
    {
      out := [];
      var pending := active.Keys;
      ghost var done: set<string> := {};
      while pending != {}
        invariant done !! pending && done + pending == active.Keys
        invariant |out| == |done|
        invariant forall a :: a in out <==> exists id :: id in done && active[id] == a
        decreases pending
      {
        var id :| id in pending;
        out := out + [active[id]];
        pending := pending - {id};
        done := done + {id};
      }
      assert done == active.Keys;
    }
  }

  // ---- the ingest loop, seen from one alarm --------------------------------------------

  /** The book once the first loop has read a batch, before cleared alarms return. */
  ghost function Taken(book: Entries, evts: seq<Event>, now: int): Entries {
    map id | id in book.Keys + Types(evts) && (id in book || Hits(id, evts) != [])
      :: if Hits(id, evts) != [] then Raised(Find(book, id), Hits(id, evts), now) else book[id]
  }

  lemma SameEntries(x: Entries, y: Entries)
    requires forall id :: Find(x, id) == Find(y, id)
    ensures x == y
  {
    assert forall id :: id in x <==> Find(x, id) != None;
    assert forall id :: id in y <==> Find(y, id) != None;
    assert forall id :: id in x ==> Find(x, id).value == x[id] && Find(y, id).value == y[id];
  }

  /** One turn of the first loop, in terms of the prefix read so far. */
  lemma TurnOf(book: Entries, evts: seq<Event>, i: nat, now: int)
    requires i < |evts|
    ensures var e, t, u := evts[i], Taken(book, evts[..i], now), Taken(book, evts[..i + 1], now);
      && Types(evts[..i + 1]) == Types(evts[..i]) + (if e.severity == Info then {} else {e.typ})
      && u == if e.severity == Info then t else t[e.typ := Raised(Find(t, e.typ), [e], now)]
  {
    TakenStep(book, evts[..i], evts[i], now);
    TypesStep(evts[..i], evts[i]);
    assert evts[..i + 1] == evts[..i] + [evts[i]];
  }

  /** Taking every event and then returning what was not seen is ingesting the batch. */
  lemma IngestEnds(book: Entries, evts: seq<Event>, now: int, after: Entries)
    requires after.Keys == Taken(book, evts, now).Keys
    requires forall id :: id in after ==>
      after[id] == if id in Types(evts) then Taken(book, evts, now)[id] else Cleared(Taken(book, evts, now)[id])
    ensures after == Ingested(book, evts, now)
  {
    forall id
      ensures Find(after, id) == Find(Ingested(book, evts, now), id)
    {
      HitsAreTypes(id, evts);
    }
    SameEntries(after, Ingested(book, evts, now));
  }

  lemma TypesStep(evts: seq<Event>, e: Event)
    ensures Types(evts + [e]) == Types(evts) + (if e.severity == Info then {} else {e.typ})
  {
  }

  lemma HitsStep(id: string, evts: seq<Event>, e: Event)
    ensures Hits(id, evts + [e]) == Hits(id, evts) + (if e.typ == id && e.severity != Info then [e] else [])
  {
    assert (evts + [e])[..|evts|] == evts;
  }

  lemma TakenStep(book: Entries, evts: seq<Event>, e: Event, now: int)
    ensures e.severity == Info ==> Taken(book, evts + [e], now) == Taken(book, evts, now)
    ensures e.severity != Info ==>
      Taken(book, evts + [e], now)
      == Taken(book, evts, now)[e.typ := Raised(Find(Taken(book, evts, now), e.typ), [e], now)]
  {
    var t, u := Taken(book, evts, now), Taken(book, evts + [e], now);
    var v := if e.severity == Info then t else t[e.typ := Raised(Find(t, e.typ), [e], now)];
    forall id
      ensures Find(u, id) == Find(v, id)
    {
      TakenStepAt(book, evts, e, id, now);
    }
    SameEntries(u, v);
  }

  /** One alarm once the first loop has read its events. */
  ghost function TakenOf(prev: Option<Alarm>, hits: seq<Event>, now: int): Option<Alarm> {
    if hits != [] then Some(Raised(prev, hits, now)) else prev
  }

  lemma TakenOfStep(prev: Option<Alarm>, hits: seq<Event>, e: Event, now: int)
    ensures TakenOf(prev, hits + [e], now) == Some(Raised(TakenOf(prev, hits, now), [e], now))
  {
    if hits != [] {
      RaisedStep(prev, hits, e, now);
    } else {
      assert hits + [e] == [e];
    }
  }

  lemma TakenAt(book: Entries, evts: seq<Event>, id: string, now: int)
    ensures Find(Taken(book, evts, now), id) == TakenOf(Find(book, id), Hits(id, evts), now)
  {
    HitsAreTypes(id, evts);
  }

  /** What reading one more event does to the entry of one id. */
  lemma TakenStepAt(book: Entries, evts: seq<Event>, e: Event, id: string, now: int)
    ensures var t, u := Find(Taken(book, evts, now), id), Find(Taken(book, evts + [e], now), id);
      u == if e.severity == Info || e.typ != id then t else Some(Raised(t, [e], now))
  {
    HitsStep(id, evts, e);
    TakenAt(book, evts, id, now);
    TakenAt(book, evts + [e], id, now);
    TakenOfStep(Find(book, id), Hits(id, evts), e, now);
  }

  /** Raising by a batch is raising by its events one after the other. */
  lemma RaisedStep(prev: Option<Alarm>, hits: seq<Event>, e: Event, now: int)
    requires hits != []
    ensures Raised(prev, hits + [e], now) == Raised(Some(Raised(prev, hits, now)), [e], now)
  {
  }
}
