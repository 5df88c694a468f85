/** Whole histories of the alarm book: any interleaving of ingested batches, acknowledgements
    and shelvings, at any clock readings (internal/firewater/alarms.go, lines 41-116). */
module AlarmRuns {
  import opened Common
  import opened Alarms

  datatype Op = Ingest(evts: seq<Event>, now: int) | Ack(id: string) | Shelve(id: string, until: int)

  function Apply(book: Entries, op: Op): Entries {
    match op
    case Ingest(evts, now) => Ingested(book, evts, now)
    case Ack(id) => Acknowledged(book, id)
    case Shelve(id, until) => PutOnShelf(book, id, until)
  }

  function Run(book: Entries, ops: seq<Op>): Entries {
    if ops == [] then book else Apply(Run(book, ops[..|ops| - 1]), ops[|ops| - 1])
  }

  /** The batch the book saw last; nothing has been seen at first. */
  function LastBatch(ops: seq<Op>): seq<Event> {
    if ops == [] then []
    else if ops[|ops| - 1].Ingest? then ops[|ops| - 1].evts
    else LastBatch(ops[..|ops| - 1])
  }

  lemma IngestedAt(book: Entries, evts: seq<Event>, id: string, now: int)
    ensures Find(Ingested(book, evts, now), id) == Outcome(Find(book, id), Hits(id, evts), now)
  {
    HitsAreTypes(id, evts);
  }

  // ---- one alarm at a time -------------------------------------------------------------

  /** What one operation makes of one alarm. */
  function Fate(prev: Option<Alarm>, op: Op, id: string): Option<Alarm> {
    match op
    case Ingest(evts, now) => Outcome(prev, Hits(id, evts), now)
    case Ack(x) =>
      if x != id || prev == None then prev
      else if prev.value.state == Returned then None
      else Some(prev.value.(state := Acked))
    case Shelve(x, until) =>
      if x != id || prev == None then prev
      else Some(prev.value.(state := Shelved, shelvedTo := Some(until)))
  }

  function FateRun(prev: Option<Alarm>, ops: seq<Op>, id: string): Option<Alarm> {
    if ops == [] then prev else Fate(FateRun(prev, ops[..|ops| - 1], id), ops[|ops| - 1], id)
  }

  lemma ApplyAt(book: Entries, op: Op, id: string)
    ensures Find(Apply(book, op), id) == Fate(Find(book, id), op, id)
  {
    if op.Ingest? {
      IngestedAt(book, op.evts, id, op.now);
    }
  }

  /** Alarms are independent: what becomes of one is decided by it and the operations alone. */
  lemma {:induction false} AlarmsAreIndependent(book: Entries, ops: seq<Op>, id: string)
    ensures Find(Run(book, ops), id) == FateRun(Find(book, id), ops, id)
  {
    if ops != [] {
      AlarmsAreIndependent(book, ops[..|ops| - 1], id);
      ApplyAt(Run(book, ops[..|ops| - 1]), ops[|ops| - 1], id);
    }
  }

  // ---- no active alarm is lost ---------------------------------------------------------

  predicate Standing(s: AlarmState) { s == Unack || s == Acked || s == Shelved }

  /** How the book reflects the last batch, and the shape of its entries. */
  ghost predicate Reflects(book: Entries, batch: set<string>) {
    && (forall id :: id in batch ==> id in book && Standing(book[id].state))
    && (forall id :: id in book ==> WellFormed(id, book[id], batch))
  }

  ghost predicate WellFormed(id: string, a: Alarm, batch: set<string>) {
    && a.id == a.typ == id && a.count >= 1
    && a.state != Normal
    && (a.state == Unack ==> id in batch)
    && (a.state == Returned ==> id !in batch)
    && (a.state == Shelved ==> a.shelvedTo != None)
  }

  lemma IngestReflects(book: Entries, evts: seq<Event>, now: int, before: set<string>)
    requires Reflects(book, before)
    ensures Reflects(Ingested(book, evts, now), Types(evts))
  {
    var after := Ingested(book, evts, now);
    forall id
      ensures id in Types(evts) ==> id in after && Standing(after[id].state)
      ensures id in after ==> WellFormed(id, after[id], Types(evts))
    {
      HitsAreTypes(id, evts);
      IngestedAt(book, evts, id, now);
      var hits := Hits(id, evts);
      assert hits != [] ==> hits[0].typ == id;
    }
  }

  lemma ApplyReflects(book: Entries, op: Op, batch: set<string>)
    requires Reflects(book, batch) && !op.Ingest?
    ensures Reflects(Apply(book, op), batch)
  {
  }

  lemma {:induction false} BookReflectsLastBatch(ops: seq<Op>)
    ensures Reflects(Run(map[], ops), Types(LastBatch(ops)))
  {
    if ops != [] {
      var front, op := ops[..|ops| - 1], ops[|ops| - 1];
      var batch := Types(LastBatch(front));
      BookReflectsLastBatch(front);
      if op.Ingest? {
        IngestReflects(Run(map[], front), op.evts, op.now, batch);
      } else {
        ApplyReflects(Run(map[], front), op, batch);
      }
    }
  }

  /** No active alarm is lost: in every run, each event of the last batch that is not
      informational stands in the book unacknowledged, acknowledged or shelved; an
      unacknowledged alarm has such an event in that batch, a returned one has none; and no
      entry is ever in the normal state. */
  lemma NoActiveAlarmIsLost(ops: seq<Op>)
    ensures var book, batch := Run(map[], ops), LastBatch(ops);
      && (forall e :: e in batch && e.severity != Info ==>
           e.typ in book && (book[e.typ].state == Unack || book[e.typ].state == Acked || book[e.typ].state == Shelved))
      && (forall id :: id in book && book[id].state == Unack ==>
           exists e :: e in batch && e.typ == id && e.severity != Info)
      && (forall id, e :: id in book && book[id].state == Returned && e in batch && e.typ == id ==> e.severity == Info)
      && (forall id :: id in book ==> book[id].id == book[id].typ == id && book[id].state != Normal)
  {
    BookReflectsLastBatch(ops);
    var batch := LastBatch(ops);
    assert forall e :: e in batch && e.severity != Info ==> e.typ in Types(batch);
    assert forall id :: id in Types(batch) ==> exists e :: e in batch && e.typ == id && e.severity != Info;
  }

  /** One operation removes an entry exactly when it acknowledges it while returned. */
  lemma RemovalIsAckOfReturned(book: Entries, op: Op, id: string)
    requires id in book
    ensures id !in Apply(book, op) <==> op == Ack(id) && book[id].state == Returned
  {
    ApplyAt(book, op, id);
  }

  /** In a run, an entry that was there and is gone was acknowledged while returned. */
  lemma {:induction false} OnlyAckOfReturnedForgets(book: Entries, ops: seq<Op>, id: string)
    requires id in book && id !in Run(book, ops)
    ensures exists m: nat :: m < |ops| && ops[m] == Ack(id)
              && id in Run(book, ops[..m]) && Run(book, ops[..m])[id].state == Returned
  {
    var n := |ops| - 1;
    if id in Run(book, ops[..n]) {
      RemovalIsAckOfReturned(Run(book, ops[..n]), ops[n], id);
    } else {
      OnlyAckOfReturnedForgets(book, ops[..n], id);
      var m: nat :| m < n && ops[..n][m] == Ack(id)
        && id in Run(book, ops[..n][..m]) && Run(book, ops[..n][..m])[id].state == Returned;
      assert ops[..n][..m] == ops[..m];
    }
  }

  // ---- accounting ----------------------------------------------------------------------

  /** How often a run of operations ingests the condition `id`. */
  function Total(id: string, ops: seq<Op>): nat {
    if ops == [] then 0
    else
      var op := ops[|ops| - 1];
      Total(id, ops[..|ops| - 1]) + (if op.Ingest? then |Hits(id, op.evts)| else 0)
  }

  /** The reading of the clock at the last batch that held the condition. */
  function LastHit(id: string, ops: seq<Op>): Option<int> {
    if ops == [] then None
    else
      var op := ops[|ops| - 1];
      if op.Ingest? && Hits(id, op.evts) != [] then Some(op.now) else LastHit(id, ops[..|ops| - 1])
  }

  /** The severity the run saw last for the condition, or the given one. */
  function LastSeverity(id: string, ops: seq<Op>, before: Severity): Severity {
    if ops == [] then before
    else
      var op := ops[|ops| - 1];
      if op.Ingest? && Hits(id, op.evts) != [] then Hits(id, op.evts)[|Hits(id, op.evts)| - 1].severity
      else LastSeverity(id, ops[..|ops| - 1], before)
  }

  /** No operation of the run shelves the alarm. */
  predicate NeverShelved(ops: seq<Op>, id: string) {
    forall i :: 0 <= i < |ops| ==> !(ops[i].Shelve? && ops[i].id == id)
  }

  ghost predicate Stands(ops: seq<Op>, m: nat, id: string)
    requires m <= |ops|
  {
    id in Run(map[], ops[..m])
  }

  /** The entry `id` that stands after the run was created by operation `born`. */
  ghost predicate BornAt(ops: seq<Op>, id: string, born: nat) {
    && born < |ops| && ops[born].Ingest? && Hits(id, ops[born].evts) != []
    && !Stands(ops, born, id)
    && forall m :: born < m <= |ops| ==> Stands(ops, m, id)
  }

  lemma StandsPrefix(ops: seq<Op>, m: nat, id: string)
    requires m < |ops|
    ensures Stands(ops, m, id) == Stands(ops[..|ops| - 1], m, id)
  {
    assert ops[..m] == ops[..|ops| - 1][..m];
  }

  lemma StandsNow(ops: seq<Op>, id: string)
    ensures Stands(ops, |ops|, id) <==> id in Run(map[], ops)
  {
    assert ops[..|ops|] == ops;
  }

  lemma BornStep(ops: seq<Op>, id: string, born: nat)
    requires ops != [] && BornAt(ops[..|ops| - 1], id, born) && Stands(ops, |ops|, id)
    ensures BornAt(ops, id, born)
  {
    StandsPrefix(ops, born, id);
    forall m | born < m <= |ops|
      ensures Stands(ops, m, id)
    {
      if m < |ops| {
        StandsPrefix(ops, m, id);
      }
    }
  }

  /** The entry `a` that batch `since[0]` created accounts for everything ingested since. */
  ghost predicate Accounts(a: Alarm, id: string, since: seq<Op>) {
    && since != [] && since[0].Ingest? && Hits(id, since[0].evts) != []
    && a.count == Total(id, since)
    && a.firstAt == since[0].now && Some(a.lastAt) == LastHit(id, since)
    && a.message == Hits(id, since[0].evts)[0].command
    && (NeverShelved(since, id) ==> a.state != Shelved && forall any :: a.severity == LastSeverity(id, since, any))
  }

  lemma AccountsStep(a: Alarm, id: string, since: seq<Op>, op: Op, after: Alarm)
    requires Accounts(a, id, since) && Some(after) == Fate(Some(a), op, id)
    ensures Accounts(after, id, since + [op])
  {
    assert (since + [op])[..|since|] == since;
  }

  lemma AccountsFirst(id: string, op: Op, after: Alarm)
    requires Some(after) == Fate(None, op, id)
    ensures op.Ingest? && Accounts(after, id, [op])
  {
    assert [op][..0] == [];
  }

  /** Batch `born` created the entry that stands after the run, which accounts for all since. */
  ghost predicate Created(ops: seq<Op>, id: string, born: nat) {
    BornAt(ops, id, born) && id in Run(map[], ops) && Accounts(Run(map[], ops)[id], id, ops[born..])
  }

  lemma CreatedStep(ops: seq<Op>, id: string, born: nat, before: Alarm, after: Alarm)
    requires ops != [] && BornAt(ops[..|ops| - 1], id, born) && Stands(ops, |ops|, id)
    requires Accounts(before, id, ops[..|ops| - 1][born..])
    requires Some(after) == Fate(Some(before), ops[|ops| - 1], id)
    ensures BornAt(ops, id, born) && Accounts(after, id, ops[born..])
  {
    var n := |ops| - 1;
    AccountsStep(before, id, ops[..n][born..], ops[n], after);
    assert ops[born..] == ops[..n][born..] + [ops[n]];
    BornStep(ops, id, born);
  }

  lemma CreatedNow(ops: seq<Op>, id: string, after: Alarm)
    requires ops != [] && !Stands(ops[..|ops| - 1], |ops| - 1, id) && Stands(ops, |ops|, id)
    requires Some(after) == Fate(None, ops[|ops| - 1], id)
    ensures BornAt(ops, id, |ops| - 1) && Accounts(after, id, ops[|ops| - 1..])
  {
    var n := |ops| - 1;
    AccountsFirst(id, ops[n], after);
    assert ops[n..] == [ops[n]];
    assert ops[..n][..n] == ops[..n];
  }

  /** An alarm's books balance: its count is the number of events of its type ingested since
      the batch that created it, shelved ones included; its first and last instants and its
      message come from that batch and from the last one that held it; and unless it has been
      shelved since, its severity is that of the last of those events. */
  lemma {:induction false} CountsEveryEvent(ops: seq<Op>, id: string)
    requires id in Run(map[], ops)
    ensures exists born: nat :: Created(ops, id, born)
  {
    var front, op := ops[..|ops| - 1], ops[|ops| - 1];
    var book, after := Run(map[], front), Run(map[], ops);
    StandsNow(ops, id);
    StandsNow(front, id);
    ApplyAt(book, op, id);
    if id in book {
      CountsEveryEvent(front, id);
      var born: nat :| Created(front, id, born);
      CreatedStep(ops, id, born, book[id], after[id]);
      assert Created(ops, id, born);
    } else {
      CreatedNow(ops, id, after[id]);
      assert Created(ops, id, |ops| - 1);
    }
  }

  // ---- shelving ------------------------------------------------------------------------

  /** The operation neither acknowledges nor re-shelves `id`. */
  predicate LeavesAlone(op: Op, id: string) {
    !(op.Ack? && op.id == id) && !(op.Shelve? && op.id == id)
  }

  /** The operation ingests the condition at or after the end of the shelf time. */
  predicate Wakes(op: Op, id: string, until: int) {
    op.Ingest? && until <= op.now && Hits(id, op.evts) != []
  }

  /** The alarm with the tally of a run added. */
  function Tallied(a: Alarm, id: string, ops: seq<Op>): Alarm {
    a.(count := a.count + Total(id, ops),
       lastAt := if LastHit(id, ops) == None then a.lastAt else LastHit(id, ops).value)
  }

  lemma {:induction false} ShelfHolds(a: Alarm, ops: seq<Op>, id: string, until: int)
    requires a.state == Shelved && a.shelvedTo == Some(until)
    requires forall i :: 0 <= i < |ops| ==> LeavesAlone(ops[i], id) && !Wakes(ops[i], id, until)
    ensures FateRun(Some(a), ops, id) == Some(Tallied(a, id, ops))
  {
    if ops != [] {
      ShelfHolds(a, ops[..|ops| - 1], id, until);
    }
  }

  /** A shelved alarm changes in nothing but its tally until the first batch at or after the
      end of its shelf time that holds its condition. */
  lemma ShelfHoldsUntilWoken(book: Entries, ops: seq<Op>, id: string, until: int)
    requires id in book && book[id].state == Shelved && book[id].shelvedTo == Some(until)
    requires forall i :: 0 <= i < |ops| ==> LeavesAlone(ops[i], id) && !Wakes(ops[i], id, until)
    ensures Find(Run(book, ops), id) == Some(Tallied(book[id], id, ops))
  {
    ShelfHolds(book[id], ops, id, until);
    AlarmsAreIndependent(book, ops, id);
  }

  /** That batch makes it unacknowledged, with the severity of its last event. */
  lemma WakingUnshelves(book: Entries, ops: seq<Op>, id: string, until: int, wake: Op)
    requires id in book && book[id].state == Shelved && book[id].shelvedTo == Some(until)
    requires forall i :: 0 <= i < |ops| ==> LeavesAlone(ops[i], id) && !Wakes(ops[i], id, until)
    requires Wakes(wake, id, until)
    ensures var hits, after := Hits(id, wake.evts), Find(Run(book, ops + [wake]), id);
      after != None && after.value.state == Unack && after.value.shelvedTo == None
      && after.value.severity == hits[|hits| - 1].severity
  {
    ShelfHolds(book[id], ops, id, until);
    AlarmsAreIndependent(book, ops + [wake], id);
    assert (ops + [wake])[..|ops|] == ops;
  }

  predicate NeverWoken(ops: seq<Op>, id: string, until: int) {
    forall i :: 0 <= i < |ops| ==> !Wakes(ops[i], id, until)
  }

  lemma {:induction false} WokenStaysUnshelved(a: Alarm, ops: seq<Op>, id: string, until: int)
    requires a.state == Shelved && a.shelvedTo == Some(until)
    requires forall i :: 0 <= i < |ops| ==> LeavesAlone(ops[i], id)
    ensures FateRun(Some(a), ops, id) != None
    ensures FateRun(Some(a), ops, id).value.state == Shelved <==> NeverWoken(ops, id, until)
  {
    if ops != [] {
      var front := ops[..|ops| - 1];
      WokenStaysUnshelved(a, front, id, until);
      if NeverWoken(front, id, until) {
        ShelfHolds(a, front, id, until);
      } else {
        var i :| 0 <= i < |front| && Wakes(front[i], id, until);
        assert Wakes(ops[i], id, until);
      }
    }
  }

  /** Left alone, a shelved alarm is still shelved if and only if no batch woke it. */
  lemma ShelvedExactlyUntilWoken(book: Entries, ops: seq<Op>, id: string, until: int)
    requires id in book && book[id].state == Shelved && book[id].shelvedTo == Some(until)
    requires forall i :: 0 <= i < |ops| ==> LeavesAlone(ops[i], id)
    ensures id in Run(book, ops)
    ensures Run(book, ops)[id].state == Shelved <==> NeverWoken(ops, id, until)
  {
    WokenStaysUnshelved(book[id], ops, id, until);
    AlarmsAreIndependent(book, ops, id);
  }

  // ---- acknowledged alarms and severities ----------------------------------------------

  /** Every batch of the run holds the condition. */
  predicate AlwaysPresent(ops: seq<Op>, id: string) {
    forall i :: 0 <= i < |ops| && ops[i].Ingest? ==> Hits(id, ops[i].evts) != []
  }

  /** Left alone, an acknowledged alarm stays acknowledged if and only if no batch misses its
      condition; once one does, it never becomes acknowledged again by itself. */
  lemma {:induction false} AckedExactlyWhilePresent(a: Alarm, ops: seq<Op>, id: string)
    requires a.state == Acked
    requires forall i :: 0 <= i < |ops| ==> LeavesAlone(ops[i], id)
    ensures FateRun(Some(a), ops, id) != None
    ensures var b := FateRun(Some(a), ops, id).value;
      b.state != Shelved && b.state != Normal && (b.state == Acked <==> AlwaysPresent(ops, id))
  {
    if ops != [] {
      var front, op := ops[..|ops| - 1], ops[|ops| - 1];
      AckedExactlyWhilePresent(a, front, id);
      assert AlwaysPresent(ops, id) <==> AlwaysPresent(front, id) && (op.Ingest? ==> Hits(id, op.evts) != []) by {
        assert forall i :: 0 <= i < |front| ==> ops[i] == front[i];
      }
    }
  }

  /** An alarm that is neither shelved nor removed shows the severity it was last ingested
      with, acknowledgements included. */
  lemma {:induction false} SeverityIsLastSeen(a: Alarm, ops: seq<Op>, id: string)
    requires a.state != Shelved
    requires NeverShelved(ops, id)
    requires forall m :: 0 <= m <= |ops| ==> Survives(a, ops, m, id)
    ensures var b := FateRun(Some(a), ops, id);
      b != None && b.value.state != Shelved && b.value.severity == LastSeverity(id, ops, a.severity)
  {
    if ops != [] {
      var front, op := ops[..|ops| - 1], ops[|ops| - 1];
      forall m | 0 <= m <= |front|
        ensures Survives(a, front, m, id)
      {
        assert Survives(a, ops, m, id) && front[..m] == ops[..m];
      }
      SeverityIsLastSeen(a, front, id);
      assert Survives(a, ops, |ops|, id) && ops[..|ops|] == ops;
    }
  }

  ghost predicate Survives(a: Alarm, ops: seq<Op>, m: nat, id: string)
    requires m <= |ops|
  {
    FateRun(Some(a), ops[..m], id) != None
  }
}
