/** Atomic file replacement: internal/jsonstore/jsonstore.go. A file is a list of records; the
    JSON text of a record is not modelled, a half-written file is a prefix of the list. */
module JsonStore {
  import opened Common

  /** What the directory holds at `path` and at `path.tmp`. */
  datatype Disk<T> = Disk(target: Option<seq<T>>, tmp: Option<seq<T>>)

  /** The system call that fails, if any; a failing write gets `done` records out first. */
  datatype Fault = NoFault | MkdirFails | OpenFails | WriteFails(done: nat) | SyncFails | CloseFails | RenameFails

  /** Missing file: no records. */
  function LoadSlice<T>(d: Disk<T>): seq<T> {
    match d.target case None => [] case Some(items) => items
  }

  /** One system call that touches the directory: open truncates the temporary file, write
      extends it, remove deletes it, rename puts it in the target's place. */
  ghost predicate OneCall<T>(d: Disk<T>, e: Disk<T>) {
    || e == d.(tmp := Some([]))
    || (d.tmp != None && e == d.(tmp := e.tmp) && e.tmp != None
        && |e.tmp.value| == |d.tmp.value| + 1 && d.tmp.value <= e.tmp.value)
    || e == d.(tmp := None)
    || (d.tmp != None && e == Disk(d.tmp, None))
  }

  /** The states the directory goes through from one to the other, none left out. */
  ghost predicate Trace<T>(before: Disk<T>, trace: seq<Disk<T>>, after: Disk<T>) {
    && trace != [] && trace[0] == before && trace[|trace| - 1] == after
    && forall i, j :: 0 <= i && j == i + 1 && j < |trace| ==> OneCall(trace[i], trace[j])
  }

  /** The process may die in any state of the trace. Whatever fails and whenever it dies, the
      target holds the old contents or all of the new; it holds the new ones on success. */
  method WriteAtomic<T>(before: Disk<T>, data: seq<T>, fault: Fault)
    returns (ok: bool, after: Disk<T>, ghost trace: seq<Disk<T>>)
    ensures ok <==> fault == NoFault
    ensures after.target == if ok then Some(data) else before.target
    ensures ok ==> after.tmp == None
    ensures !ok && (fault.WriteFails? || fault == SyncFails || fault == CloseFails) ==> after.tmp == None
    ensures forall d :: d in trace ==> d.target == before.target || d.target == after.target
    ensures Trace(before, trace, after) && (ok ==> before.(tmp := Some(data)) in trace)
    ensures forall d :: d in trace && d.tmp != before.tmp && d.tmp != None ==> d.tmp.value <= data
    ensures forall i :: 0 <= i < |trace| - 1 ==> trace[i].target == before.target
  {
    var d := before;
    trace := [d];
    if fault == MkdirFails || fault == OpenFails {
      return false, d, trace;
    }
    d := d.(tmp := Some([]));
    trace := trace + [d];
    var n := 0;
    while n < |data| && !(fault.WriteFails? && fault.done <= n)
      invariant n <= |data| && d == before.(tmp := Some(data[..n]))
      invariant Trace(before, trace, d)
      invariant forall t :: t in trace && t.tmp != before.tmp && t.tmp != None ==> t.tmp.value <= data
      invariant forall t :: t in trace ==> t.target == before.target
    {
      d := d.(tmp := Some(d.tmp.value + [data[n]]));
      assert data[..n] + [data[n]] == data[..n + 1];
      n := n + 1;
      trace := trace + [d];
    }
    if fault.WriteFails? || fault == SyncFails || fault == CloseFails {
      d := d.(tmp := None);
      trace := trace + [d];
      return false, d, trace;
    }
    if fault == RenameFails {
      return false, d, trace;
    }
    assert data[..n] == data;
    d := Disk(d.tmp, None);
    trace := trace + [d];
    return true, d, trace;
  }

  // ---- lists of records and maps by id -------------------------------------------------

  /** What Open makes of a list: a map by id, later records winning. */
  function Rebuild<T>(items: seq<T>, key: T -> string): map<string, T> {
    if items == [] then map[]
    else
      var last := items[|items| - 1];
      Rebuild(items[..|items| - 1], key)[key(last) := last]
  }

  ghost predicate Keyed<T>(m: map<string, T>, key: T -> string) {
    forall k :: k in m ==> key(m[k]) == k
  }

  lemma {:induction false} RebuildIsKeyed<T>(items: seq<T>, key: T -> string)
    ensures Keyed(Rebuild(items, key), key)
    ensures forall k :: k in Rebuild(items, key) ==> Rebuild(items, key)[k] in items
    ensures forall x :: x in items ==> key(x) in Rebuild(items, key)
  {
    if items != [] {
      var front, last := items[..|items| - 1], items[|items| - 1];
      RebuildIsKeyed(front, key);
      assert items == front + [last];
    }
  }

  /** A missing file opens as no records. */
  lemma MissingFileIsEmpty<T>(d: Disk<T>, key: T -> string)
    requires d.target == None
    ensures Rebuild(LoadSlice(d), key) == map[]
  {
  }

  /** Of the records with one key the last in the file wins. */
  lemma {:induction false} LastRecordWins<T>(items: seq<T>, key: T -> string, i: nat)
    requires i < |items| && forall j :: i < j < |items| ==> key(items[j]) != key(items[i])
    ensures key(items[i]) in Rebuild(items, key) && Rebuild(items, key)[key(items[i])] == items[i]
  {
    if i < |items| - 1 {
      LastRecordWins(items[..|items| - 1], key, i);
    }
  }

  /** Any list of a keyed map's values rebuilds the map. */
  lemma RebuildsTheMap<T>(items: seq<T>, m: map<string, T>, key: T -> string)
    requires Keyed(m, key)
    requires forall x :: x in items ==> key(x) in m && m[key(x)] == x
    requires forall k :: k in m ==> m[k] in items
    ensures Rebuild(items, key) == m
  {
    RebuildIsKeyed(items, key);
    var r := Rebuild(items, key);
    forall k | k in r
      ensures k in m && m[k] == r[k]
    {
      assert r[k] in items;
    }
    forall k | k in m
      ensures k in r
    {
      assert m[k] in items;
    }
  }

  /** The records of a map in some order, as ranging over it yields them. */
  method ValuesOf<T>(m: map<string, T>) returns (items: seq<T>)
    ensures |items| == |m|
    ensures forall k :: k in m ==> m[k] in items
    ensures forall x :: x in items ==> exists k :: k in m && m[k] == x
  {
    items := [];
    var pending := m.Keys;
    ghost var done: set<string> := {};
    while pending != {}
      invariant done !! pending && done + pending == m.Keys && |items| == |done|
      invariant forall k :: k in done ==> m[k] in items
      invariant forall x :: x in items ==> exists k :: k in m && m[k] == x
      decreases pending
    {
      var k :| k in pending;
      items := items + [m[k]];
      pending := pending - {k};
      done := done + {k};
    }
    assert done == m.Keys;
  }

  // ---- a map written as a list ---------------------------------------------------------

  /** The map with every record as its file keeps it. */
  function StoredMap<T>(m: map<string, T>, stored: T -> T): map<string, T> { map k | k in m :: stored(m[k]) }

  /** Storing a record keeps its key, and storing it again changes nothing more. */
  ghost predicate Storable<T>(m: map<string, T>, key: T -> string, stored: T -> T) {
    forall k :: k in m ==> key(stored(m[k])) == k && stored(stored(m[k])) == stored(m[k])
  }

  lemma StoredTwice<T>(m: map<string, T>, key: T -> string, stored: T -> T)
    requires Storable(m, key, stored)
    ensures StoredMap(StoredMap(m, stored), stored) == StoredMap(m, stored)
  {
  }

  /** Storing the values of a map in any order and opening the file gives the stored map. */
  lemma StoredRebuilds<T>(items: seq<T>, data: seq<T>, m: map<string, T>, key: T -> string, stored: T -> T)
    requires Storable(m, key, stored)
    requires |data| == |items| && forall i :: 0 <= i < |items| ==> data[i] == stored(items[i])
    requires forall k :: k in m ==> m[k] in items
    requires forall x :: x in items ==> exists k :: k in m && m[k] == x
    ensures Rebuild(data, key) == StoredMap(m, stored)
  {
    var sm := StoredMap(m, stored);
    forall x | x in data
      ensures key(x) in sm && sm[key(x)] == x
    {
      var i :| 0 <= i < |data| && data[i] == x;
      assert items[i] in items;
    }
    forall k | k in sm
      ensures sm[k] in data
    {
      var i :| 0 <= i < |items| && items[i] == m[k];
      assert data[i] in data;
    }
    RebuildsTheMap(data, sm, key);
  }

  /** Writes a map to its file: opening the file later gives the map as its records are
      stored, or, if a call failed, what the file held before. */
  method Persist<T>(before: Disk<T>, m: map<string, T>, key: T -> string, stored: T -> T, fault: Fault)
    returns (ok: bool, after: Disk<T>, ghost trace: seq<Disk<T>>)
    requires Storable(m, key, stored)
    ensures ok <==> fault == NoFault
    ensures ok ==> Rebuild(LoadSlice(after), key) == StoredMap(m, stored)
    ensures !ok ==> after.target == before.target
    ensures Trace(before, trace, after) && (ok ==> |trace| > 1)
    ensures forall d :: d in trace ==> d.target == before.target || d.target == after.target
  {
    var items := ValuesOf(m);
    var data := seq(|items|, i requires 0 <= i < |items| => stored(items[i]));
    ok, after, trace := WriteAtomic(before, data, fault);
    StoredRebuilds(items, data, m, key, stored);
  }
}
