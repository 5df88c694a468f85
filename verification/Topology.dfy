/** The plant graph of internal/firewater/topology.go and its downstream closure. */
module Topology {

  datatype Edge<T> = Edge(from: T, to: T)

  // ---- reachability --------------------------------------------------------------------

  ghost predicate Linked<T(!new)>(edges: seq<Edge<T>>, x: T, y: T) {
    exists e :: e in edges && e.from == x && e.to == y
  }

  ghost predicate Walk<T(!new)>(edges: seq<Edge<T>>, p: seq<T>) {
    p != [] && forall i :: 0 <= i < |p| - 1 ==> Linked(edges, p[i], p[i + 1])
  }

  /** A walk of one edge or more leads from x to y. */
  ghost predicate Reaches<T(!new)>(edges: seq<Edge<T>>, x: T, y: T) {
    exists p :: Walk(edges, p) && |p| >= 2 && p[0] == x && p[|p| - 1] == y
  }

  lemma ReachesNext<T(!new)>(edges: seq<Edge<T>>, x: T, y: T, z: T)
    requires x == y || Reaches(edges, x, y)
    requires Linked(edges, y, z)
    ensures Reaches(edges, x, z)
  {
    var p := if x == y then [x] else (var q :| Walk(edges, q) && |q| >= 2 && q[0] == x && q[|q| - 1] == y; q);
    var q := p + [z];
    forall i | 0 <= i < |q| - 1
      ensures Linked(edges, q[i], q[i + 1])
    {
      if i < |p| - 1 {
        assert Linked(edges, p[i], p[i + 1]);
      }
    }
    assert Walk(edges, q);
  }

  /** A node is reached through the last edge of the way. */
  lemma ReachesThrough<T(!new)>(edges: seq<Edge<T>>, x: T, z: T) returns (y: T)
    requires Reaches(edges, x, z)
    ensures Linked(edges, y, z) && (x == y || Reaches(edges, x, y))
  {
    var p :| Walk(edges, p) && |p| >= 2 && p[0] == x && p[|p| - 1] == z;
    var n := |p| - 2;
    y := p[n];
    assert Linked(edges, p[n], p[n + 1]);
    if n > 0 {
      var q := p[..n + 1];
      forall i | 0 <= i < |q| - 1
        ensures Linked(edges, q[i], q[i + 1])
      {
        assert Linked(edges, p[i], p[i + 1]);
      }
      assert Walk(edges, q);
    }
  }

  /** Every edge out of the set leads back into it. */
  ghost predicate Closed<T(!new)>(edges: seq<Edge<T>>, s: set<T>) {
    forall i :: 0 <= i < |edges| && edges[i].from in s ==> edges[i].to in s
  }

  lemma {:induction false} ClosedHoldsWalks<T(!new)>(edges: seq<Edge<T>>, s: set<T>, p: seq<T>, n: nat)
    requires Closed(edges, s) && Walk(edges, p) && p[0] in s && n < |p|
    ensures p[n] in s
  {
    if n > 0 {
      ClosedHoldsWalks(edges, s, p, n - 1);
      assert Linked(edges, p[n - 1], p[n - 1 + 1]);
    }
  }

  // ---- the fixpoint loop ---------------------------------------------------------------

  function Targets<T(!new)>(edges: seq<Edge<T>>): set<T> { set e | e in edges :: e.to }

  /** Entry i is entered by an edge from id or from an earlier entry. */
  ghost predicate Entered<T(!new)>(edges: seq<Edge<T>>, id: T, out: seq<T>, i: nat)
    requires i < |out|
  {
    Linked(edges, id, out[i]) || exists j :: 0 <= j < i && Linked(edges, out[j], out[i])
  }

  /** Each entry is reachable and entered, none is repeated, and none is id. */
  ghost predicate Discovered<T(!new)>(edges: seq<Edge<T>>, id: T, out: seq<T>) {
    && (forall i :: 0 <= i < |out| ==> Reaches(edges, id, out[i]) && Entered(edges, id, out, i))
    && (forall i, j :: 0 <= i < j < |out| ==> out[i] != out[j])
    && id !in out
  }

  lemma Discover<T(!new)>(edges: seq<Edge<T>>, id: T, out: seq<T>, e: Edge<T>)
    requires Discovered(edges, id, out) && e in edges
    requires (e.from == id || e.from in out) && e.to != id && e.to !in out
    ensures Discovered(edges, id, out + [e.to])
  {
    var next := out + [e.to];
    assert Linked(edges, e.from, e.to);
    assert e.from == id || Reaches(edges, id, e.from);
    ReachesNext(edges, id, e.from, e.to);
    forall i | 0 <= i < |next|
      ensures Reaches(edges, id, next[i]) && Entered(edges, id, next, i)
    {
      if i < |out| {
        assert Entered(edges, id, out, i);
        assert forall j :: 0 <= j < i ==> next[j] == out[j];
      } else if e.from != id {
        var j :| 0 <= j < |out| && out[j] == e.from;
        assert next[j] == e.from;
      }
    }
  }

  ghost predicate Tracks<T(!new)>(seen: set<T>, id: T, out: seq<T>) {
    forall x :: x in seen <==> x == id || x in out
  }

  lemma TrackMore<T(!new)>(seen: set<T>, id: T, out: seq<T>, x: T)
    requires Tracks(seen, id, out)
    ensures Tracks(seen + {x}, id, out + [x])
  {
  }

  /** The first i edges lead nowhere new. */
  ghost predicate ClosedUpto<T(!new)>(edges: seq<Edge<T>>, seen: set<T>, i: nat)
    requires i <= |edges|
  {
    forall k :: 0 <= k < i && edges[k].from in seen ==> edges[k].to in seen
  }

  lemma SeenMore<T(!new)>(edges: seq<Edge<T>>, seen: set<T>, e: Edge<T>)
    requires e in edges && e.to !in seen
    ensures Targets(edges) - (seen + {e.to}) < Targets(edges) - seen
  {
    assert e.to in Targets(edges);
  }

  /** One sweep over the edge list: what it adds shrinks the targets not yet seen, and when it
      adds nothing the set is closed. */
  method Pass<T(!new, ==)>(edges: seq<Edge<T>>, id: T, seen0: set<T>, out0: seq<T>)
    returns (seen: set<T>, out: seq<T>, changed: bool)
    requires Tracks(seen0, id, out0) && Discovered(edges, id, out0)
    ensures Tracks(seen, id, out) && Discovered(edges, id, out)
    ensures changed ==> Targets(edges) - seen < Targets(edges) - seen0
    ensures !changed ==> seen == seen0 && Closed(edges, seen)
  {
    seen, out, changed := seen0, out0, false;
    for i := 0 to |edges|
      invariant Tracks(seen, id, out) && Discovered(edges, id, out)
      invariant changed ==> Targets(edges) - seen < Targets(edges) - seen0
      invariant !changed ==> seen == seen0 && ClosedUpto(edges, seen, i)
    {
      var e := edges[i];
      if e.from in seen && e.to !in seen {
        Discover(edges, id, out, e);
        TrackMore(seen, id, out, e.to);
        SeenMore(edges, seen, e);
        seen := seen + {e.to};
        out := out + [e.to];
        changed := true;
      }
    }
  }

  lemma ClosedIsComplete<T(!new)>(edges: seq<Edge<T>>, id: T, seen: set<T>, out: seq<T>)
    requires Tracks(seen, id, out) && Discovered(edges, id, out) && Closed(edges, seen)
    ensures forall x :: x in out <==> x != id && Reaches(edges, id, x)
  {
    forall x | x != id && Reaches(edges, id, x)
      ensures x in out
    {
      var p :| Walk(edges, p) && |p| >= 2 && p[0] == id && p[|p| - 1] == x;
      ClosedHoldsWalks(edges, seen, p, |p| - 1);
    }
  }

  /** Downstream terminates on every edge list, cycles included, and returns exactly the nodes
      other than id that a walk from id reaches, each once and after a predecessor. */
  method Downstream<T(!new, ==)>(edges: seq<Edge<T>>, id: T) returns (out: seq<T>)
    ensures forall x :: x in out <==> x != id && Reaches(edges, id, x)
    ensures Discovered(edges, id, out)
  {
    var seen := {id};
    out := [];
    var changed := true;
    while changed
      invariant Tracks(seen, id, out) && Discovered(edges, id, out)
      invariant !changed ==> Closed(edges, seen)
      decreases Targets(edges) - seen, changed
    {
      seen, out, changed := Pass(edges, id, seen, out);
    }
    ClosedIsComplete(edges, id, seen, out);
  }

  // ---- "goes dry" ----------------------------------------------------------------------

  /** x loses its supply from `source` when id is isolated: it had one, and every walk that
      supplies it passes through id. */
  ghost predicate GoesDry<T(!new)>(edges: seq<Edge<T>>, source: T, id: T, x: T) {
    && (exists p :: Walk(edges, p) && p[0] == source && p[|p| - 1] == x)
    && (forall p :: Walk(edges, p) && p[0] == source && p[|p| - 1] == x ==> id in p)
  }

  /** Whatever goes dry is downstream, for every graph and every source. */
  lemma DryIsDownstream<T(!new)>(edges: seq<Edge<T>>, source: T, id: T, x: T)
    requires x != id && GoesDry(edges, source, id, x)
    ensures Reaches(edges, id, x)
  {
    var p :| Walk(edges, p) && p[0] == source && p[|p| - 1] == x;
    assert id in p;
    var k :| 0 <= k < |p| && p[k] == id;
    var q := p[k..];
    forall i | 0 <= i < |q| - 1
      ensures Linked(edges, q[i], q[i + 1])
    {
      assert Linked(edges, p[k + i], p[k + i + 1]);
    }
    assert Walk(edges, q);
  }

  /** The graph with id isolated: no edge touches it. */
  function Without<T(!new, ==)>(edges: seq<Edge<T>>, id: T): seq<Edge<T>> {
    if edges == [] then []
    else
      var e := edges[|edges| - 1];
      Without(edges[..|edges| - 1], id) + (if e.from == id || e.to == id then [] else [e])
  }

  lemma {:induction false} WithoutKeeps<T(!new)>(edges: seq<Edge<T>>, id: T, e: Edge<T>)
    ensures e in Without(edges, id) <==> e in edges && e.from != id && e.to != id
  {
    if edges != [] {
      var n := |edges| - 1;
      WithoutKeeps(edges[..n], id, e);
      assert edges == edges[..n] + [edges[n]];
    }
  }

  lemma LinkedWithout<T(!new)>(edges: seq<Edge<T>>, id: T, x: T, y: T)
    ensures Linked(Without(edges, id), x, y) <==> Linked(edges, x, y) && x != id && y != id
  {
    forall e
      ensures e in Without(edges, id) <==> e in edges && e.from != id && e.to != id
    {
      WithoutKeeps(edges, id, e);
    }
  }

  /** The walks of the pruned graph are the walks that avoid id. */
  lemma WalkWithout<T(!new)>(edges: seq<Edge<T>>, id: T, p: seq<T>)
    requires p != [] && p[0] != id
    ensures Walk(Without(edges, id), p) <==> Walk(edges, p) && id !in p
  {
    forall i | 0 <= i < |p| - 1
      ensures Linked(Without(edges, id), p[i], p[i + 1])
         <==> Linked(edges, p[i], p[i + 1]) && p[i] != id && p[i + 1] != id
    {
      LinkedWithout(edges, id, p[i], p[i + 1]);
    }
    if Walk(Without(edges, id), p) {
      forall i | 0 <= i < |p|
        ensures p[i] != id
      {
        assert i > 0 ==> Linked(Without(edges, id), p[i - 1], p[i - 1 + 1]);
      }
    }
  }

  lemma ReachesTransitively<T(!new)>(edges: seq<Edge<T>>, x: T, y: T, z: T)
    requires Reaches(edges, x, y) && Reaches(edges, y, z)
    ensures Reaches(edges, x, z)
  {
    var p :| Walk(edges, p) && |p| >= 2 && p[0] == x && p[|p| - 1] == y;
    var q :| Walk(edges, q) && |q| >= 2 && q[0] == y && q[|q| - 1] == z;
    var r := p + q[1..];
    forall i | 0 <= i < |r| - 1
      ensures Linked(edges, r[i], r[i + 1])
    {
      if i < |p| - 1 {
        assert Linked(edges, p[i], p[i + 1]);
      } else {
        var k := i - (|p| - 1);
        assert r[i] == q[k] && r[i + 1] == q[k + 1];
      }
    }
    assert Walk(edges, r);
  }

  /** The source keeps feeding x when id is isolated. */
  ghost predicate KeptWet<T(!new)>(edges: seq<Edge<T>>, source: T, id: T, x: T) {
    source != id && (x == source || Reaches(Without(edges, id), source, x))
  }

  lemma DetourKeepsWet<T(!new)>(edges: seq<Edge<T>>, source: T, id: T, x: T, p: seq<T>)
    requires Walk(edges, p) && p[0] == source && p[|p| - 1] == x && id !in p
    ensures KeptWet(edges, source, id, x)
  {
    assert p[0] in p;
    WalkWithout(edges, id, p);
  }

  lemma WetHasDetour<T(!new)>(edges: seq<Edge<T>>, source: T, id: T, x: T)
    requires KeptWet(edges, source, id, x)
    ensures exists p :: Walk(edges, p) && p[0] == source && p[|p| - 1] == x && id !in p
  {
    if x == source {
      assert Walk(edges, [x]) && id !in [x];
    } else {
      var p :| Walk(Without(edges, id), p) && |p| >= 2 && p[0] == source && p[|p| - 1] == x;
      WalkWithout(edges, id, p);
    }
  }

  /** The source supplies id itself. */
  ghost predicate Supplied<T(!new)>(edges: seq<Edge<T>>, source: T, id: T) {
    source == id || Reaches(edges, source, id)
  }

  lemma DryNeedsSupply<T(!new)>(edges: seq<Edge<T>>, source: T, id: T, x: T)
    requires GoesDry(edges, source, id, x)
    ensures Supplied(edges, source, id)
  {
    var p :| Walk(edges, p) && p[0] == source && p[|p| - 1] == x;
    assert id in p;
    var k :| 0 <= k < |p| && p[k] == id;
    var q := p[..k + 1];
    forall i | 0 <= i < |q| - 1
      ensures Linked(edges, q[i], q[i + 1])
    {
      assert Linked(edges, p[i], p[i + 1]);
    }
    assert Walk(edges, q);
  }

  /** A node downstream of id goes dry if and only if the source supplies id and does not reach
      the node once every edge that touches id is gone. */
  lemma NodeGoesDryExactlyWhen<T(!new)>(edges: seq<Edge<T>>, source: T, id: T, x: T)
    requires Reaches(edges, id, x)
    ensures GoesDry(edges, source, id, x) <==> Supplied(edges, source, id) && !KeptWet(edges, source, id, x)
  {
    if KeptWet(edges, source, id, x) {
      WetHasDetour(edges, source, id, x);
    } else if Supplied(edges, source, id) {
      if source != id {
        ReachesTransitively(edges, source, id, x);
      }
      forall p | Walk(edges, p) && p[0] == source && p[|p| - 1] == x
        ensures id in p
      {
        if id !in p {
          DetourKeepsWet(edges, source, id, x, p);
        }
      }
    } else if GoesDry(edges, source, id, x) {
      DryNeedsSupply(edges, source, id, x);
    }
  }

  /** What Downstream is documented to be: everything downstream of id goes dry. */
  ghost predicate DownstreamIsDry<T(!new)>(edges: seq<Edge<T>>, source: T, id: T) {
    forall x :: x != id && Reaches(edges, id, x) ==> GoesDry(edges, source, id, x)
  }

  /** For every graph, source and id the documented reading holds if and only if nothing is
      downstream of id, or the source supplies id and either is id or, searched for in the
      pruned graph, meets no node downstream of id: calls of Downstream decide it. */
  lemma DownstreamIsDryExactlyWhen<T(!new)>(edges: seq<Edge<T>>, source: T, id: T)
    ensures DownstreamIsDry(edges, source, id) <==>
      (!exists x :: x != id && Reaches(edges, id, x))
      || (Supplied(edges, source, id)
          && (source == id
              || !exists x :: x != id && Reaches(edges, id, x)
                              && (x == source || Reaches(Without(edges, id), source, x))))
  {
    forall x | x != id && Reaches(edges, id, x)
      ensures GoesDry(edges, source, id, x) <==> Supplied(edges, source, id) && !KeptWet(edges, source, id, x)
    {
      NodeGoesDryExactlyWhen(edges, source, id, x);
    }
  }

  /** A node fed by id alone has no supply left when id is isolated. */
  lemma NoDetourTo<T(!new)>(edges: seq<Edge<T>>, source: T, id: T, x: T)
    requires forall y :: Linked(edges, y, x) ==> y == id
    ensures !Reaches(Without(edges, id), source, x)
  {
    var pruned := Without(edges, id);
    forall p | Walk(pruned, p) && |p| >= 2
      ensures p[|p| - 1] != x
    {
      var n := |p| - 2;
      assert Linked(pruned, p[n], p[n + 1]);
      LinkedWithout(edges, id, p[n], p[n + 1]);
    }
  }

  // ---- the shipped plant ---------------------------------------------------------------

  /** The assets of PlantGraph; any other id is an unlisted asset. */
  datatype Asset =
    | Municipal | TankMain | Jockey | MainPump | DieselPump | Header | ValveA | RiserA | HydrantYard | AdminRiser
    | Unlisted(id: string)

  /** The edges of PlantGraph. */
  const PLANT_EDGES: seq<Edge<Asset>> := [
    Edge(Municipal, TankMain), Edge(TankMain, Jockey), Edge(TankMain, MainPump), Edge(TankMain, DieselPump),
    Edge(Jockey, Header), Edge(MainPump, Header), Edge(DieselPump, Header), Edge(Header, ValveA),
    Edge(ValveA, RiserA), Edge(Header, HydrantYard), Edge(Header, AdminRiser)]

  /** What feeds each asset directly. */
  function Feeders(x: Asset): set<Asset> {
    match x
    case TankMain => {Municipal}
    case Jockey => {TankMain}
    case MainPump => {TankMain}
    case DieselPump => {TankMain}
    case Header => {Jockey, MainPump, DieselPump}
    case ValveA => {Header}
    case RiserA => {ValveA}
    case HydrantYard => {Header}
    case AdminRiser => {Header}
    case _ => {}
  }

  /** What lies below each asset of the plant. */
  function Below(x: Asset): set<Asset> {
    match x
    case Municipal => {TankMain, Jockey, MainPump, DieselPump, Header, ValveA, RiserA, HydrantYard, AdminRiser}
    case TankMain => {Jockey, MainPump, DieselPump, Header, ValveA, RiserA, HydrantYard, AdminRiser}
    case Jockey => {Header, ValveA, RiserA, HydrantYard, AdminRiser}
    case MainPump => {Header, ValveA, RiserA, HydrantYard, AdminRiser}
    case DieselPump => {Header, ValveA, RiserA, HydrantYard, AdminRiser}
    case Header => {ValveA, RiserA, HydrantYard, AdminRiser}
    case ValveA => {RiserA}
    case _ => {}
  }

  lemma PipesComeFromFeeders(y: Asset, z: Asset)
    requires Linked(PLANT_EDGES, y, z)
    ensures y in Feeders(z)
  {
    var e :| e in PLANT_EDGES && e.from == y && e.to == z;
    var i :| 0 <= i < |PLANT_EDGES| && PLANT_EDGES[i] == e;
  }

  lemma PipeAt(i: nat)
    requires i < |PLANT_EDGES|
    ensures Linked(PLANT_EDGES, PLANT_EDGES[i].from, PLANT_EDGES[i].to)
  {
    assert PLANT_EDGES[i] in PLANT_EDGES;
  }

  lemma FeedersHavePipes(y: Asset, z: Asset)
    requires y in Feeders(z)
    ensures Linked(PLANT_EDGES, y, z)
  {
    PipeAt(match z
      case TankMain => 0 case Jockey => 1 case MainPump => 2 case DieselPump => 3
      case Header => (if y == Jockey then 4 else if y == MainPump then 5 else 6)
      case ValveA => 7 case RiserA => 8 case HydrantYard => 9 case _ => 10);
  }

  /** An asset is reached exactly through one of its feeders. */
  lemma ThroughFeeders(x: Asset, z: Asset)
    ensures Reaches(PLANT_EDGES, x, z) <==> exists y :: y in Feeders(z) && (x == y || Reaches(PLANT_EDGES, x, y))
  {
    if Reaches(PLANT_EDGES, x, z) {
      var y := ReachesThrough(PLANT_EDGES, x, z);
      PipesComeFromFeeders(y, z);
    }
    if exists y :: y in Feeders(z) && (x == y || Reaches(PLANT_EDGES, x, y)) {
      var y :| y in Feeders(z) && (x == y || Reaches(PLANT_EDGES, x, y));
      FeedersHavePipes(y, z);
      ReachesNext(PLANT_EDGES, x, y, z);
    }
  }

  function Rank(x: Asset): nat {
    match x
    case TankMain => 1 case Jockey => 2 case MainPump => 2 case DieselPump => 2 case Header => 3
    case ValveA => 4 case RiserA => 5 case HydrantYard => 4 case AdminRiser => 4 case _ => 0
  }

  lemma BelowThroughFeeders(x: Asset, z: Asset)
    ensures z in Below(x) <==> exists y :: y in Feeders(z) && (x == y || y in Below(x))
  {
    assert Header in Feeders(ValveA) && ValveA in Feeders(RiserA) && Header in Feeders(HydrantYard);
    assert Header in Feeders(AdminRiser) && Municipal in Feeders(TankMain) && TankMain in Feeders(Jockey);
    assert TankMain in Feeders(MainPump) && TankMain in Feeders(DieselPump);
    assert Jockey in Feeders(Header) && MainPump in Feeders(Header) && DieselPump in Feeders(Header);
  }

  /** The shipped plant, asset by asset: exactly these lie downstream. */
  lemma {:induction false} PlantIsExact(x: Asset, z: Asset)
    ensures Reaches(PLANT_EDGES, x, z) <==> z in Below(x)
    decreases Rank(z)
  {
    forall y | y in Feeders(z)
      ensures Reaches(PLANT_EDGES, x, y) <==> y in Below(x)
    {
      PlantIsExact(x, y);
    }
    ThroughFeeders(x, z);
    BelowThroughFeeders(x, z);
  }

  /** For the valve, the one asset the program isolates, the documented reading is right: the
      riser, and nothing else, is downstream, and it goes dry. */
  lemma ShutValveIsExact()
    ensures DownstreamIsDry(PLANT_EDGES, Municipal, ValveA)
    ensures forall x :: Reaches(PLANT_EDGES, ValveA, x) <==> x == RiserA
    ensures GoesDry(PLANT_EDGES, Municipal, ValveA, RiserA)
  {
    PlantIsExact(Municipal, ValveA);
    forall y | Linked(PLANT_EDGES, y, RiserA)
      ensures y == ValveA
    {
      PipesComeFromFeeders(y, RiserA);
    }
    NoDetourTo(PLANT_EDGES, Municipal, ValveA, RiserA);
    forall x
      ensures Reaches(PLANT_EDGES, ValveA, x) <==> x == RiserA
    {
      PlantIsExact(ValveA, x);
    }
    NodeGoesDryExactlyWhen(PLANT_EDGES, Municipal, ValveA, RiserA);
  }

  /** What the server reports when the valve is shut. */
  method IfValveShut() returns (dry: seq<Asset>)
    ensures dry == [RiserA]
  {
    dry := Downstream(PLANT_EDGES, ValveA);
    assert |dry| > 1 ==> dry[0] != dry[1];
    ShutValveIsExact();
    assert RiserA in dry;
    forall i | 0 <= i < |dry|
      ensures dry[i] == RiserA
    {
      assert dry[i] in dry;
    }
  }

  /** The converse fails on the shipped plant: the header is downstream of the jockey pump but
      keeps its supply through the main pump. */
  lemma DownstreamMayStayWet()
    ensures Reaches(PLANT_EDGES, Jockey, Header)
    ensures !GoesDry(PLANT_EDGES, Municipal, Jockey, Header)
  {
    PlantIsExact(Jockey, Header);
    var p := [Municipal, TankMain, MainPump, Header];
    PipeAt(0);
    PipeAt(2);
    PipeAt(5);
    assert Walk(PLANT_EDGES, p);
  }
}
