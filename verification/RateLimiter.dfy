/** The per-client limiter of internal/httpapi/ratelimit.go: one bucket per key, with the
    stale sweep that runs on access. The clock reading `rl.now()` is a parameter; it is taken
    before the lock, so the instants of a run may be out of order. */
module RateLimiters {
  import opened Common
  import opened TokenBuckets

  /** staleAfter: ten minutes. */
  const STALE_AFTER := 600_000_000_000
  /** time.Time{}: the first instant of year 1, in nanoseconds from the Unix epoch. */
  const ZERO_TIME := -62_135_596_800_000_000_000

  type Table = map<string, Bucket>

  datatype Limiter = Limiter(table: Table, rps: real, burst: real, lastEviction: int)

  datatype Request = Request(key: string, at: int)

  function New(rps: real, burst: int): Limiter {
    Limiter(map[], rps, (if burst < 1 then 1 else burst) as real, ZERO_TIME)
  }

  // ---- one call -----------------------------------------------------------------------

  function Fresh(table: Table, now: int): Table {
    map k | k in table && now - table[k].last <= STALE_AFTER :: table[k]
  }

  function Sweep(l: Limiter, now: int): Limiter {
    if now - l.lastEviction > STALE_AFTER
    then l.(table := Fresh(l.table, now), lastEviction := now)
    else l
  }

  /** The bucket a call finds or creates. */
  function Lookup(table: Table, rps: real, burst: real, r: Request): Bucket {
    if r.key in table then table[r.key] else Full(burst, rps, r.at)
  }

  function Touch(table: Table, rps: real, burst: real, r: Request): Table {
    table[r.key := Next(Lookup(table, rps, burst, r), r.at)]
  }

  function Call(l: Limiter, r: Request): Limiter {
    var s := Sweep(l, r.at);
    s.(table := Touch(s.table, s.rps, s.burst, r))
  }

  predicate Answer(l: Limiter, r: Request) {
    var s := Sweep(l, r.at);
    Admits(Lookup(s.table, s.rps, s.burst, r), r.at)
  }

  ghost function TableOf(buckets: map<string, TokenBucket>): Table
    reads buckets.Values
  {
    map k | k in buckets :: buckets[k].Value()
  }

  lemma KeptAreFresh(all: map<string, TokenBucket>, kept: map<string, TokenBucket>, now: int)
    requires kept.Keys <= all.Keys && forall k :: k in kept ==> kept[k] == all[k]
    requires forall k :: k in all ==> (k in kept <==> now - all[k].last <= STALE_AFTER)
    ensures TableOf(kept) == Fresh(TableOf(all), now)
  {
  }

  class RateLimiter {
    var buckets: map<string, TokenBucket>
    var rps: real
    var burst: real
    var staleAfter: int
    var lastEviction: int

    ghost predicate Valid()
      reads this
    {
      && staleAfter == STALE_AFTER
      && forall k1, k2 :: k1 in buckets && k2 in buckets && k1 != k2 ==> buckets[k1] != buckets[k2]
    }

    ghost function State(): Limiter
      reads this, buckets.Values
    {
      Limiter(TableOf(buckets), rps, burst, lastEviction)
    }

    constructor (rps: real, burst: int)
      ensures Valid() && State() == New(rps, burst) && buckets == map[]
    {
      this.buckets := map[];
      this.rps := rps;
      this.burst := (if burst < 1 then 1 else burst) as real;
      this.staleAfter := STALE_AFTER;
      this.lastEviction := ZERO_TIME;
      new;
      assert State().table == map[];
    }

    method Allow(key: string, now: int) returns (ok: bool)
      requires Valid()
      modifies this, buckets.Values
      ensures Valid() && fresh(buckets.Values - old(buckets.Values))
      ensures State() == Call(old(State()), Request(key, now))
      ensures ok == Answer(old(State()), Request(key, now))
    {
      SweepIfDue(now);
      ghost var swept := State();
      var b := FindOrCreate(key, now);
      ghost var found := State();
      assert found.table[key] == b.Value();
      ok := AllowFrom(key, now, b);
      assert State().table == found.table[key := Next(found.table[key], now)]
                           == swept.table[key := Next(found.table[key], now)];
    }

    method AllowFrom(key: string, now: int, b: TokenBucket) returns (ok: bool)
      requires Valid() && key in buckets && buckets[key] == b
      modifies b
      ensures State() == old(State()).(table := old(State()).table[key := Next(old(b.Value()), now)])
      ensures ok == Admits(old(b.Value()), now)
    {
      ok := b.Allow(now);
      assert forall k :: k in buckets && k != key ==> buckets[k].Value() == old(buckets[k].Value());
      assert State().table == old(State()).table[key := b.Value()];
    }

    method SweepIfDue(now: int)
      requires Valid()
      modifies this
      ensures Valid() && buckets.Values <= old(buckets.Values)
      ensures State() == Sweep(old(State()), now)
    {
      if now - lastEviction > staleAfter {
        Evict(now);
        label evicted:
        lastEviction := now;
        assert State().table == old@evicted(State()).table;
      }
    }

    method FindOrCreate(key: string, now: int) returns (b: TokenBucket)
      requires Valid()
      modifies this`buckets
      ensures Valid() && key in buckets && buckets[key] == b
      ensures fresh(buckets.Values - old(buckets.Values))
      ensures b.Value() == Lookup(old(State()).table, rps, burst, Request(key, now))
      ensures State() == old(State()).(table := old(State()).table[key := b.Value()])
    {
      if key in buckets {
        b := buckets[key];
      } else {
        b := new TokenBucket(burst, burst, rps, now);
        buckets := buckets[key := b];
      }
      assert State().table == old(State()).table[key := b.Value()];
    }

    /** The sweep: deletes, while ranging over the map, every bucket left alone for longer
        than staleAfter. */
    method Evict(now: int)
      requires Valid()
      modifies this`buckets
      ensures Valid() && buckets.Values <= old(buckets.Values)
      ensures State() == old(State()).(table := Fresh(old(State().table), now))
    {
      var all := buckets;
      var pending := buckets.Keys;
      while pending != {}
        invariant pending <= all.Keys
        invariant buckets.Keys <= all.Keys && forall k :: k in buckets ==> buckets[k] == all[k]
        invariant forall k :: k in all ==>
          (k in buckets <==> k in pending || now - all[k].last <= staleAfter)
        decreases pending
      {
        var k :| k in pending;
        if now - buckets[k].last > staleAfter {
          buckets := buckets - {k};
        }
        pending := pending - {k};
      }
      KeptAreFresh(all, buckets, now);
    }
  }

  // ---- whole runs ---------------------------------------------------------------------

  function Run(l: Limiter, rs: seq<Request>): Limiter {
    if rs == [] then l else Call(Run(l, rs[..|rs| - 1]), rs[|rs| - 1])
  }

  function Answers(l: Limiter, rs: seq<Request>): (out: seq<bool>)
    ensures |out| == |rs|
  {
    if rs == [] then []
    else Answers(l, rs[..|rs| - 1]) + [Answer(Run(l, rs[..|rs| - 1]), rs[|rs| - 1])]
  }

  /** The reference limiter: a map that grows for ever and is never swept. */
  function Forever(rps: real, burst: real, rs: seq<Request>): Table {
    if rs == [] then map[] else Touch(Forever(rps, burst, rs[..|rs| - 1]), rps, burst, rs[|rs| - 1])
  }

  function ForeverAnswers(rps: real, burst: real, rs: seq<Request>): (out: seq<bool>)
    ensures |out| == |rs|
  {
    if rs == [] then []
    else
      var front, r := rs[..|rs| - 1], rs[|rs| - 1];
      ForeverAnswers(rps, burst, front) + [Admits(Lookup(Forever(rps, burst, front), rps, burst, r), r.at)]
  }

  /** No instant lies more than `skew` before an earlier one; 0 is a non-decreasing clock. */
  ghost predicate SkewedBy(rs: seq<Request>, skew: nat) {
    forall i, j :: 0 <= i <= j < |rs| ==> rs[i].at - skew <= rs[j].at
  }

  /** The newest instant of a run. */
  function Latest(rs: seq<Request>): int
    requires rs != []
  {
    var n := |rs| - 1;
    if n == 0 then rs[0].at else Max(Latest(rs[..n]), rs[n].at)
  }

  lemma {:induction false} LatestIsNewest(rs: seq<Request>)
    requires rs != []
    ensures forall r :: r in rs ==> r.at <= Latest(rs)
    ensures exists i :: 0 <= i < |rs| && rs[i].at == Latest(rs)
  {
    var n := |rs| - 1;
    var newest := n;
    if n > 0 {
      LatestIsNewest(rs[..n]);
      assert rs == rs[..n] + [rs[n]];
      var i :| 0 <= i < n && rs[..n][i].at == Latest(rs[..n]);
      newest := if rs[n].at >= Latest(rs[..n]) then n else i;
    }
    assert rs[newest].at == Latest(rs);
  }

  lemma LastIsNotOld(rs: seq<Request>, skew: nat)
    requires |rs| > 1 && SkewedBy(rs, skew)
    ensures Latest(rs[..|rs| - 1]) - skew <= rs[|rs| - 1].at
  {
    LatestIsNewest(rs[..|rs| - 1]);
    var i :| 0 <= i < |rs| - 1 && rs[..|rs| - 1][i].at == Latest(rs[..|rs| - 1]);
    assert rs[i].at - skew <= rs[|rs| - 1].at;
  }

  /** The least time a swept bucket has lain idle when its key's next call is stamped, one
      nanosecond past staleAfter less the skew, is enough to fill it. */
  ghost predicate RefillsWhileStale(rps: real, burst: real, skew: nat) {
    burst <= Earned(rps, 0, STALE_AFTER + 1 - skew)
  }

  /** The same in nanoseconds for a configured burst, of which the limiter makes at least one:
      ten minutes and a nanosecond less the skew. */
  ghost predicate RefillsInTenMinutes(rps: real, burst: int, skew: nat) {
    Max(1, burst) as real * 1_000_000_000.0 <= rps * (600_000_000_001 - skew) as real
  }

  lemma TenMinutes(rps: real, burst: int, skew: nat)
    ensures RefillsWhileStale(rps, New(rps, burst).burst, skew) <==> RefillsInTenMinutes(rps, burst, skew)
  {
    InNanoseconds(Max(1, burst) as real, 0.0, rps, 0, 600_000_000_001 - skew);
  }

  // ---- eviction is invisible ----------------------------------------------------------

  /** A bucket as the reference limiter can hold it when `newest` is the newest instant. */
  ghost predicate Wellformed(b: Bucket, rps: real, burst: real, newest: int) {
    Sound(b) && b.max == burst && b.rate == rps && b.last <= newest
  }

  /** The simulation: the swept table is the reference table without some stale buckets. */
  ghost predicate Simulates(swept: Table, full: Table, rps: real, burst: real, newest: int) {
    && (forall k :: k in full ==> Wellformed(full[k], rps, burst, newest))
    && (forall k :: k in swept ==> k in full && swept[k] == full[k])
    && (forall k :: k in full && k !in swept ==> newest - full[k].last > STALE_AFTER)
  }

  lemma SkewIsSmall(rps: real, burst: real, skew: nat)
    requires rps >= 0.0 && burst > 0.0 && RefillsWhileStale(rps, burst, skew)
    ensures skew <= STALE_AFTER
  {
    var idle := STALE_AFTER + 1 - skew;
    if idle <= 0 {
      EarnedMonotone(rps, idle, 0);
      EarnedAdds(rps, 0, idle, 0);
    }
  }

  /** A bucket that was stale at the newest instant has refilled by any instant that the skew
      allows now, so it is as good as a new one. */
  lemma StaleIsFull(b: Bucket, rps: real, burst: real, newest: int, now: int, skew: nat)
    requires Wellformed(b, rps, burst, newest) && burst > 0.0 && RefillsWhileStale(rps, burst, skew)
    requires newest - b.last > STALE_AFTER && newest - skew <= now
    ensures Refill(b, now) == Full(burst, rps, now) == Refill(Full(burst, rps, now), now)
  {
    var idle := STALE_AFTER + 1 - skew;
    SkewIsSmall(rps, burst, skew);
    EarnedAdds(rps, b.last, b.last + idle, now);
    EarnedMonotone(rps, b.last + idle, now);
    assert Earned(rps, b.last, b.last + idle) == Earned(rps, 0, idle);
  }

  lemma NextIsWellformed(b: Bucket, rps: real, burst: real, newest: int, now: int)
    requires Wellformed(b, rps, burst, newest)
    ensures Wellformed(Next(b, now), rps, burst, Max(newest, now)) && Next(b, now).last == Max(b.last, now)
  {
    NextIsSound(b, now);
  }

  /** One call keeps the simulation, and both limiters give the same answer. */
  lemma CallSimulates(l: Limiter, full: Table, newest: int, r: Request, skew: nat)
    requires l.rps >= 0.0 && l.burst > 0.0 && RefillsWhileStale(l.rps, l.burst, skew) && newest - skew <= r.at
    requires Simulates(l.table, full, l.rps, l.burst, newest)
    ensures Simulates(Call(l, r).table, Touch(full, l.rps, l.burst, r), l.rps, l.burst, Max(newest, r.at))
    ensures Answer(l, r) == Admits(Lookup(full, l.rps, l.burst, r), r.at)
  {
    var s, now := Sweep(l, r.at), Max(newest, r.at);
    assert Simulates(s.table, full, l.rps, l.burst, now);
    var mine, theirs := Lookup(s.table, l.rps, l.burst, r), Lookup(full, l.rps, l.burst, r);
    if r.key in full && r.key !in s.table {
      StaleIsFull(full[r.key], l.rps, l.burst, now, r.at, skew);
    }
    assert Refill(mine, r.at) == Refill(theirs, r.at);
    assert Next(mine, r.at) == Next(theirs, r.at);
    NextIsWellformed(theirs, l.rps, l.burst, now, r.at);
  }

  lemma RunKeepsParameters(l: Limiter, rs: seq<Request>)
    ensures Run(l, rs).rps == l.rps && Run(l, rs).burst == l.burst
  {
  }

  lemma {:induction false} RunSimulates(l: Limiter, rs: seq<Request>, skew: nat)
    requires l.table == map[] && l.rps >= 0.0 && l.burst > 0.0 && RefillsWhileStale(l.rps, l.burst, skew)
    requires SkewedBy(rs, skew)
    ensures rs != [] ==> Simulates(Run(l, rs).table, Forever(l.rps, l.burst, rs), l.rps, l.burst, Latest(rs))
    ensures Answers(l, rs) == ForeverAnswers(l.rps, l.burst, rs)
  {
    if rs != [] {
      var front, r := rs[..|rs| - 1], rs[|rs| - 1];
      RunSimulates(l, front, skew);
      RunKeepsParameters(l, front);
      if front != [] {
        LastIsNotOld(rs, skew);
      }
      CallSimulates(Run(l, front), Forever(l.rps, l.burst, front),
                    if front == [] then r.at else Latest(front), r, skew);
    }
  }

  // ---- one key of a run ---------------------------------------------------------------

  function Instants(rs: seq<Request>): (ts: seq<int>)
    ensures |ts| == |rs| && forall i :: 0 <= i < |ts| ==> ts[i] == rs[i].at
  {
    seq(|rs|, i requires 0 <= i < |rs| => rs[i].at)
  }

  /** Which calls of a run are of the given key. */
  function Of(key: string, rs: seq<Request>): (mask: seq<bool>)
    ensures |mask| == |rs| && forall i :: 0 <= i < |mask| ==> mask[i] == (rs[i].key == key)
  {
    seq(|rs|, i requires 0 <= i < |rs| => rs[i].key == key)
  }

  function TimesOf(key: string, rs: seq<Request>): seq<int> { Keep(Instants(rs), Of(key, rs)) }

  lemma OfSnoc(key: string, rs: seq<Request>)
    requires rs != []
    ensures var n := |rs| - 1;
      && Of(key, rs)[..n] == Of(key, rs[..n]) && Instants(rs)[..n] == Instants(rs[..n])
      && TimesOf(key, rs) == TimesOf(key, rs[..n]) + (if rs[n].key == key then [rs[n].at] else [])
  {
    assert Of(key, rs)[..|rs| - 1] == Of(key, rs[..|rs| - 1]);
    assert Instants(rs)[..|rs| - 1] == Instants(rs[..|rs| - 1]);
  }

  /** To one key the reference limiter is a single bucket fed with that key's own calls. */
  lemma {:induction false} ForeverPerKey(rps: real, burst: real, key: string, rs: seq<Request>)
    ensures var ts := TimesOf(key, rs); var table := Forever(rps, burst, rs);
      && (key in table <==> ts != [])
      && (ts != [] ==> table[key] == After(Full(burst, rps, ts[0]), ts))
      && Keep(ForeverAnswers(rps, burst, rs), Of(key, rs))
         == if ts == [] then [] else Decisions(Full(burst, rps, ts[0]), ts)
  {
    if rs != [] {
      var n := |rs| - 1;
      var front, r := rs[..n], rs[n];
      ForeverPerKey(rps, burst, key, front);
      OfSnoc(key, rs);
      var ts := TimesOf(key, front);
      if r.key == key {
        var b := Full(burst, rps, if ts == [] then r.at else ts[0]);
        AfterOne(b, ts, r.at);
        assert Lookup(Forever(rps, burst, front), rps, burst, r) == After(b, ts);
        assert TimesOf(key, rs) == ts + [r.at] && (ts + [r.at])[0] == b.last;
        assert Forever(rps, burst, rs)[key] == After(b, ts + [r.at]);
      } else {
        assert TimesOf(key, rs) == ts;
      }
    }
  }

  // ---- when it is not -------------------------------------------------------------------

  /** n calls of one key at one instant. */
  function Volley(key: string, at: int, n: nat): (rs: seq<Request>)
    ensures |rs| == n && forall i :: 0 <= i < n ==> rs[i] == Request(key, at)
  {
    seq(n, _ => Request(key, at))
  }

  /** Spends `burst` at the epoch; another client's call sweeps the bucket as soon as it may;
      and the next calls, stamped before that one by the skew, spend `burst` again. */
  function Refutation(burst: nat, skew: nat): seq<Request> {
    Volley("client", 0, burst) + [Request("other", STALE_AFTER + 1)]
    + Volley("client", STALE_AFTER + 1 - skew, burst)
  }

  lemma {:induction false} RunConcat(l: Limiter, xs: seq<Request>, ys: seq<Request>)
    ensures Run(l, xs + ys) == Run(Run(l, xs), ys)
    ensures Answers(l, xs + ys) == Answers(l, xs) + Answers(Run(l, xs), ys)
  {
    if ys == [] {
      assert xs + ys == xs;
    } else {
      var n := |ys| - 1;
      assert (xs + ys)[..|xs + ys| - 1] == xs + ys[..n];
      RunConcat(l, xs, ys[..n]);
    }
  }

  /** The limiter after n calls, at one instant, of a key that had no bucket then. */
  function AfterVolley(l: Limiter, whole: nat, key: string, at: int, n: nat): Limiter {
    var s := Sweep(l, at);
    s.(table := s.table[key := Bucket(if n < whole then (whole - n) as real else 0.0, l.burst, l.rps, at)])
  }

  lemma VolleyBegins(l: Limiter, whole: nat, key: string, at: int)
    requires l.burst == whole as real && key !in Sweep(l, at).table
    ensures Call(l, Request(key, at)) == AfterVolley(l, whole, key, at, 1)
    ensures Answer(l, Request(key, at)) <==> 0 < whole
  {
  }

  lemma VolleyGoesOn(l: Limiter, whole: nat, key: string, at: int, n: nat)
    requires l.burst == whole as real
    ensures Call(AfterVolley(l, whole, key, at, n), Request(key, at)) == AfterVolley(l, whole, key, at, n + 1)
    ensures Answer(AfterVolley(l, whole, key, at, n), Request(key, at)) <==> n < whole
  {
    var s := AfterVolley(l, whole, key, at, n);
    assert Sweep(s, at) == s;
  }

  /** Of a volley of a key without a bucket exactly the first `whole` calls are admitted. */
  lemma {:induction false} VolleyAnswers(l: Limiter, whole: nat, key: string, at: int, n: nat)
    requires l.burst == whole as real && key !in Sweep(l, at).table
    ensures forall i :: 0 <= i < n ==> (Answers(l, Volley(key, at, n))[i] <==> i < whole)
    ensures n > 0 ==> Run(l, Volley(key, at, n)) == AfterVolley(l, whole, key, at, n)
  {
    if n > 0 {
      VolleyAnswers(l, whole, key, at, n - 1);
      assert Volley(key, at, n)[..n - 1] == Volley(key, at, n - 1);
      if n == 1 {
        VolleyBegins(l, whole, key, at);
      } else {
        VolleyGoesOn(l, whole, key, at, n - 1);
      }
    }
  }

  /** A new client's burst: after any run, of n calls stamped alike by a client that has no
      bucket, exactly as many are admitted as the limiter was configured with, but at least one. */
  lemma NewClientGetsItsBurst(rps: real, burst: int, rs: seq<Request>, key: string, at: int, n: nat)
    requires key !in Sweep(Run(New(rps, burst), rs), at).table
    ensures var answers := Answers(Run(New(rps, burst), rs), Volley(key, at, n));
      forall i :: 0 <= i < n ==> (answers[i] <==> i < Max(1, burst))
  {
    RunKeepsParameters(New(rps, burst), rs);
    VolleyAnswers(Run(New(rps, burst), rs), Max(1, burst), key, at, n);
  }

  lemma {:induction false} AllTrue(bs: seq<bool>)
    requires forall i :: 0 <= i < |bs| ==> bs[i]
    ensures CountTrue(bs) == |bs|
  {
    if bs != [] {
      AllTrue(bs[..|bs| - 1]);
    }
  }

  /** The call in the middle, right after a bucket of the epoch has gone stale. */
  lemma OtherSweeps(s: Limiter, spent: Bucket)
    requires s.table == map["client" := spent] && spent.last == 0 && s.lastEviction == 0 && s.burst >= 1.0
    ensures var r := Request("other", STALE_AFTER + 1);
      && Answer(s, r) && "client" !in Call(s, r).table
  {
    assert Fresh(s.table, STALE_AFTER + 1) == map[];
  }

  /** The refutation up to and including the call in the middle. */
  lemma FirstVolleyAndSweep(rps: real, burst: nat)
    requires burst >= 1
    ensures var l, first := New(rps, burst), Volley("client", 0, burst) + [Request("other", STALE_AFTER + 1)];
      && (forall i :: 0 <= i < |first| ==> Answers(l, first)[i])
      && "client" !in Run(l, first).table
  {
    var l, first, other := New(rps, burst), Volley("client", 0, burst), Request("other", STALE_AFTER + 1);
    VolleyAnswers(l, burst, "client", 0, burst);
    var mid := Run(l, first);
    OtherSweeps(mid, mid.table["client"]);
    assert (first + [other])[..burst] == first;
  }

  /** A volley of a key that has no bucket, after a run that admitted every call. */
  lemma VolleyAfter(l: Limiter, first: seq<Request>, key: string, at: int, n: nat)
    requires forall i :: 0 <= i < |first| ==> Answers(l, first)[i]
    requires n as real == l.burst && key !in Run(l, first).table
    ensures var all := Answers(l, first + Volley(key, at, n)); forall i :: 0 <= i < |all| ==> all[i]
  {
    RunKeepsParameters(l, first);
    assert key !in Sweep(Run(l, first), at).table;
    VolleyAnswers(Run(l, first), n, key, at, n);
    RunConcat(l, first, Volley(key, at, n));
    BothTrue(Answers(l, first), Answers(Run(l, first), Volley(key, at, n)));
  }

  lemma BothTrue(xs: seq<bool>, ys: seq<bool>)
    requires (forall i :: 0 <= i < |xs| ==> xs[i]) && (forall i :: 0 <= i < |ys| ==> ys[i])
    ensures forall i :: 0 <= i < |xs + ys| ==> (xs + ys)[i]
  {
  }

  lemma RefutationIsAdmitted(rps: real, burst: nat, skew: nat)
    requires burst >= 1
    ensures var all := Answers(New(rps, burst), Refutation(burst, skew));
      forall i :: 0 <= i < |all| ==> all[i]
  {
    var first := Volley("client", 0, burst) + [Request("other", STALE_AFTER + 1)];
    FirstVolleyAndSweep(rps, burst);
    VolleyAfter(New(rps, burst), first, "client", STALE_AFTER + 1 - skew, burst);
  }

  lemma RefutationIsSkewed(burst: nat, skew: nat)
    ensures SkewedBy(Refutation(burst, skew), skew)
  {
  }

  /** The same instant n times. */
  function Repeated(at: int, n: nat): (ts: seq<int>)
    ensures |ts| == n && forall i :: 0 <= i < n ==> ts[i] == at
  {
    seq(n, _ => at)
  }

  /** n calls at the epoch and n late ones. */
  function Twice(n: nat, late: int): (ts: seq<int>)
    ensures |ts| == 2 * n && forall i :: 0 <= i < |ts| ==> ts[i] == 0 || ts[i] == late
  {
    Repeated(0, n) + Repeated(late, n)
  }

  lemma TimesSnoc(key: string, rs: seq<Request>, r: Request)
    ensures TimesOf(key, rs + [r]) == TimesOf(key, rs) + (if r.key == key then [r.at] else [])
  {
    OfSnoc(key, rs + [r]);
    assert (rs + [r])[..|rs|] == rs;
  }

  lemma RepeatedSnoc(ts: seq<int>, at: int, n: nat)
    requires n > 0
    ensures ts + Repeated(at, n) == ts + Repeated(at, n - 1) + [at]
  {
  }

  lemma VolleySnoc(rs: seq<Request>, key: string, at: int, n: nat)
    requires n > 0
    ensures rs + Volley(key, at, n) == rs + Volley(key, at, n - 1) + [Request(key, at)]
  {
  }

  lemma {:induction false} TimesOfVolley(key: string, first: seq<Request>, at: int, n: nat)
    ensures TimesOf(key, first + Volley(key, at, n)) == TimesOf(key, first) + Repeated(at, n)
  {
    if n == 0 {
      assert first + Volley(key, at, n) == first;
    } else {
      TimesOfVolley(key, first, at, n - 1);
      TimesSnoc(key, first + Volley(key, at, n - 1), Request(key, at));
      VolleySnoc(first, key, at, n);
      RepeatedSnoc(TimesOf(key, first), at, n);
    }
  }

  /** The calls of a key whose volleys another key's call parts. */
  lemma TimesOfVolleys(key: string, r: Request, late: int, n: nat)
    requires r.key != key
    ensures TimesOf(key, Volley(key, 0, n) + [r] + Volley(key, late, n)) == Twice(n, late)
  {
    var first := Volley(key, 0, n);
    assert TimesOf(key, first) == Repeated(0, n) by {
      assert [] + first == first && TimesOf(key, []) == [] && [] + Repeated(0, n) == Repeated(0, n);
      TimesOfVolley(key, [], 0, n);
    }
    assert TimesOf(key, first + [r]) == Repeated(0, n) by {
      TimesSnoc(key, first, r);
      assert Repeated(0, n) + [] == Repeated(0, n);
    }
    TimesOfVolley(key, first + [r], late, n);
  }

  /** One bucket, spent and too early to have refilled, refuses some of these calls. */
  lemma BucketRefusesSome(rps: real, n: nat, late: int)
    requires rps > 0.0 && n >= 1 && n as real > Earned(rps, 0, late)
    ensures CountTrue(Decisions(Full(n as real, rps, 0), Twice(n, late))) < 2 * n
  {
    var ts, b := Twice(n, late), Full(n as real, rps, 0);
    NothingMinted(b, ts);
    AfterIsSound(b, ts);
    ClockNowIsEither(0, ts, late);
    var earned := Earned(rps, 0, ClockNow(0, ts));
    EarnedAdds(rps, 0, 0, 0);
    assert earned < n as real;
    FewerThanTwice(CountTrue(Decisions(b, ts)), n, earned);
  }

  lemma FewerThanTwice(count: nat, n: nat, earned: real)
    requires count as real <= n as real + earned && earned < n as real
    ensures count < 2 * n
  {
  }

  lemma {:induction false} ClockNowIsEither(start: int, ts: seq<int>, late: int)
    requires forall i :: 0 <= i < |ts| ==> ts[i] == start || ts[i] == late
    ensures ClockNow(start, ts) == start || ClockNow(start, ts) == late
  {
    if ts != [] {
      ClockNowIsEither(start, ts[..|ts| - 1], late);
      ClockPrefix(start, ts, |ts| - 1);
    }
  }

  lemma RefutationIsOneBucket(rps: real, n: nat, skew: nat)
    requires n >= 1
    ensures var rs := Refutation(n, skew);
      Keep(ForeverAnswers(rps, n as real, rs), Of("client", rs))
      == Decisions(Full(n as real, rps, 0), Twice(n, STALE_AFTER + 1 - skew))
  {
    TimesOfVolleys("client", Request("other", STALE_AFTER + 1), STALE_AFTER + 1 - skew, n);
    ForeverPerKey(rps, n as real, "client", Refutation(n, skew));
  }

  /** When a bucket need not have refilled, the reference limiter refuses a call of the
      refutation. */
  lemma ForeverRefusesSome(rps: real, n: nat, skew: nat)
    requires rps > 0.0 && n >= 1 && !RefillsWhileStale(rps, n as real, skew)
    ensures var theirs := ForeverAnswers(rps, n as real, Refutation(n, skew));
      exists i :: 0 <= i < |theirs| && !theirs[i]
  {
    RefutationIsOneBucket(rps, n, skew);
    BucketRefusesSome(rps, n, STALE_AFTER + 1 - skew);
    SomeIsFalse(ForeverAnswers(rps, n as real, Refutation(n, skew)), Of("client", Refutation(n, skew)));
  }

  lemma SomeIsFalse(bs: seq<bool>, mask: seq<bool>)
    requires |bs| == |mask| && CountTrue(Keep(bs, mask)) < |Keep(bs, mask)|
    ensures exists i :: 0 <= i < |bs| && !bs[i]
  {
    if forall i :: 0 <= i < |bs| ==> bs[i] {
      KeepsTrue(bs, mask);
      AllTrue(Keep(bs, mask));
    }
  }

  lemma {:induction false} KeepsTrue(bs: seq<bool>, mask: seq<bool>)
    requires |bs| == |mask| && forall i :: 0 <= i < |bs| ==> bs[i]
    ensures forall i :: 0 <= i < |Keep(bs, mask)| ==> Keep(bs, mask)[i]
  {
    if bs != [] {
      KeepsTrue(bs[..|bs| - 1], mask[..|bs| - 1]);
    }
  }

  /** On the runs whose instants are out of order by at most the skew, eviction changes no
      answer if and only if a bucket refills in the time that is left of staleAfter (to the
      nanosecond). A skew beyond staleAfter leaves none. */
  lemma EvictionIsInvisibleExactlyWhen(rps: real, burst: int, skew: nat)
    requires rps > 0.0
    ensures (forall rs: seq<Request> | SkewedBy(rs, skew) ::
               Answers(New(rps, burst), rs) == ForeverAnswers(rps, Max(1, burst) as real, rs))
      <==> RefillsInTenMinutes(rps, burst, skew)
  {
    var l := New(rps, burst);
    TenMinutes(rps, burst, skew);
    if RefillsWhileStale(l.rps, l.burst, skew) {
      forall rs: seq<Request> | SkewedBy(rs, skew)
        ensures Answers(l, rs) == ForeverAnswers(l.rps, l.burst, rs)
      {
        RunSimulates(l, rs, skew);
      }
    } else {
      var n: nat := Max(1, burst);
      RefutationIsSkewed(n, skew);
      RefutationIsAdmitted(rps, n, skew);
      ForeverRefusesSome(rps, n, skew);
      assert Answers(l, Refutation(n, skew)) != ForeverAnswers(l.rps, l.burst, Refutation(n, skew));
    }
  }

  // ---- isolation ----------------------------------------------------------------------

  lemma {:induction false} KeptAreOf<T>(xs: seq<T>, mask: seq<bool>)
    requires |xs| == |mask|
    ensures forall x :: x in Keep(xs, mask) ==> x in xs
  {
    if xs != [] {
      KeptAreOf(xs[..|xs| - 1], mask[..|xs| - 1]);
    }
  }

  lemma {:induction false} KeepSkewed(rs: seq<Request>, mask: seq<bool>, skew: nat)
    requires |rs| == |mask| && SkewedBy(rs, skew)
    ensures SkewedBy(Keep(rs, mask), skew)
  {
    if rs != [] {
      var n := |rs| - 1;
      var front := Keep(rs[..n], mask[..n]);
      KeepSkewed(rs[..n], mask[..n], skew);
      KeptAreOf(rs[..n], mask[..n]);
      forall i | 0 <= i < |front|
        ensures front[i].at - skew <= rs[n].at
      {
        assert front[i] in rs[..n];
        var j :| 0 <= j < n && rs[..n][j] == front[i];
        assert rs[j].at - skew <= rs[n].at;
      }
    }
  }

  lemma {:induction false} SelectionCommutes(key: string, rs: seq<Request>, mask: seq<bool>)
    requires |rs| == |mask|
    ensures Instants(Keep(rs, mask)) == Keep(Instants(rs), mask)
    ensures Of(key, Keep(rs, mask)) == Keep(Of(key, rs), mask)
  {
    if rs != [] {
      var n := |rs| - 1;
      SelectionCommutes(key, rs[..n], mask[..n]);
      OfSnoc(key, rs);
    }
  }

  /** Nothing that is denied is kept by a mask that keeps no admission out. */
  lemma {:induction false} DropsOnlyDenials(ds: seq<bool>, mask: seq<bool>, of: seq<bool>)
    requires |ds| == |mask| == |of|
    requires forall i :: 0 <= i < |ds| && of[i] && !mask[i] ==> !ds[i]
    ensures forall i :: 0 <= i < |Keep(ds, of)| && !Keep(mask, of)[i] ==> !Keep(ds, of)[i]
  {
    if ds != [] {
      var n := |ds| - 1;
      DropsOnlyDenials(ds[..n], mask[..n], of[..n]);
    }
  }

  /** The answers the real limiter gives one key are those of a single bucket. */
  lemma KeyIsOneBucket(rps: real, burst: int, key: string, rs: seq<Request>, skew: nat)
    requires rps > 0.0 && RefillsInTenMinutes(rps, burst, skew) && SkewedBy(rs, skew)
    ensures var ts := TimesOf(key, rs);
      Keep(Answers(New(rps, burst), rs), Of(key, rs))
      == if ts == [] then [] else Decisions(Full(Max(1, burst) as real, rps, ts[0]), ts)
  {
    TenMinutes(rps, burst, skew);
    RunSimulates(New(rps, burst), rs, skew);
    ForeverPerKey(rps, New(rps, burst).burst, key, rs);
  }

  /** The limiter's contract with one client: call n of a key is admitted if and only if the
      windows opened by that key's own earlier admissions have room for it, on the running
      maximum of that key's instants, whatever other clients do and the sweep evicts. A window
      is as wide as the configured burst, at least one, and counts nanoseconds. */
  lemma EachClientConforms(rps: real, burst: int, key: string, rs: seq<Request>, skew: nat, n: nat)
    requires rps > 0.0 && RefillsInTenMinutes(rps, burst, skew) && SkewedBy(rs, skew)
    requires n < |TimesOf(key, rs)|
    ensures var ts, ds := TimesOf(key, rs), Keep(Answers(New(rps, burst), rs), Of(key, rs));
      var cs := Clock(ts[0], ts);
      ds[n] <==> forall j :: 0 <= j < n && ds[j] ==>
        HasRoom(Max(1, burst) as real, rps, cs[j], cs[n], CountTrue(ds[j..n]))
  {
    var ts := TimesOf(key, rs);
    KeyIsOneBucket(rps, burst, key, rs, skew);
    ExactInNanoseconds(Full(Max(1, burst) as real, rps, ts[0]), ts, n);
  }

  /** Thinning a run and then looking at one key is looking at the key and then thinning. */
  lemma ThinningCommutes(key: string, rs: seq<Request>, ds: seq<bool>, mask: seq<bool>)
    requires |rs| == |mask| == |ds|
    ensures var thin, of := Keep(rs, mask), Of(key, rs);
      && TimesOf(key, thin) == Keep(TimesOf(key, rs), Keep(mask, of))
      && Keep(Keep(ds, mask), Of(key, thin)) == Keep(Keep(ds, of), Keep(mask, of))
  {
    var of := Of(key, rs);
    SelectionCommutes(key, rs, mask);
    BothCommutes(mask, of);
    KeepTwice(Instants(rs), mask, of);
    KeepTwice(Instants(rs), of, mask);
    KeepTwice(ds, mask, of);
    KeepTwice(ds, of, mask);
  }

  /** One key's bucket does not notice that denied calls were dropped. */
  lemma BucketThins(burst: real, rps: real, ts: seq<int>, drop: seq<bool>)
    requires ts != [] && |drop| == |ts| && burst >= 1.0 && rps > 0.0
    requires forall i :: 0 <= i < |ts| && !drop[i] ==> !Decisions(Full(burst, rps, ts[0]), ts)[i]
    ensures var kept := Keep(ts, drop);
      kept != [] && Decisions(Full(burst, rps, kept[0]), kept) == Keep(Decisions(Full(burst, rps, ts[0]), ts), drop)
  {
    var b := Full(burst, rps, ts[0]);
    DecisionAt(b, ts, 0);
    assert Admits(b, ts[0]);
    assert drop[0];
    KeepFirst(ts, drop);
    DenialsAreFree(b, ts, drop);
  }

  /** Isolation: from a run, delete any calls of other keys and any denied calls of this key;
      the remaining calls of this key are answered as before. */
  lemma ClientsAreIsolated(rps: real, burst: int, key: string, rs: seq<Request>, skew: nat, mask: seq<bool>)
    requires rps > 0.0 && RefillsInTenMinutes(rps, burst, skew)
    requires SkewedBy(rs, skew) && |mask| == |rs|
    requires forall i :: 0 <= i < |rs| && rs[i].key == key && !mask[i] ==> !Answers(New(rps, burst), rs)[i]
    ensures var l, thin := New(rps, burst), Keep(rs, mask);
      Keep(Answers(l, thin), Of(key, thin)) == Keep(Keep(Answers(l, rs), mask), Of(key, thin))
  {
    var l, thin, of := New(rps, burst), Keep(rs, mask), Of(key, rs);
    var ts, ans, drop := TimesOf(key, rs), Answers(l, rs), Keep(mask, of);
    KeepSkewed(rs, mask, skew);
    KeyIsOneBucket(rps, burst, key, rs, skew);
    KeyIsOneBucket(rps, burst, key, thin, skew);
    ThinningCommutes(key, rs, ans, mask);
    if ts != [] {
      DropsOnlyDenials(ans, mask, of);
      BucketThins(Max(1, burst) as real, rps, ts, drop);
    }
  }

  lemma {:induction false} KeepFirst<T>(xs: seq<T>, mask: seq<bool>)
    requires |xs| == |mask| > 0 && mask[0]
    ensures Keep(xs, mask) != [] && Keep(xs, mask)[0] == xs[0]
  {
    var n := |xs| - 1;
    if n > 0 {
      KeepFirst(xs[..n], mask[..n]);
    } else {
      assert xs == [xs[0]];
    }
  }

  // ---- bounded residency --------------------------------------------------------------

  /** The newest instant of the key's calls in the run. */
  function LastCall(key: string, rs: seq<Request>): Option<int> {
    if rs == [] then None
    else
      var front, r := LastCall(key, rs[..|rs| - 1]), rs[|rs| - 1];
      if r.key != key then front
      else Some(if front == None then r.at else Max(front.value, r.at))
  }

  /** What every call keeps: the last sweep was at most staleAfter ago; a bucket was used not much
      before that sweep and never after its key's newest call; and a key called within staleAfter
      has its bucket, whose `last` is that call. */
  ghost predicate Residency(s: Limiter, rs: seq<Request>, skew: nat)
    requires rs != []
  {
    && Latest(rs) - s.lastEviction <= STALE_AFTER
    && s.lastEviction <= Latest(rs)
    && (forall k :: k in s.table ==> LastCall(k, rs) != None && s.table[k].last <= LastCall(k, rs).value)
    && (forall k :: k in s.table ==> s.lastEviction - s.table[k].last <= Max(STALE_AFTER, skew))
    && (forall k :: LastCall(k, rs) != None && Latest(rs) - LastCall(k, rs).value <= STALE_AFTER ==>
          k in s.table && s.table[k].last == LastCall(k, rs).value)
  }

  lemma {:induction false} RunKeepsResidency(rps: real, burst: int, rs: seq<Request>, skew: nat)
    requires rs != [] && SkewedBy(rs, skew) && rs[0].at >= ZERO_TIME
    ensures Residency(Run(New(rps, burst), rs), rs, skew)
  {
    var front, r := rs[..|rs| - 1], rs[|rs| - 1];
    var s := Run(New(rps, burst), front);
    if front == [] {
      assert Sweep(s, r.at).table == map[];
    } else {
      RunKeepsResidency(rps, burst, front, skew);
      ResidencyStep(s, rs, skew);
    }
  }

  lemma ResidencyStep(s: Limiter, rs: seq<Request>, skew: nat)
    requires |rs| > 1 && SkewedBy(rs, skew) && Residency(s, rs[..|rs| - 1], skew)
    ensures Residency(Call(s, rs[|rs| - 1]), rs, skew)
  {
    var front, r := rs[..|rs| - 1], rs[|rs| - 1];
    var swept, t := Sweep(s, r.at), Call(s, r);
    LastIsNotOld(rs, skew);
    var b := Lookup(swept.table, swept.rps, swept.burst, r);
    assert Next(b, r.at).last == Max(b.last, r.at);
    forall k | k in t.table
      ensures LastCall(k, rs) != None && t.table[k].last <= LastCall(k, rs).value
      ensures t.lastEviction - t.table[k].last <= Max(STALE_AFTER, skew)
    {
      if k != r.key {
        assert k in s.table && t.table[k] == s.table[k];
      }
    }
    forall k | LastCall(k, rs) != None && Latest(rs) - LastCall(k, rs).value <= STALE_AFTER
      ensures k in t.table && t.table[k].last == LastCall(k, rs).value
    {
      if k != r.key {
        assert LastCall(k, rs) == LastCall(k, front);
      }
    }
  }

  /** After every call of a run out of order by at most `skew` (which begins no earlier than
      year 1), a resident key was called within ten minutes and the larger of ten minutes and
      the skew, and every key called within ten minutes is resident. */
  lemma ResidencyIsBounded(rps: real, burst: int, rs: seq<Request>, skew: nat, key: string)
    requires rs != [] && SkewedBy(rs, skew) && rs[0].at >= ZERO_TIME
    ensures key in Run(New(rps, burst), rs).table ==>
      LastCall(key, rs) != None && Latest(rs) - LastCall(key, rs).value <= 600_000_000_000 + Max(600_000_000_000, skew)
    ensures LastCall(key, rs) != None && Latest(rs) - LastCall(key, rs).value <= 600_000_000_000 ==>
      key in Run(New(rps, burst), rs).table
  {
    RunKeepsResidency(rps, burst, rs, skew);
  }
}
