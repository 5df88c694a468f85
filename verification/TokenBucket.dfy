/** The lazily refilled token bucket of internal/httpapi/ratelimit.go.

    Time is counted in integer nanoseconds and token amounts are exact reals. */
module TokenBuckets {
  import opened Common

  /** time.Duration.Seconds */
  function Seconds(nanos: int): real { nanos as real / 1_000_000_000.0 }

  /** Tokens the refill rate is worth between two instants. */
  function Earned(rate: real, from: int, to: int): real { rate * Seconds(to - from) }

  lemma EarnedAdds(rate: real, t0: int, t1: int, t2: int)
    ensures Earned(rate, t0, t2) == Earned(rate, t0, t1) + Earned(rate, t1, t2)
  {
    assert Seconds(t2 - t0) == Seconds(t1 - t0) + Seconds(t2 - t1);
  }

  lemma EarnedMonotone(rate: real, from: int, to: int)
    requires rate >= 0.0 && from <= to
    ensures Earned(rate, from, to) >= 0.0
  {
    assert Seconds(to - from) >= 0.0;
  }

  datatype Bucket = Bucket(tokens: real, max: real, rate: real, last: int)

  ghost predicate Sound(b: Bucket) { b.rate >= 0.0 && 0.0 <= b.tokens <= b.max }

  function Full(max: real, rate: real, now: int): Bucket { Bucket(max, max, rate, now) }

  // ---- one call -----------------------------------------------------------------------

  /** The bucket once the time up to now has been credited; an instant at or before `last`
      credits nothing. */
  function Refill(b: Bucket, now: int): Bucket {
    if now > b.last
    then b.(tokens := Min(b.max, b.tokens + Earned(b.rate, b.last, now)), last := now)
    else b
  }

  predicate Admits(b: Bucket, now: int) { Refill(b, now).tokens >= 1.0 }

  function Next(b: Bucket, now: int): Bucket {
    var r := Refill(b, now);
    if r.tokens >= 1.0 then r.(tokens := r.tokens - 1.0) else r
  }

  class TokenBucket {
    var tokens: real
    var max: real
    var refillPerSec: real
    var last: int

    constructor (tokens: real, max: real, refillPerSec: real, last: int)
      ensures Value() == Bucket(tokens, max, refillPerSec, last)
    {
      this.tokens, this.max, this.refillPerSec, this.last := tokens, max, refillPerSec, last;
    }

    ghost function Value(): Bucket
      reads this
    {
      Bucket(tokens, max, refillPerSec, last)
    }

    method Allow(now: int) returns (ok: bool)
      modifies this
      ensures Value() == Next(old(Value()), now)
      ensures ok == Admits(old(Value()), now)
    {
      var elapsed := Seconds(now - last);
      if elapsed > 0.0 {
        tokens := tokens + elapsed * refillPerSec;
        if tokens > max {
          tokens := max;
        }
        last := now;
      }
      if tokens < 1.0 {
        return false;
      }
      tokens := tokens - 1.0;
      return true;
    }
  }

  // ---- whole runs ---------------------------------------------------------------------

  /** The bucket after calls at the given instants. */
  function After(b: Bucket, ts: seq<int>): Bucket {
    if ts == [] then b else Next(After(b, ts[..|ts| - 1]), ts[|ts| - 1])
  }

  /** The answer to each of the calls. */
  function Decisions(b: Bucket, ts: seq<int>): (ds: seq<bool>)
    ensures |ds| == |ts|
  {
    if ts == [] then []
    else Decisions(b, ts[..|ts| - 1]) + [Admits(After(b, ts[..|ts| - 1]), ts[|ts| - 1])]
  }

  lemma AfterStep(b: Bucket, ts: seq<int>, n: nat)
    requires n < |ts|
    ensures After(b, ts[..n + 1]) == Next(After(b, ts[..n]), ts[n])
  {
    assert ts[..n + 1][..n] == ts[..n];
  }

  lemma {:induction false} DecisionsPrefix(b: Bucket, ts: seq<int>, n: nat)
    requires n <= |ts|
    ensures Decisions(b, ts[..n]) == Decisions(b, ts)[..n]
  {
    if n < |ts| {
      var front := ts[..|ts| - 1];
      DecisionsPrefix(b, front, n);
      assert front[..n] == ts[..n];
      assert Decisions(b, ts)[..|front|] == Decisions(b, front);
    } else {
      assert ts[..n] == ts;
    }
  }

  /** Each answer is the one the state reached by the earlier calls gives. */
  lemma DecisionAt(b: Bucket, ts: seq<int>, n: nat)
    requires n < |ts|
    ensures Decisions(b, ts)[n] == Admits(After(b, ts[..n]), ts[n])
  {
    DecisionsPrefix(b, ts, n + 1);
    assert ts[..n + 1][..n] == ts[..n];
    assert Decisions(b, ts)[n] == Decisions(b, ts[..n + 1])[n];
  }

  /** The effective clock of a bucket: the running maximum of the instants it has seen. */
  function Clock(start: int, ts: seq<int>): (cs: seq<int>)
    ensures |cs| == |ts|
  {
    if ts == [] then []
    else
      var front := Clock(start, ts[..|ts| - 1]);
      front + [Max(if front == [] then start else front[|front| - 1], ts[|ts| - 1])]
  }

  /** The latest instant of the effective clock. */
  function ClockNow(start: int, ts: seq<int>): int {
    if ts == [] then start else Clock(start, ts)[|ts| - 1]
  }

  ghost predicate Sorted(start: int, ts: seq<int>) {
    && (forall i :: 0 <= i < |ts| ==> start <= ts[i])
    && (forall i, j :: 0 <= i <= j < |ts| ==> ts[i] <= ts[j])
  }

  lemma {:induction false} ClockPrefix(start: int, ts: seq<int>, n: nat)
    requires n <= |ts|
    ensures Clock(start, ts[..n]) == Clock(start, ts)[..n]
  {
    if n < |ts| {
      var front := ts[..|ts| - 1];
      ClockPrefix(start, front, n);
      assert front[..n] == ts[..n];
      assert Clock(start, ts)[..|ts| - 1] == Clock(start, front);
    } else {
      assert ts[..n] == ts;
    }
  }

  lemma {:induction false} ClockIsSorted(start: int, ts: seq<int>)
    ensures Sorted(start, Clock(start, ts))
  {
    if ts != [] {
      ClockIsSorted(start, ts[..|ts| - 1]);
    }
  }

  lemma ClockSnoc(start: int, ts: seq<int>, t: int)
    ensures Clock(start, ts + [t]) == Clock(start, ts) + [Max(ClockNow(start, ts), t)]
  {
    assert (ts + [t])[..|ts|] == ts;
  }

  lemma SortedSnoc(start: int, front: seq<int>, t: int)
    requires Clock(start, front) == front && t >= if front == [] then start else front[|front| - 1]
    ensures Clock(start, front + [t]) == front + [t]
  {
    ClockSnoc(start, front, t);
  }

  lemma {:induction false} SortedIsItsOwnClock(start: int, ts: seq<int>)
    requires Sorted(start, ts)
    ensures Clock(start, ts) == ts
  {
    if ts != [] {
      var front, t := ts[..|ts| - 1], ts[|ts| - 1];
      SortedPrefix(start, ts, |ts| - 1);
      SortedIsItsOwnClock(start, front);
      assert ts == front + [t];
      SortedSnoc(start, front, t);
    }
  }

  /** What no call changes: the parameters, and 0 <= tokens <= max; `last` follows the
      effective clock. */
  lemma {:induction false} AfterIsSound(b: Bucket, ts: seq<int>)
    requires Sound(b)
    ensures Sound(After(b, ts))
    ensures After(b, ts).max == b.max && After(b, ts).rate == b.rate
    ensures After(b, ts).last == ClockNow(b.last, ts)
  {
    if ts != [] {
      var n := |ts| - 1;
      AfterIsSound(b, ts[..n]);
      var prev := After(b, ts[..n]);
      if ts[n] > prev.last {
        EarnedMonotone(b.rate, prev.last, ts[n]);
      }
      ClockPrefix(b.last, ts, n);
    }
  }

  /** Out-of-order timestamps are answered as if each had been replaced by the running
      maximum, so a clock that jumps back can neither mint nor destroy tokens. */
  lemma {:induction false} OnlyTheRunningMaximumMatters(b: Bucket, ts: seq<int>)
    requires Sound(b)
    ensures After(b, Clock(b.last, ts)) == After(b, ts)
    ensures Decisions(b, Clock(b.last, ts)) == Decisions(b, ts)
  {
    if ts != [] {
      var n := |ts| - 1;
      var cs := Clock(b.last, ts);
      OnlyTheRunningMaximumMatters(b, ts[..n]);
      ClockPrefix(b.last, ts, n);
      AfterIsSound(b, ts[..n]);
      assert cs[n] == Max(After(b, ts[..n]).last, ts[n]);
    }
  }

  // ---- exact conformance --------------------------------------------------------------

  /** What the window opened by admission j still allows at instant `now`, before call n. */
  ghost function Window(max: real, rate: real, cs: seq<int>, ds: seq<bool>, j: nat, n: nat, now: int): real
    requires j <= n <= |ds| == |cs| && j < |ds|
  {
    max + Earned(rate, cs[j], now) - CountTrue(ds[j..n]) as real
  }

  /** `level` is the tightest of all the windows and the capacity. */
  ghost predicate Tightest(level: real, max: real, rate: real, cs: seq<int>, ds: seq<bool>, n: nat, now: int)
    requires n <= |ds| == |cs|
  {
    && level <= max
    && (forall j :: 0 <= j < n && ds[j] ==> level <= Window(max, rate, cs, ds, j, n, now))
    && (level == max || exists j :: 0 <= j < n && ds[j] && level == Window(max, rate, cs, ds, j, n, now))
  }

  lemma WindowStep(max: real, rate: real, cs: seq<int>, ds: seq<bool>, j: nat, n: nat, now: int)
    requires j <= n < |ds| == |cs|
    ensures Window(max, rate, cs, ds, j, n + 1, now)
         == Window(max, rate, cs, ds, j, n, cs[n]) + Earned(rate, cs[n], now) - (if ds[n] then 1.0 else 0.0)
  {
    EarnedAdds(rate, cs[j], cs[n], now);
    assert ds[j..n + 1] == ds[j..n] + [ds[n]];
    CountTrueSnoc(ds[j..n], ds[n]);
  }

  /** Refilled to any later instant, the level is the tightest window. */
  lemma {:induction false} LevelIsTightest(b: Bucket, cs: seq<int>, n: nat, now: int)
    requires Sound(b) && b.tokens == b.max && Sorted(b.last, cs) && n <= |cs|
    requires now >= ClockNow(b.last, cs[..n])
    ensures Tightest(Refill(After(b, cs[..n]), now).tokens, b.max, b.rate, cs, Decisions(b, cs), n, now)
  {
    var ds := Decisions(b, cs);
    if n == 0 {
      if now > b.last {
        EarnedMonotone(b.rate, b.last, now);
      }
    } else {
      var m := n - 1;
      var t := cs[m];
      SortedPrefix(b.last, cs, m);
      SortedPrefix(b.last, cs, n);
      SortedIsItsOwnClock(b.last, cs[..n]);
      SortedIsItsOwnClock(b.last, cs[..m]);
      assert ClockNow(b.last, cs[..n]) == t;
      LevelIsTightest(b, cs, m, t);
      AfterStep(b, cs, m);
      AfterIsSound(b, cs[..m]);
      AfterIsSound(b, cs[..n]);
      LevelStep(b, cs, m, now, Refill(After(b, cs[..m]), t).tokens);
    }
  }

  lemma SortedPrefix(start: int, cs: seq<int>, n: nat)
    requires Sorted(start, cs) && n <= |cs|
    ensures Sorted(start, cs[..n])
  {
  }

  /** One step of LevelIsTightest: from the level at call m to the level after it. */
  lemma LevelStep(b: Bucket, cs: seq<int>, m: nat, now: int, level: real)
    requires Sound(b) && Sorted(b.last, cs) && m < |cs| && now >= cs[m]
    requires level == Refill(After(b, cs[..m]), cs[m]).tokens
    requires After(b, cs[..m + 1]) == Next(After(b, cs[..m]), cs[m])
    requires var c := After(b, cs[..m]); c.max == b.max && c.rate == b.rate && c.last <= cs[m]
    requires Sound(After(b, cs[..m + 1]))
    requires Tightest(level, b.max, b.rate, cs, Decisions(b, cs), m, cs[m])
    ensures Tightest(Refill(After(b, cs[..m + 1]), now).tokens, b.max, b.rate, cs, Decisions(b, cs), m + 1, now)
  {
    var ds := Decisions(b, cs);
    var n := m + 1;
    var spent := if ds[m] then 1.0 else 0.0;
    var gained := Earned(b.rate, cs[m], now);
    EarnedMonotone(b.rate, cs[m], now);
    DecisionAt(b, cs, m);
    var after := Refill(After(b, cs[..n]), now).tokens;
    assert After(b, cs[..n]).tokens == level - spent;
    assert after == Min(b.max, level - spent + gained);
    forall j | 0 <= j < n && ds[j]
      ensures after <= Window(b.max, b.rate, cs, ds, j, n, now)
    {
      WindowStep(b.max, b.rate, cs, ds, j, m, now);
      OpenWindow(b.max, b.rate, cs, ds, m);
    }
    if after != b.max {
      var j :| 0 <= j <= m && ds[j] && level == (if j == m then b.max else Window(b.max, b.rate, cs, ds, j, m, cs[m]));
      WindowStep(b.max, b.rate, cs, ds, j, m, now);
      OpenWindow(b.max, b.rate, cs, ds, m);
      assert after == Window(b.max, b.rate, cs, ds, j, n, now);
    }
  }

  lemma OpenWindow(max: real, rate: real, cs: seq<int>, ds: seq<bool>, m: nat)
    requires m < |ds| == |cs|
    ensures Window(max, rate, cs, ds, m, m, cs[m]) == max
  {
    assert ds[m..m] == [];
  }

  /** Call n conforms: it fits the capacity, and every window opened by an earlier admission
      has room for it. */
  ghost predicate Conforms(max: real, rate: real, cs: seq<int>, ds: seq<bool>, n: nat)
    requires n < |ds| == |cs|
  {
    && 1.0 <= max
    && forall j :: 0 <= j < n && ds[j] ==>
         CountTrue(ds[j..n]) as real + 1.0 <= max + Earned(rate, cs[j], cs[n])
  }

  lemma ConformanceOnSortedClock(b: Bucket, cs: seq<int>, n: nat)
    requires Sound(b) && b.tokens == b.max && Sorted(b.last, cs) && n < |cs|
    ensures Decisions(b, cs)[n] <==> Conforms(b.max, b.rate, cs, Decisions(b, cs), n)
  {
    var ds := Decisions(b, cs);
    SortedPrefix(b.last, cs, n);
    SortedIsItsOwnClock(b.last, cs[..n]);
    LevelIsTightest(b, cs, n, cs[n]);
    DecisionAt(b, cs, n);
    var level := Refill(After(b, cs[..n]), cs[n]).tokens;
    assert Tightest(level, b.max, b.rate, cs, ds, n, cs[n]);
    if ds[n] {
      forall j | 0 <= j < n && ds[j]
        ensures CountTrue(ds[j..n]) as real + 1.0 <= b.max + Earned(b.rate, cs[j], cs[n])
      {
        assert level <= Window(b.max, b.rate, cs, ds, j, n, cs[n]);
      }
    }
  }

  /** For every sequence of timestamps, a full bucket admits exactly the calls that conform:
      it never exceeds a window and never refuses needlessly. */
  lemma ExactConformance(b: Bucket, ts: seq<int>, n: nat)
    requires Sound(b) && b.tokens == b.max && n < |ts|
    ensures Decisions(b, ts)[n] <==> Conforms(b.max, b.rate, Clock(b.last, ts), Decisions(b, ts), n)
  {
    OnlyTheRunningMaximumMatters(b, ts);
    ClockIsSorted(b.last, ts);
    ConformanceOnSortedClock(b, Clock(b.last, ts), n);
  }

  lemma InNanoseconds(x: real, max: real, rate: real, from: int, to: int)
    ensures x <= max + Earned(rate, from, to)
       <==> x * 1_000_000_000.0 <= max * 1_000_000_000.0 + rate * (to - from) as real
  {
    var d := (to - from) as real;
    assert Earned(rate, from, to) == rate * (d / 1_000_000_000.0);
    QuotientOut(rate, d, 1_000_000_000.0);
  }

  lemma QuotientOut(rate: real, d: real, unit: real)
    requires unit > 0.0
    ensures rate * (d / unit) * unit == rate * d
  {
    assert d / unit * unit == d;
  }

  /** A window of `max` tokens and `rate` a second, opened at `from`, has room at `to` for one
      more call after `taken`: counted in the clock's own unit, thousand-millionths of a second. */
  ghost predicate HasRoom(max: real, rate: real, from: int, to: int, taken: nat) {
    (taken as real + 1.0) * 1_000_000_000.0 <= max * 1_000_000_000.0 + rate * (to - from) as real
  }

  lemma RoomInNanoseconds(max: real, rate: real, from: int, to: int, taken: nat)
    ensures taken as real + 1.0 <= max + Earned(rate, from, to) <==> HasRoom(max, rate, from, to, taken)
  {
    InNanoseconds(taken as real + 1.0, max, rate, from, to);
  }

  lemma ConformsInNanoseconds(max: real, rate: real, cs: seq<int>, ds: seq<bool>, n: nat)
    requires n < |ds| == |cs|
    ensures Conforms(max, rate, cs, ds, n)
       <==> 1.0 <= max && forall j :: 0 <= j < n && ds[j] ==> HasRoom(max, rate, cs[j], cs[n], CountTrue(ds[j..n]))
  {
    forall j | 0 <= j < n && ds[j]
      ensures CountTrue(ds[j..n]) as real + 1.0 <= max + Earned(rate, cs[j], cs[n])
         <==> HasRoom(max, rate, cs[j], cs[n], CountTrue(ds[j..n]))
    {
      RoomInNanoseconds(max, rate, cs[j], cs[n], CountTrue(ds[j..n]));
    }
  }

  /** Exact conformance in nanoseconds: call n is admitted if and only if the capacity is a
      token or more and the window of every earlier admission has room for it. */
  lemma ExactInNanoseconds(b: Bucket, ts: seq<int>, n: nat)
    requires Sound(b) && b.tokens == b.max && n < |ts|
    ensures var cs, ds := Clock(b.last, ts), Decisions(b, ts);
      ds[n] <==>
        && 1.0 <= b.max
        && forall j :: 0 <= j < n && ds[j] ==> HasRoom(b.max, b.rate, cs[j], cs[n], CountTrue(ds[j..n]))
  {
    ExactConformance(b, ts, n);
    ConformsInNanoseconds(b.max, b.rate, Clock(b.last, ts), Decisions(b, ts), n);
  }

  /** The effective clock shows the latest of the start and the instants so far. */
  lemma {:induction false} ClockIsTheMaximum(start: int, ts: seq<int>, i: nat)
    requires i < |ts|
    ensures Clock(start, ts)[i] >= start && forall j :: 0 <= j <= i ==> Clock(start, ts)[i] >= ts[j]
    ensures Clock(start, ts)[i] == start || exists j :: 0 <= j <= i && Clock(start, ts)[i] == ts[j]
  {
    var n := |ts| - 1;
    var front := ts[..n];
    if i < n {
      ClockIsTheMaximum(start, front, i);
      assert Clock(start, ts)[i] == Clock(start, front)[i];
      assert forall j :: 0 <= j <= i ==> front[j] == ts[j];
    } else if n > 0 {
      ClockIsTheMaximum(start, front, n - 1);
      assert forall j :: 0 <= j < n ==> front[j] == ts[j];
    }
  }

  lemma ConformsByPrefix(max: real, rate: real, cs: seq<int>, ds: seq<bool>, es: seq<bool>, n: nat)
    requires n < |ds| == |es| == |cs| && ds[..n] == es[..n]
    ensures Conforms(max, rate, cs, ds, n) <==> Conforms(max, rate, cs, es, n)
  {
    forall j | 0 <= j < n
      ensures ds[j] == es[j] && ds[j..n] == es[j..n]
    {
      assert ds[j] == ds[..n][j] && es[j] == es[..n][j];
      assert ds[j..n] == ds[..n][j..] && es[j..n] == es[..n][j..];
    }
  }

  /** Every answer is the one conformance asks for. */
  ghost predicate AllConform(max: real, rate: real, cs: seq<int>, ds: seq<bool>) {
    |ds| == |cs| && forall n {:trigger Conforms(max, rate, cs, ds, n)} ::
      0 <= n < |ds| ==> ds[n] == Conforms(max, rate, cs, ds, n)
  }

  lemma {:induction false} ConformingAgree(max: real, rate: real, cs: seq<int>, ds: seq<bool>, es: seq<bool>, n: nat)
    requires AllConform(max, rate, cs, ds) && AllConform(max, rate, cs, es) && n <= |cs|
    ensures ds[..n] == es[..n]
  {
    if n > 0 {
      var m := n - 1;
      ConformingAgree(max, rate, cs, ds, es, m);
      ConformsByPrefix(max, rate, cs, ds, es, m);
      assert ds[..n] == ds[..m] + [ds[m]] && es[..n] == es[..m] + [es[m]];
    }
  }

  /** Conformance leaves no freedom: the bucket's own answers, and no others, satisfy it at
      every call. */
  lemma ConformanceDetermines(b: Bucket, ts: seq<int>, ds: seq<bool>)
    requires Sound(b) && b.tokens == b.max
    ensures AllConform(b.max, b.rate, Clock(b.last, ts), ds) <==> ds == Decisions(b, ts)
  {
    var cs, es := Clock(b.last, ts), Decisions(b, ts);
    forall n | 0 <= n < |es|
      ensures es[n] == Conforms(b.max, b.rate, cs, es, n)
    {
      ExactConformance(b, ts, n);
    }
    if AllConform(b.max, b.rate, cs, ds) {
      ConformingAgree(b.max, b.rate, cs, ds, es, |cs|);
      assert ds[..|cs|] == ds && es[..|cs|] == es;
    }
  }

  // ---- conservation -------------------------------------------------------------------

  /** Tokens are never minted: over any run, on any clock, what is admitted plus what is left
      is at most what was there plus what the running maximum of the clock has earned. */
  lemma {:induction false} NothingMinted(b: Bucket, ts: seq<int>)
    requires Sound(b)
    ensures After(b, ts).tokens + CountTrue(Decisions(b, ts)) as real
         <= b.tokens + Earned(b.rate, b.last, ClockNow(b.last, ts))
  {
    if ts != [] {
      var n := |ts| - 1;
      NothingMinted(b, ts[..n]);
      AfterIsSound(b, ts[..n]);
      AfterIsSound(b, ts);
      CountTrueSnoc(Decisions(b, ts[..n]), Admits(After(b, ts[..n]), ts[n]));
      EarnedAdds(b.rate, b.last, After(b, ts[..n]).last, After(b, ts).last);
      if ts[n] > After(b, ts[..n]).last {
        EarnedMonotone(b.rate, After(b, ts[..n]).last, ts[n]);
      }
    }
  }

  lemma {:induction false} AfterConcat(b: Bucket, xs: seq<int>, ys: seq<int>)
    ensures After(b, xs + ys) == After(After(b, xs), ys)
    ensures Decisions(b, xs + ys) == Decisions(b, xs) + Decisions(After(b, xs), ys)
  {
    if ys == [] {
      assert xs + ys == xs;
    } else {
      var n := |ys| - 1;
      var all := xs + ys;
      assert all[..|all| - 1] == xs + ys[..n];
      AfterConcat(b, xs, ys[..n]);
    }
  }

  /** Every segment of every run, in or out of order, admits at most the capacity plus what
      the growth of `last` over the segment earns. */
  lemma SegmentBound(b: Bucket, ts: seq<int>, i: nat, j: nat)
    requires Sound(b) && i <= j <= |ts|
    ensures CountTrue(Decisions(b, ts)[i..j]) as real
         <= b.max + Earned(b.rate, After(b, ts[..i]).last, After(b, ts[..j]).last)
  {
    var mid := After(b, ts[..i]);
    AfterIsSound(b, ts[..i]);
    assert ts[..j] == ts[..i] + ts[i..j];
    AfterConcat(b, ts[..i], ts[i..j]);
    DecisionsPrefix(b, ts, j);
    DecisionsPrefix(b, ts, i);
    assert Decisions(b, ts)[i..j] == Decisions(mid, ts[i..j]);
    NothingMinted(mid, ts[i..j]);
    AfterIsSound(mid, ts[i..j]);
  }

  // ---- denials are free ---------------------------------------------------------------

  lemma RefillTwice(b: Bucket, t0: int, t1: int)
    requires Sound(b) && b.last <= t0 <= t1
    ensures Refill(Refill(b, t0), t1) == Refill(b, t1)
  {
    EarnedAdds(b.rate, b.last, t0, t1);
    EarnedMonotone(b.rate, b.last, t0);
    EarnedMonotone(b.rate, t0, t1);
  }

  lemma AfterOne(b: Bucket, ts: seq<int>, t: int)
    ensures After(b, ts + [t]) == Next(After(b, ts), t)
    ensures Decisions(b, ts + [t]) == Decisions(b, ts) + [Admits(After(b, ts), t)]
  {
    assert (ts + [t])[..|ts|] == ts;
  }

  /** `thin` is `full` as it was before some denied calls: brought up to date it is the same,
      and while it lags there is no whole token to be had. */
  ghost predicate Lags(thin: Bucket, full: Bucket) {
    && Sound(thin) && thin.last <= full.last && Refill(thin, full.last) == full
    && (thin == full || full.tokens < 1.0)
  }

  lemma NextIsSound(b: Bucket, t: int)
    requires Sound(b)
    ensures Sound(Refill(b, t)) && Sound(Next(b, t))
  {
    if t > b.last {
      EarnedMonotone(b.rate, b.last, t);
    }
  }

  /** A call at any instant, early or late, is answered alike and keeps the lag. */
  lemma LagKeepsAnswers(thin: Bucket, full: Bucket, t: int)
    requires Lags(thin, full)
    ensures Admits(thin, t) == Admits(full, t) && Lags(Next(thin, t), Next(full, t))
  {
    NextIsSound(thin, t);
    if t >= full.last {
      RefillTwice(thin, full.last, t);
    } else if t > thin.last {
      RefillTwice(thin, t, full.last);
      EarnedMonotone(thin.rate, t, full.last);
      EarnedAdds(thin.rate, thin.last, t, full.last);
    } else {
      EarnedMonotone(thin.rate, thin.last, full.last);
    }
  }

  /** Dropping a denied call, at any instant, keeps the lag. */
  lemma LagGrows(thin: Bucket, full: Bucket, t: int)
    requires Lags(thin, full) && !Admits(full, t)
    ensures Lags(thin, Next(full, t))
  {
    if t > full.last {
      RefillTwice(thin, full.last, t);
    }
  }

  /** A further call, kept or dropped as a denied one. */
  lemma OneMore(b: Bucket, kept: seq<int>, front: seq<int>, t: int, keep: bool)
    requires Lags(After(b, kept), After(b, front)) && (!keep ==> !Admits(After(b, front), t))
    ensures var thin := kept + (if keep then [t] else []);
      && Lags(After(b, thin), Next(After(b, front), t))
      && Decisions(b, thin) == Decisions(b, kept) + (if keep then [Admits(After(b, front), t)] else [])
  {
    if keep {
      LagKeepsAnswers(After(b, kept), After(b, front), t);
      AfterOne(b, kept, t);
    } else {
      LagGrows(After(b, kept), After(b, front), t);
      assert kept + [] == kept;
    }
  }

  /** On every clock, in or out of order, deleting any denied calls from a run changes no other
      answer, and leaves a bucket that no later call can tell apart. */
  lemma {:induction false} DenialsAreFree(b: Bucket, ts: seq<int>, mask: seq<bool>)
    requires Sound(b) && |mask| == |ts|
    requires forall i :: 0 <= i < |ts| && !mask[i] ==> !Decisions(b, ts)[i]
    ensures Decisions(b, Keep(ts, mask)) == Keep(Decisions(b, ts), mask)
    ensures Lags(After(b, Keep(ts, mask)), After(b, ts))
  {
    if ts != [] {
      var n := |ts| - 1;
      var t, front, kept := ts[n], ts[..n], Keep(ts[..n], mask[..n]);
      var ds := Decisions(b, front);
      assert Decisions(b, ts)[..n] == ds && Decisions(b, ts)[n] == Admits(After(b, front), t);
      assert forall i :: 0 <= i < n ==> Decisions(b, ts)[i] == ds[i];
      DenialsAreFree(b, front, mask[..n]);
      OneMore(b, kept, front, t, mask[n]);
    }
  }
}
