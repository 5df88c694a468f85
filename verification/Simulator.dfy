/** What the three simulated engines share: a step overwrites metrics from tables, each write
    fixed, jittered by its own random draw, or drained from the value before
    (internal/firewater/engine.go, internal/fleet/sim.go, internal/remoteedge/sim.go). */
module Simulator {
  import opened Common

  /** One assignment of a step. `Drain` and `JitterAbove` are bounded below by `floor`. */
  datatype Write =
    | Put(x: real)
    | Jitter(n: real, amp: real)
    | Drain(floor: real, amount: real)
    | JitterAbove(floor: real, n: real, amp: real)

  function MaxF(a: real, b: real): real { if a > b then a else b }

  function Written(w: Write, before: real, r: Draw): real {
    match w
    case Put(x) => x
    case Jitter(n, amp) => n + (r - 0.5) * amp
    case Drain(floor, amount) => MaxF(floor, before - amount)
    case JitterAbove(floor, n, amp) => MaxF(floor, n + (r - 0.5) * amp)
  }

  /** A value under a write that may be missing. */
  function Under(w: Option<Write>, before: real, r: Draw): real {
    if w == None then before else Written(w.value, before, r)
  }

  /** The values a write can give: a jitter moves by at most half its amplitude either way. */
  predicate Gives(w: Option<Write>, before: real, x: real) {
    match w
    case None => x == before
    case Some(Put(y)) => x == y
    case Some(Jitter(n, amp)) => n - Half(amp) <= x <= n + Half(amp)
    case Some(Drain(floor, amount)) => x == MaxF(floor, before - amount)
    case Some(JitterAbove(floor, n, amp)) => floor <= x && n - Half(amp) <= x <= MaxF(floor, n + Half(amp))
  }

  function Half(amp: real): real { if amp >= 0.0 then amp / 2.0 else -amp / 2.0 }

  lemma JitterIsBounded(r: Draw, amp: real)
    ensures -Half(amp) <= (r - 0.5) * amp <= Half(amp)
  {
    var a := Half(amp) * 2.0;
    ProductIsNonnegative(r, a);
    ProductIsNonnegative(1.0 - r, a);
    assert (r - 0.5) * a == r * a - Half(amp) && (1.0 - r) * a == a - r * a;
    assert amp == a || amp == -a;
    assert (r - 0.5) * -a == -((r - 0.5) * a);
  }

  lemma ProductIsNonnegative(x: real, y: real)
    requires x >= 0.0 && y >= 0.0
    ensures x * y >= 0.0
  {
  }

  lemma DrawsStayInRange(w: Option<Write>, before: real, r: Draw)
    ensures Gives(w, before, Under(w, before, r))
  {
    match w {
      case Some(Jitter(_, amp)) => JitterIsBounded(r, amp);
      case Some(JitterAbove(_, _, amp)) => JitterIsBounded(r, amp);
      case _ =>
    }
  }

  /** The values after every write of a table. */
  function Applied<K>(v: map<K, real>, table: map<K, Write>, draws: K -> Draw): map<K, real> {
    map k | k in v.Keys + table.Keys :: if k in table then Written(table[k], Get(v, k), draws(k)) else v[k]
  }

  /** Writes a table into the values, one metric at a time in any order. */
  method Apply<K>(v: map<K, real>, table: map<K, Write>, draws: K -> Draw) returns (out: map<K, real>)
    ensures out == Applied(v, table, draws)
  {
    out := v;
    var pending := table.Keys;
    while pending != {}
      invariant pending <= table.Keys
      invariant out.Keys == v.Keys + (table.Keys - pending)
      invariant forall k :: k in out ==>
        out[k] == (if k in table && k !in pending then Written(table[k], Get(v, k), draws(k)) else Get(v, k))
      decreases pending
    {
      var k :| k in pending;
      out := out[k := Written(table[k], Get(out, k), draws(k))];
      pending := pending - {k};
    }
  }

  /** A table that writes every metric without looking at it forgets the values before. */
  lemma FullTableForgets<K>(v: map<K, real>, table: map<K, Write>, draws: K -> Draw)
    requires v.Keys <= table.Keys && forall k :: k in table ==> table[k].Put? || table[k].Jitter?
    ensures Applied(v, table, draws) == Applied(map[], table, draws)
  {
  }

  lemma AppliedAt<K>(v: map<K, real>, table: map<K, Write>, draws: K -> Draw, k: K)
    ensures Get(Applied(v, table, draws), k)
         == if k in table then Written(table[k], Get(v, k), draws(k)) else Get(v, k)
  {
  }
}
