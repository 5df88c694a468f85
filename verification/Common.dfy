/** Small shared vocabulary: optional values, random draws, and selecting part of a run. */
module Common {

  datatype Option<+T> = None | Some(value: T)

  /** One result of Go's rand.Float64(): any value of the half-open unit interval. */
  type Draw = r: real | 0.0 <= r < 1.0 witness 0.0

  /** The entry of a map, if there is one. */
  function Find<K, V>(m: map<K, V>, k: K): Option<V> { if k in m then Some(m[k]) else None }

  /** Reading a Go map of numbers: an absent key is zero. */
  function Get<K>(m: map<K, real>, k: K): real { if k in m then m[k] else 0.0 }

  /** Appending an element under a condition. */
  function When<T>(c: bool, x: T): seq<T> { if c then [x] else [] }

  function Min(x: real, y: real): real { if x <= y then x else y }

  function Max(x: int, y: int): int { if x <= y then y else x }

  /** The number of true entries. */
  function CountTrue(bs: seq<bool>): nat {
    if bs == [] then 0
    else CountTrue(bs[..|bs| - 1]) + (if bs[|bs| - 1] then 1 else 0)
  }

  lemma {:induction false} CountTrueSnoc(bs: seq<bool>, b: bool)
    ensures CountTrue(bs + [b]) == CountTrue(bs) + (if b then 1 else 0)
  {
    assert (bs + [b])[..|bs|] == bs;
  }

  /** The entries of xs at the places the mask keeps, in order. */
  function Keep<T>(xs: seq<T>, mask: seq<bool>): (kept: seq<T>)
    requires |xs| == |mask|
    ensures |kept| == CountTrue(mask)
  {
    if xs == [] then []
    else
      var n := |xs| - 1;
      Keep(xs[..n], mask[..n]) + (if mask[n] then [xs[n]] else [])
  }

  lemma KeepSnoc<T>(xs: seq<T>, mask: seq<bool>, x: T, m: bool)
    requires |xs| == |mask|
    ensures Keep(xs + [x], mask + [m]) == Keep(xs, mask) + (if m then [x] else [])
  {
    assert (xs + [x])[..|xs|] == xs;
    assert (mask + [m])[..|mask|] == mask;
  }

  lemma {:induction false} KeepAll<T>(xs: seq<T>, mask: seq<bool>)
    requires |xs| == |mask| && forall i :: 0 <= i < |mask| ==> mask[i]
    ensures Keep(xs, mask) == xs
  {
    if xs != [] {
      KeepAll(xs[..|xs| - 1], mask[..|xs| - 1]);
    }
  }

  /** Pointwise conjunction of two masks of the same length. */
  function Both(p: seq<bool>, q: seq<bool>): (r: seq<bool>)
    requires |p| == |q|
    ensures |r| == |p| && forall i :: 0 <= i < |r| ==> r[i] == (p[i] && q[i])
  {
    seq(|p|, i requires 0 <= i < |p| => p[i] && q[i])
  }

  /** Selecting twice is selecting by the conjunction. */
  lemma {:induction false} KeepTwice<T>(xs: seq<T>, p: seq<bool>, q: seq<bool>)
    requires |xs| == |p| == |q|
    ensures Keep(Keep(xs, p), Keep(q, p)) == Keep(xs, Both(p, q))
  {
    if xs != [] {
      var n := |xs| - 1;
      KeepTwice(xs[..n], p[..n], q[..n]);
      assert Both(p, q)[..n] == Both(p[..n], q[..n]);
      if p[n] {
        KeepSnoc(Keep(xs[..n], p[..n]), Keep(q[..n], p[..n]), xs[n], q[n]);
      } else {
        assert Keep(xs, p) == Keep(xs[..n], p[..n]);
        assert Keep(q, p) == Keep(q[..n], p[..n]);
      }
    }
  }

  lemma BothCommutes(p: seq<bool>, q: seq<bool>)
    requires |p| == |q|
    ensures Both(p, q) == Both(q, p)
  {
  }
}
