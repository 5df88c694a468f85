/** How the three simulators show a value: rounded to hundredths
    (internal/firewater/engine.go:559, internal/fleet/sim.go:196, internal/remoteedge/sim.go:225). */
module Rounding {

  /** Go's conversion of a number to int: toward zero. */
  function Truncated(y: real): int { if y >= 0.0 then y.Floor else -(-y).Floor }

  function Rounded(n: real): real { Truncated(n * 100.0 + 0.5) as real / 100.0 }

  lemma TruncatedIsClose(y: real)
    ensures if y >= 0.0 then y - 1.0 < Truncated(y) as real <= y else y <= Truncated(y) as real < y + 1.0
  {
  }

  lemma TruncatedIsUnique(y: real, k: int)
    requires if y >= 0.0 then y - 1.0 < k as real <= y else y <= k as real < y + 1.0
    ensures Truncated(y) == k
  {
  }

  /** A value is shown to the nearest hundredth from -0.005 up. Below, where adding a half and
      truncating no longer round, it is always shown too high. */
  lemma ErrorIsBounded(n: real)
    ensures n >= -0.005 ==> -0.005 < Rounded(n) - n <= 0.005
    ensures n < -0.005 ==> 0.005 <= Rounded(n) - n < 0.015
  {
    TruncatedIsClose(n * 100.0 + 0.5);
  }

  /** So the shown value is within half a hundredth exactly from -0.005 up and midway between
      two hundredths. */
  lemma NearestExactlyWhen(n: real)
    ensures -0.005 <= Rounded(n) - n <= 0.005
       <==> n >= -0.005 || exists k: int {:trigger k as real} :: n * 100.0 + 0.5 == k as real
  {
    var y := n * 100.0 + 0.5;
    ErrorIsBounded(n);
    if n < -0.005 && Rounded(n) - n <= 0.005 {
      assert y == Truncated(y) as real;
    }
    if k: int {:trigger k as real} :| y == k as real {
      TruncatedIsUnique(y, k);
      assert Rounded(n) - n == 0.005;
    }
  }

  /** A whole number of hundredths is shown as itself exactly when it is not negative; otherwise
      as one hundredth more. */
  lemma HundredthsAreShown(k: int)
    ensures Rounded(k as real / 100.0) == (if k >= 0 then k else k + 1) as real / 100.0
  {
    TruncatedIsUnique(k as real + 0.5, if k >= 0 then k else k + 1);
    assert k as real / 100.0 * 100.0 + 0.5 == k as real + 0.5;
  }

  lemma RoundingIsMonotone(a: real, b: real)
    requires a <= b
    ensures Rounded(a) <= Rounded(b)
  {
    TruncatedIsMonotone(a * 100.0 + 0.5, b * 100.0 + 0.5);
  }

  lemma TruncatedIsMonotone(x: real, y: real)
    requires x <= y
    ensures Truncated(x) <= Truncated(y)
  {
    TruncatedIsClose(x);
    TruncatedIsClose(y);
  }
}
