/**
 * The C# arithmetic the pricing code relies on. `decimal` is exact base-10
 * arithmetic and is modelled by `real`; `int / int` truncates toward zero;
 * `Math.Round(decimal, 2)` rounds to two places with halves going to the
 * even neighbour (MidpointRounding.ToEven, the default).
 */
module DecimalMath {

  /** C# `a / 2` on `int`: half of `a`, truncated toward zero (Dafny's `/` is Euclidean). */
  function HalfTowardZero(a: int): (q: int)
    ensures a >= 0 ==> 0 <= a - 2 * q <= 1
    ensures a < 0 ==> -1 <= a - 2 * q <= 0
  {
    if a >= 0 then a / 2 else -((-a) / 2)
  }

  /** The integer nearest to `y`; of two equally near integers, the even one. */
  function RoundHalfEven(y: real): (k: int)
    ensures -0.5 <= k as real - y <= 0.5
    ensures (k as real - y == 0.5 || y - k as real == 0.5) ==> k % 2 == 0
  {
    var f := y.Floor;
    var frac := y - f as real;
    if frac < 0.5 then f
    else if frac > 0.5 then f + 1
    else if f % 2 == 0 then f
    else f + 1
  }

  /** The two properties of `RoundHalfEven` determine its result. */
  lemma RoundHalfEvenUnique(y: real, k: int)
    requires -0.5 <= k as real - y <= 0.5
    requires (k as real - y == 0.5 || y - k as real == 0.5) ==> k % 2 == 0
    ensures k == RoundHalfEven(y)
  {
  }

  /** A value with no digits beyond the second decimal place. */
  predicate IsWholeCents(r: real) {
    (r * 100.0).Floor as real == r * 100.0
  }

  /** `Math.Round(x, 2)`. */
  function Round2(x: real): (r: real)
    ensures -0.005 <= r - x <= 0.005
    ensures IsWholeCents(r)
    ensures x >= 0.0 ==> r >= 0.0
    ensures (r - x == 0.005 || x - r == 0.005) ==> (r * 100.0).Floor % 2 == 0
  {
    var k := RoundHalfEven(x * 100.0);
    CentsNear(k, x);
    k as real / 100.0
  }

  /**
   * A whole number of cents within half a cent of `x * 100` is within half a
   * cent of `x`, and it lies exactly half a cent away only on a tie.
   */
  lemma CentsNear(k: int, x: real)
    requires -0.5 <= k as real - x * 100.0 <= 0.5
    ensures -0.005 <= k as real / 100.0 - x <= 0.005
    ensures IsWholeCents(k as real / 100.0) && (k as real / 100.0 * 100.0).Floor == k
    ensures x >= 0.0 ==> k as real / 100.0 >= 0.0
    ensures (k as real / 100.0 - x == 0.005 || x - k as real / 100.0 == 0.005) <==>
            (k as real - x * 100.0 == 0.5 || x * 100.0 - k as real == 0.5)
  {
    var r := k as real / 100.0;
    assert r * 100.0 == k as real;
    assert (k as real).Floor == k;
    assert r - x == (k as real - x * 100.0) / 100.0;
    if x >= 0.0 {
      assert k as real >= -0.5;
      assert k >= 0;
    }
  }

  /** A value that already has at most two decimal places is not changed by rounding. */
  lemma Round2OfCents(k: int)
    ensures Round2(k as real / 100.0) == k as real / 100.0
  {
    RoundHalfEvenUnique(k as real, k);
    assert (k as real / 100.0) * 100.0 == k as real;
  }

  /** Rounding never reverses the order of two values. */
  lemma Round2Monotone(x: real, y: real)
    requires x <= y
    ensures Round2(x) <= Round2(y)
  {
    var i, j := RoundHalfEven(x * 100.0), RoundHalfEven(y * 100.0);
    assert i as real - 0.5 <= x * 100.0 <= y * 100.0 <= j as real + 0.5;
    if i > j {
      assert false;
    }
  }

  /** Halves go to the even cent: 0.005 rounds down, 0.015 and 0.025 both round to 0.02. */
  lemma Round2Examples()
    ensures Round2(0.005) == 0.0
    ensures Round2(0.015) == 0.02
    ensures Round2(0.025) == 0.02
    ensures Round2(-0.025) == -0.02
    ensures Round2(23.756) == 23.76
  {
    assert (0.5).Floor == 0;
    assert (1.5).Floor == 1;
    assert (2.5).Floor == 2;
    assert (-2.5).Floor == -3;
    assert (2375.6).Floor == 2375;
  }
}
