/**
 * The one library routine of kotlin.math the calorie estimator relies on:
 * `round(Double)`, which rounds to the nearest integer and breaks ties
 * towards the even integer. It is stated here on exact reals.
 */
module KotlinMath {

  /** x has no fractional part. */
  predicate IsInteger(x: real) {
    x == x.Floor as real
  }

  predicate IsEven(n: int) {
    n % 2 == 0
  }

  /** Distance between two reals. */
  function Dist(a: real, b: real): (d: real)
    ensures d >= 0.0
    ensures d == a - b || d == b - a
  {
    if a >= b then a - b else b - a
  }

  /**
   * kotlin.math.round: the nearest integer to x; when x lies exactly halfway
   * between two integers, the even one of the two.
   */
  function Round(x: real): (r: real)
    ensures IsInteger(r)
    ensures Dist(r, x) <= 0.5
    ensures Dist(r, x) == 0.5 ==> IsEven(r.Floor)
  {
    var f := x.Floor;
    var frac := x - f as real;
    if frac < 0.5 then f as real
    else if frac > 0.5 then (f + 1) as real
    else if IsEven(f) then f as real
    else (f + 1) as real
  }

  /**
   * Round is determined by its contract: an integer strictly within 1/2 of x,
   * or an even integer exactly 1/2 away, is Round(x).
   */
  lemma RoundUnique(x: real, n: int)
    requires Dist(n as real, x) < 0.5 || (Dist(n as real, x) == 0.5 && IsEven(n))
    ensures Round(x) == n as real
  {
    // x lies in [n - 1/2, n + 1/2], so its floor is n or n - 1
    if x >= n as real {
      assert x.Floor == n;
    } else {
      assert x.Floor == n - 1;
    }
  }

  /** No integer is closer to x than Round(x). */
  lemma RoundIsNearest(x: real, n: int)
    ensures Dist(Round(x), x) <= Dist(n as real, x)
  {
    if Dist(n as real, x) < 0.5 {
      RoundUnique(x, n);
    }
  }

  /** Rounding never reverses the order of two values. */
  lemma RoundMonotone(x: real, y: real)
    requires x <= y
    ensures Round(x) <= Round(y)
  {
    if x.Floor < y.Floor {
      assert Round(x) <= (x.Floor + 1) as real <= y.Floor as real <= Round(y);
    } else {
      // same floor: Round only steps up as the fractional part grows
      assert x.Floor == y.Floor;
    }
  }

  /** Ties go to the even neighbour, in both directions and for negatives. */
  lemma RoundTiesToEven()
    ensures Round(0.5) == 0.0 && Round(1.5) == 2.0 && Round(2.5) == 2.0
    ensures Round(-0.5) == 0.0 && Round(-1.5) == -2.0
    ensures Round(2.4) == 2.0 && Round(2.6) == 3.0
  {
    RoundUnique(0.5, 0);
    RoundUnique(1.5, 2);
    RoundUnique(2.5, 2);
    RoundUnique(-0.5, 0);
    RoundUnique(-1.5, -2);
    RoundUnique(2.4, 2);
    RoundUnique(2.6, 3);
  }
}
