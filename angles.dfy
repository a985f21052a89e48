/**
 * Angle arithmetic behind the dual-ring scrubber: JavaScript's `%` on
 * numbers, the shortest-path normalisation of a drag delta, and the
 * re-wrapping of a ring's visual rotation into [0, 360).
 *
 * Degrees and seconds are exact reals; IEEE-754 rounding is not modelled.
 */
module Angles {

  /** Degrees in one full turn of a ring. */
  const FullTurn: real := 360.0

  /** Degrees in half a turn: the largest step a normalised delta may take. */
  const HalfTurn: real := 180.0

  function Abs(x: real): real
  {
    if x < 0.0 then -x else x
  }

  /** `k` copies of `period`. */
  function Times(k: int, period: real): real
  {
    k as real * period
  }

  /** `a` and `b` differ by a whole number of periods. */
  ghost predicate Congruent(a: real, b: real, period: real)
  {
    exists k: int :: a - b == Times(k, period)
  }

  /** `a` and `b` point the same way on a ring: they differ by whole turns. */
  ghost predicate SameDirection(a: real, b: real)
  {
    Congruent(a, b, FullTurn)
  }

  /** The angle a pointer can have: `atan2` converted to degrees. */
  predicate IsPointerAngle(a: real)
  {
    -HalfTurn <= a <= HalfTurn
  }

  lemma MulNonneg(x: real, y: real)
    requires 0.0 <= x && 0.0 <= y
    ensures 0.0 <= x * y
  {
  }

  lemma MulPositive(x: real, y: real)
    requires 0.0 < x && 0.0 < y
    ensures 0.0 < x * y
  {
  }

  lemma MulMonotone(b: real, u: real, v: real)
    requires 0.0 < b && u <= v
    ensures b * u <= b * v
  {
    MulNonneg(b, v - u);
    assert b * (v - u) == b * v - b * u;
  }

  lemma MulStrictMonotone(b: real, u: real, v: real)
    requires 0.0 < b && u < v
    ensures b * u < b * v
  {
    MulPositive(b, v - u);
    assert b * (v - u) == b * v - b * u;
  }

  /** The floored quotient `q` of `a` by `b` brackets `a` between multiples of `b`. */
  lemma QuotientBrackets(a: real, b: real, q: int)
    requires 0.0 < b && q == (a / b).Floor
    ensures b * q as real <= a < b * q as real + b
  {
    var x := a / b;
    assert a == b * x;
    assert q as real <= x < q as real + 1.0;
    MulMonotone(b, q as real, x);
    MulStrictMonotone(b, x, q as real + 1.0);
    assert b * (q as real + 1.0) == b * q as real + b;
    assert a < b * q as real + b;
  }

  lemma {:induction false} CongruentNegate(a: real, b: real, period: real)
    requires Congruent(a, b, period)
    ensures Congruent(-a, -b, period)
  {
    var k: int :| a - b == Times(k, period);
    assert -a - -b == Times(-k, period);
  }

  lemma CongruentOnePeriod(a: real, period: real)
    ensures Congruent(a, a + period, period)
  {
    assert a - (a + period) == Times(-1, period);
  }

  /**
   * Floored modulo: the unique representative of `a` in [0, b). This is
   * the reference against which the page's `%`-based wrapping is proved.
   */
  function FloorMod(a: real, b: real): (r: real)
    requires 0.0 < b
    ensures 0.0 <= r < b
    ensures Congruent(a, r, b)
  {
    var q := (a / b).Floor;
    QuotientBrackets(a, b, q);
    assert a - (a - b * q as real) == Times(q, b);
    a - b * q as real
  }

  /**
   * JavaScript's `a % b` for a positive divisor: the quotient is truncated
   * toward zero, so the remainder keeps the sign of the dividend and its
   * magnitude is the floored modulo of the dividend's magnitude.
   */
  function JsRem(a: real, b: real): (r: real)
    requires 0.0 < b
    ensures -b < r < b
    ensures 0.0 <= a ==> 0.0 <= r
    ensures a <= 0.0 ==> r <= 0.0
    ensures Congruent(a, r, b)
  {
    if 0.0 <= a then
      FloorMod(a, b)
    else
      CongruentNegate(-a, FloorMod(-a, b), b);
      -FloorMod(-a, b)
  }

  lemma {:induction false} CongruentTrans(a: real, b: real, c: real, period: real)
    requires Congruent(a, b, period) && Congruent(b, c, period)
    ensures Congruent(a, c, period)
  {
    var k1: int :| a - b == Times(k1, period);
    var k2: int :| b - c == Times(k2, period);
    assert a - c == Times(k1 + k2, period);
  }

  lemma {:induction false} CongruentSymm(a: real, b: real, period: real)
    requires Congruent(a, b, period)
    ensures Congruent(b, a, period)
  {
    var k: int :| a - b == Times(k, period);
    assert b - a == Times(-k, period);
  }

  lemma {:induction false} CongruentShift(a: real, b: real, d: real, period: real)
    requires Congruent(a, b, period)
    ensures Congruent(a + d, b + d, period)
  {
    var k: int :| a - b == Times(k, period);
    assert (a + d) - (b + d) == Times(k, period);
  }

  /** Two representatives in [0, b) of the same class are equal. */
  lemma {:induction false} CongruentInPeriodUnique(x: real, y: real, b: real)
    requires 0.0 < b
    requires 0.0 <= x < b && 0.0 <= y < b
    requires Congruent(x, y, b)
    ensures x == y
  {
    var k: int :| x - y == Times(k, b);
    if k >= 1 {
      MulNonneg(k as real - 1.0, b);
      assert false;
    } else if k <= -1 {
      MulNonneg(-k as real - 1.0, b);
      assert false;
    }
  }

  /** Floored modulo is the same for any two values of one class. */
  lemma {:induction false} FloorModOfCongruent(a: real, a': real, b: real)
    requires 0.0 < b
    requires Congruent(a, a', b)
    ensures FloorMod(a, b) == FloorMod(a', b)
  {
    var r, r' := FloorMod(a, b), FloorMod(a', b);
    CongruentSymm(a, r, b);
    CongruentTrans(r, a, a', b);
    CongruentTrans(r, a', r', b);
    CongruentInPeriodUnique(r, r', b);
  }

  /** Any representative of `a` in [0, b) is its floored modulo. */
  lemma {:induction false} FloorModUnique(a: real, b: real, r: real)
    requires 0.0 < b && 0.0 <= r < b
    requires Congruent(a, r, b)
    ensures r == FloorMod(a, b)
  {
    var f := FloorMod(a, b);
    CongruentSymm(a, r, b);
    CongruentTrans(r, a, f, b);
    CongruentInPeriodUnique(r, f, b);
  }

  /** A value already in [0, b) is its own floored modulo. */
  lemma {:induction false} FloorModInRange(a: real, b: real)
    requires 0.0 < b
    ensures 0.0 <= a < b ==> FloorMod(a, b) == a
  {
    if 0.0 <= a < b {
      assert Congruent(a, a, b) by {
        assert a - a == Times(0, b);
      }
      FloorModUnique(a, b, a);
    }
  }

  /**
   * JavaScript's double-`%` wrap, `((a % b) + b) % b`, is floored modulo.
   */
  lemma {:induction false} JsWrapIsFloorMod(a: real, b: real)
    requires 0.0 < b
    ensures JsRem(JsRem(a, b) + b, b) == FloorMod(a, b)
  {
    var r1 := JsRem(a, b);
    var r2 := JsRem(r1 + b, b);
    CongruentOnePeriod(r1, b);
    CongruentTrans(a, r1, r1 + b, b);
    CongruentTrans(a, r1 + b, r2, b);
    FloorModUnique(a, b, r2);
  }

  /**
   * Fold a raw angle difference onto the shortest path: more than half a
   * turn forward becomes the complementary step backward and vice versa.
   */
  function NormalizeDeltaAngle(delta: real): (r: real)
    ensures -HalfTurn <= delta <= HalfTurn ==> r == delta
    ensures delta > HalfTurn ==> r == delta - FullTurn
    ensures delta < -HalfTurn ==> r == delta + FullTurn
    ensures -3.0 * HalfTurn <= delta <= 3.0 * HalfTurn ==> -HalfTurn <= r <= HalfTurn
    ensures SameDirection(delta, r)
  {
    var d := if delta > HalfTurn then delta - FullTurn else delta;
    var r := if d < -HalfTurn then d + FullTurn else d;
    assert delta - r == Times(if delta > HalfTurn then 1 else if delta < -HalfTurn then -1 else 0, FullTurn);
    r
  }

  /**
   * The normalised delta is a shortest path: no other step that ends in
   * the same direction is shorter.
   */
  lemma {:induction false} NormalizeDeltaIsShortest(delta: real, k: int)
    requires -3.0 * HalfTurn <= delta <= 3.0 * HalfTurn
    ensures Abs(NormalizeDeltaAngle(delta)) <= Abs(delta + Times(k, FullTurn))
  {
    var r := NormalizeDeltaAngle(delta);
    var j: int := if r == delta then 0 else if r == delta - FullTurn then -1 else 1;
    assert r == delta + Times(j, FullTurn);
    assert delta + Times(k, FullTurn) == r + Times(k - j, FullTurn);
    if k - j >= 1 {
      assert Times(k - j, FullTurn) >= FullTurn;
    } else if k - j <= -1 {
      assert Times(k - j, FullTurn) <= -FullTurn;
    }
  }

  /** Any difference of two pointer angles normalises into [-180, 180]. */
  lemma PointerDeltaIsHalfTurnAtMost(last: real, current: real)
    requires IsPointerAngle(last) && IsPointerAngle(current)
    ensures -HalfTurn <= NormalizeDeltaAngle(current - last) <= HalfTurn
  {
  }

  /** Crossing the seam from 170 to -170 degrees is a 20-degree step forward. */
  lemma NormalizeCrossingSeam()
    ensures NormalizeDeltaAngle(-170.0 - 170.0) == 20.0
  {
  }

  /**
   * A ring's visual rotation after a step: `(x % 360)`, lifted by a turn
   * when negative. The result lies in [0, 360) and points the same way as x.
   */
  function WrapDegrees(x: real): (r: real)
    ensures 0.0 <= r < FullTurn
    ensures SameDirection(x, r)
  {
    var m := JsRem(x, FullTurn);
    if m < 0.0 then
      CongruentOnePeriod(m, FullTurn);
      CongruentTrans(x, m, m + FullTurn, FullTurn);
      m + FullTurn
    else
      m
  }

  /** The page's rotation wrap agrees with floored modulo 360. */
  lemma {:induction false} WrapDegreesIsFloorMod(x: real)
    ensures WrapDegrees(x) == FloorMod(x, FullTurn)
  {
    var w, f := WrapDegrees(x), FloorMod(x, FullTurn);
    CongruentSymm(x, w, FullTurn);
    CongruentTrans(w, x, f, FullTurn);
    CongruentInPeriodUnique(w, f, FullTurn);
  }

  /**
   * Re-wrapping on every move loses nothing: if the visual rotation is the
   * wrapped value of an unbounded cumulative rotation, it stays so after
   * any step `delta`.
   */
  lemma {:induction false} WrapDegreesTracksCumulative(rotation: real, cumulative: real, delta: real)
    requires rotation == FloorMod(cumulative, FullTurn)
    ensures WrapDegrees(rotation + delta) == FloorMod(cumulative + delta, FullTurn)
  {
    WrapDegreesIsFloorMod(rotation + delta);
    CongruentSymm(cumulative, rotation, FullTurn);
    CongruentShift(rotation, cumulative, delta, FullTurn);
    FloorModOfCongruent(rotation + delta, cumulative + delta, FullTurn);
  }

  /** A rotation already in [0, 360) is left where it is. */
  lemma {:induction false} WrapDegreesInRange(x: real)
    requires 0.0 <= x < FullTurn
    ensures WrapDegrees(x) == x
  {
    WrapDegreesIsFloorMod(x);
    FloorModInRange(x, FullTurn);
  }

  /** Rotating 5 degrees by -10 shows the ring at 355 degrees. */
  lemma WrapDegreesBelowZero()
    ensures WrapDegrees(5.0 + -10.0) == 355.0
  {
  }
}
