// The client's MathHelper over real numbers: angle reduction by whole turns,
// the inclusive and strict range tests, unclamped interpolation, and the
// "clamp" that returns its value untouched.

module MathHelper {
  /** `d` is a whole number of turns of 360 degrees. */
  predicate WholeTurns(d: real)
  {
    (d / 360.0).Floor as real == d / 360.0
  }

  lemma FloorShift(x: real, k: int)
    ensures (x + k as real).Floor == x.Floor + k
  {
  }

  lemma WholeTurnsStep(d: real, k: int)
    requires WholeTurns(d)
    ensures WholeTurns(d + 360.0 * k as real)
  {
    var x := d / 360.0;
    assert (d + 360.0 * k as real) / 360.0 == x + k as real;
    FloorShift(x, k);
  }

  // ---------------------------------------------------------------------------
  // NormalizeAngle: into [-180, 180]
  // ---------------------------------------------------------------------------

  /** `while (angle > 180f) angle -= 360f;` */
  function TurnDownTo180(angle: real): (r: real)
    ensures r <= 180.0 && WholeTurns(r - angle)
    ensures angle > 180.0 ==> r > -180.0
    ensures angle <= 180.0 ==> r == angle
    decreases if angle > 180.0 then (angle - 180.0).Floor + 1 else 0
  {
    if angle > 180.0 then
      var r := TurnDownTo180(angle - 360.0);
      WholeTurnsStep(r - (angle - 360.0), -1);
      r
    else angle
  }

  /** `while (angle < -180f) angle += 360f;` */
  function TurnUpTo180(angle: real): (r: real)
    ensures r >= -180.0 && WholeTurns(r - angle)
    ensures angle < -180.0 ==> r < 180.0
    ensures angle >= -180.0 ==> r == angle
    decreases if angle < -180.0 then (-180.0 - angle).Floor + 1 else 0
  {
    if angle < -180.0 then
      var r := TurnUpTo180(angle + 360.0);
      WholeTurnsStep(r - (angle + 360.0), 1);
      r
    else angle
  }

  function NormalizeAngleOf(angle: real): real
  {
    TurnUpTo180(TurnDownTo180(angle))
  }

  /**
   * NormalizeAngle lands in [-180, 180], moves the angle by whole turns
   * only, leaves angles already in range alone, and is idempotent.
   */
  lemma NormalizeAngleMeaning(angle: real)
    ensures -180.0 <= NormalizeAngleOf(angle) <= 180.0
    ensures WholeTurns(NormalizeAngleOf(angle) - angle)
    ensures -180.0 <= angle <= 180.0 ==> NormalizeAngleOf(angle) == angle
    ensures NormalizeAngleOf(NormalizeAngleOf(angle)) == NormalizeAngleOf(angle)
  {
    var a := TurnDownTo180(angle);
    var r := TurnUpTo180(a);
    assert WholeTurns((r - a) + (a - angle)) by {
      var k := ((a - angle) / 360.0).Floor;
      assert a - angle == 360.0 * k as real;
      WholeTurnsStep(r - a, k);
    }
  }

  /** Both ends of the range are kept: 180 and -180 are fixed points, and 540 goes to 180. */
  lemma NormalizeAngleEnds()
    ensures NormalizeAngleOf(180.0) == 180.0 && NormalizeAngleOf(-180.0) == -180.0
    ensures NormalizeAngleOf(540.0) == 180.0
  {
    assert TurnDownTo180(540.0) == TurnDownTo180(180.0);
  }

  method NormalizeAngle(angle: real) returns (r: real)
    ensures r == NormalizeAngleOf(angle)
  {
    r := angle;
    while r > 180.0
      invariant TurnDownTo180(r) == TurnDownTo180(angle)
      decreases if r > 180.0 then (r - 180.0).Floor + 1 else 0
    {
      r := r - 360.0;
    }
    while r < -180.0
      invariant TurnUpTo180(r) == NormalizeAngleOf(angle)
      decreases if r < -180.0 then (-180.0 - r).Floor + 1 else 0
    {
      r := r + 360.0;
    }
  }

  // ---------------------------------------------------------------------------
  // NormalizeAnglePositive: into [0, 360)
  // ---------------------------------------------------------------------------

  /** `while (angle < 0f) angle += 360f;` */
  function TurnUpToZero(angle: real): (r: real)
    ensures r >= 0.0 && WholeTurns(r - angle)
    ensures angle < 0.0 ==> r < 360.0
    ensures angle >= 0.0 ==> r == angle
    decreases if angle < 0.0 then (-angle).Floor + 1 else 0
  {
    if angle < 0.0 then
      var r := TurnUpToZero(angle + 360.0);
      WholeTurnsStep(r - (angle + 360.0), 1);
      r
    else angle
  }

  /** `while (angle >= 360f) angle -= 360f;` */
  function TurnDownBelow360(angle: real): (r: real)
    ensures r < 360.0 && WholeTurns(r - angle)
    ensures angle >= 360.0 ==> r >= 0.0
    ensures angle < 360.0 ==> r == angle
    decreases if angle >= 360.0 then (angle - 360.0).Floor + 1 else 0
  {
    if angle >= 360.0 then
      var r := TurnDownBelow360(angle - 360.0);
      WholeTurnsStep(r - (angle - 360.0), -1);
      r
    else angle
  }

  function NormalizeAnglePositiveOf(angle: real): real
  {
    TurnDownBelow360(TurnUpToZero(angle))
  }

  /**
   * NormalizeAnglePositive lands in [0, 360), moves the angle by whole turns
   * only, and applying it again changes nothing.
   */
  lemma NormalizeAnglePositiveMeaning(angle: real)
    ensures 0.0 <= NormalizeAnglePositiveOf(angle) < 360.0
    ensures WholeTurns(NormalizeAnglePositiveOf(angle) - angle)
    ensures 0.0 <= angle < 360.0 ==> NormalizeAnglePositiveOf(angle) == angle
    ensures NormalizeAnglePositiveOf(NormalizeAnglePositiveOf(angle)) == NormalizeAnglePositiveOf(angle)
  {
    var a := TurnUpToZero(angle);
    var r := TurnDownBelow360(a);
    assert WholeTurns((r - a) + (a - angle)) by {
      var k := ((a - angle) / 360.0).Floor;
      assert a - angle == 360.0 * k as real;
      WholeTurnsStep(r - a, k);
    }
  }

  /** In [0, 360) an angle has one representative: two angles a whole number of turns apart normalise alike. */
  lemma NormalizeAnglePositiveUnique(x: real, y: real)
    requires WholeTurns(x - y)
    ensures NormalizeAnglePositiveOf(x) == NormalizeAnglePositiveOf(y)
  {
    NormalizeAnglePositiveMeaning(x);
    NormalizeAnglePositiveMeaning(y);
    var rx, ry := NormalizeAnglePositiveOf(x), NormalizeAnglePositiveOf(y);
    var kx := ((rx - x) / 360.0).Floor;
    var ky := ((ry - y) / 360.0).Floor;
    var kd := ((x - y) / 360.0).Floor;
    assert rx - ry == 360.0 * (kx + kd - ky) as real;
    assert -1 < kx + kd - ky < 1;
  }

  method NormalizeAnglePositive(angle: real) returns (r: real)
    ensures r == NormalizeAnglePositiveOf(angle)
  {
    r := angle;
    while r < 0.0
      invariant TurnUpToZero(r) == TurnUpToZero(angle)
      decreases if r < 0.0 then (-r).Floor + 1 else 0
    {
      r := r + 360.0;
    }
    while r >= 360.0
      invariant TurnDownBelow360(r) == NormalizeAnglePositiveOf(angle)
      decreases if r >= 360.0 then (r - 360.0).Floor + 1 else 0
    {
      r := r - 360.0;
    }
  }

  // ---------------------------------------------------------------------------
  // Ranges, interpolation, the unclamped clamp
  // ---------------------------------------------------------------------------

  /** `value >= min && value <= max`. */
  predicate InRange(value: real, min: real, max: real)
  {
    value >= min && value <= max
  }

  /** `value > min && value < max`. */
  predicate InRangeExclusive(value: real, min: real, max: real)
  {
    value > min && value < max
  }

  /** The strict test implies the inclusive one, and they differ exactly at the bounds. */
  lemma RangeTestsAgree(value: real, min: real, max: real)
    ensures InRangeExclusive(value, min, max) ==> InRange(value, min, max)
    ensures InRange(value, min, max) && !InRangeExclusive(value, min, max) <==>
            InRange(value, min, max) && (value == min || value == max)
  {
  }

  /** `a + (b - a) * t`, with t not clamped to [0, 1]. */
  function LerpUnclamped(a: real, b: real, t: real): (r: real)
    ensures t == 0.0 ==> r == a
    ensures t == 1.0 ==> r == b
  {
    a + (b - a) * t
  }

  /** Interpolation is affine in t: each step of t moves the result by the same b - a. */
  lemma LerpUnclampedAffine(a: real, b: real, t: real)
    ensures LerpUnclamped(a, b, t + 1.0) - LerpUnclamped(a, b, t) == b - a
    ensures LerpUnclamped(a, b, 2.0) == 2.0 * b - a
  {
  }

  lemma ProductPositive(x: real, y: real)
    requires x > 0.0 && y > 0.0
    ensures x * y > 0.0
  {
  }

  /** t is not clamped: beyond 1 the result passes b, below 0 it passes a. */
  lemma LerpUnclampedExtrapolates(a: real, b: real, t: real)
    requires a < b
    ensures t > 1.0 ==> LerpUnclamped(a, b, t) > b
    ensures t < 0.0 ==> LerpUnclamped(a, b, t) < a
  {
    var d := b - a;
    if t > 1.0 {
      ProductPositive(d, t - 1.0);
      assert LerpUnclamped(a, b, t) == b + d * (t - 1.0);
    }
    if t < 0.0 {
      ProductPositive(d, -t);
      assert LerpUnclamped(a, b, t) == a - d * (-t);
    }
  }

  /** ClampUnclamped: the value, whatever the bounds. */
  function ClampUnclamped(value: real, min: real, max: real): (r: real)
    ensures r == value
  {
    value
  }

  /** ClampUnclamped does not clamp: a value outside the range stays outside. */
  lemma ClampUnclampedIgnoresBounds(value: real, min: real, max: real)
    ensures InRange(ClampUnclamped(value, min, max), min, max) <==> InRange(value, min, max)
  {
  }
}
