/**
 * The numeric helpers of the game loop (main.py): clamping, easing,
 * interpolation, the frame-rate compensation factor and the projection
 * scale. Python floats are modelled as reals; Python 2 `int()` of a float
 * truncates toward zero and Python 2 `round()` rounds half away from zero.
 */
module Arith {

  function Max(a: real, b: real): real { if a >= b then a else b }

  function Min(a: real, b: real): real { if a <= b then a else b }

  /** `increase`: add an increment and keep the result inside [0, maximum]. */
  function Increase(start: real, increment: real, maximum: real): (r: real)
    ensures maximum >= 0.0 ==> 0.0 <= r <= maximum
    ensures 0.0 <= start + increment <= maximum ==> r == start + increment
    ensures 0.0 <= start <= maximum && increment >= 0.0 ==> start <= r
  {
    Max(0.0, Min(maximum, start + increment))
  }

  /** `accelerate`: one explicit Euler step of a rate over dt. */
  function Accelerate(value: real, rate: real, dt: real): real
  {
    value + rate * dt
  }

  /** `limit`: clamp a value into [minimum, maximum]. */
  function Limit(value: real, minimum: real, maximum: real): (r: real)
    ensures minimum <= maximum ==> minimum <= r <= maximum
    ensures minimum <= value <= maximum ==> r == value
    ensures value > maximum >= minimum ==> r == maximum
    ensures value < minimum ==> r == minimum
  {
    Max(minimum, Min(value, maximum))
  }

  /** `interpolate`: the point a fraction `percent` of the way from a to b. */
  function Interpolate(a: real, b: real, percent: real): (r: real)
    ensures percent == 0.0 ==> r == a
    ensures percent == 1.0 ==> r == b
    ensures 0.0 <= percent <= 1.0 && a <= b ==> a <= r <= b
  {
    if 0.0 <= percent <= 1.0 && a <= b then MulMono(0.0, b - a, percent, 1.0); MulMono(0.0, b - a, 0.0, percent); a + (b - a) * percent
    else a + (b - a) * percent
  }

  /** Python's float `%`: the result takes the sign of the divisor. */
  function PyMod(n: real, total: real): (r: real)
    requires total != 0.0
    ensures total > 0.0 ==> 0.0 <= r < total
  {
    if total > 0.0 then FloorModBounds(n, total); n - total * ((n / total).Floor as real)
    else n - total * ((n / total).Floor as real)
  }

  lemma FloorModBounds(n: real, total: real)
    requires total > 0.0
    ensures 0.0 <= n - total * ((n / total).Floor as real) < total
  {
    var q := n / total;
    var f := q.Floor as real;
    var d, e := f - (q - 1.0), q - f;
    assert d > 0.0 && e >= 0.0;
    assert total * d > 0.0 && total * e >= 0.0;
    assert total * q == n;
    assert total * d == total * f - n + total;
    assert total * e == n - total * f;
  }

  /** `percent_remaining`: how far into its current stretch of `total` the value n lies. */
  function PercentRemaining(n: real, total: real): (r: real)
    requires total != 0.0
    ensures total > 0.0 ==> 0.0 <= r < 1.0
  {
    if total > 0.0 then FractionBounds(PyMod(n, total), total); PyMod(n, total) / total
    else PyMod(n, total) / total
  }

  lemma FractionBounds(m: real, total: real)
    requires 0.0 <= m < total
    ensures 0.0 <= m / total < 1.0
  {
  }

  /** `ease_in`: quadratic ease from a towards b. */
  function EaseIn(a: real, b: real, percent: real): real
  {
    a + (b - a) * (percent * percent)
  }

  /** `ease_out`: quadratic ease that starts fast and settles on b. */
  function EaseOut(a: real, b: real, percent: real): real
  {
    a + (b - a) * (1.0 - (1.0 - percent) * (1.0 - percent))
  }

  /**
   * `ease_in_out`: cosine ease. `math.cos` is foreign, so its values arrive
   * as the function `cos`; 3.14159 is the source's own constant for pi.
   */
  function EaseInOut(a: real, b: real, percent: real, cos: real -> real): real
  {
    a + (b - a) * ((-1.0 * cos(percent * 3.14159) / 2.0) + 0.5)
  }

  lemma {:induction false} EaseBoundaries(a: real, b: real)
    ensures EaseIn(a, b, 0.0) == a && EaseIn(a, b, 1.0) == b
    ensures EaseOut(a, b, 0.0) == a && EaseOut(a, b, 1.0) == b
  {
  }

  /** Both quadratic eases stay between their end points and grow with the fraction. */
  lemma EaseMonotone(a: real, b: real, p: real, q: real)
    requires a <= b && 0.0 <= p <= q <= 1.0
    ensures a <= EaseIn(a, b, p) <= EaseIn(a, b, q) <= b
    ensures a <= EaseOut(a, b, p) <= EaseOut(a, b, q) <= b
  {
    assert p * p <= q * q <= 1.0 by { MulMono(p, q, p, q); MulMono(q, 1.0, q, 1.0); }
    var u, v := 1.0 - q, 1.0 - p;
    assert 0.0 <= u * u <= v * v <= 1.0 by { MulMono(u, v, u, v); MulMono(v, 1.0, v, 1.0); }
    MulMono(b - a, b - a, p * p, q * q);
    MulMono(b - a, b - a, q * q, 1.0);
    MulMono(b - a, b - a, 1.0 - v * v, 1.0 - u * u);
    MulMono(b - a, b - a, 1.0 - u * u, 1.0);
    MulMono(0.0, b - a, 0.0, p * p);
    MulMono(0.0, b - a, 0.0, 1.0 - v * v);
  }

  lemma MulMono(a: real, b: real, c: real, d: real)
    requires 0.0 <= a <= b && 0.0 <= c <= d
    ensures a * c <= b * d
  {
    assert a * c <= a * d;
    assert a * d <= b * d;
  }

  /** A cosine ease between equal end points is constant, whatever the cosine. */
  lemma EaseInOutFlat(a: real, percent: real, cos: real -> real)
    ensures EaseInOut(a, a, percent, cos) == a
  {
  }

  /** Python 2 `int()` of a float: truncation toward zero. */
  function Trunc(r: real): (t: int)
    ensures (t as real) <= r < (t as real) + 1.0 || (t as real) - 1.0 < r <= (t as real)
    ensures r >= 0.0 ==> 0 <= t && (t as real) <= r
    ensures r <= 0.0 ==> t <= 0 && r <= (t as real)
  {
    if r >= 0.0 then r.Floor else -((-r).Floor)
  }

  /** Python 2 `round()`: to the nearest integer, halves away from zero. */
  function RoundHalfAway(r: real): (t: int)
    ensures -0.5 <= (t as real) - r <= 0.5
    ensures (t as real) - r == 0.5 ==> r > 0.0
    ensures (t as real) - r == -0.5 ==> r < 0.0
  {
    if r >= 0.0 then (r + 0.5).Floor else -((-r + 0.5).Floor)
  }

  /**
   * The frame-time compensation `max(1.0, 1.0 + (60 - fps) / 60.0)` applied
   * to per-tick rates: exactly 1 at 60 frames per second or faster.
   */
  function FrameFactor(fps: real): (k: real)
    ensures k >= 1.0
    ensures k == 1.0 <==> fps >= 60.0
    ensures fps < 60.0 ==> k == 2.0 - fps / 60.0
  {
    Max(1.0, 1.0 + (60.0 - fps) / 60.0)
  }

  /** The scale of `project`: camera depth over the guarded camera-relative distance. */
  function ProjectScale(cameraDepth: real, relativeZ: real): (s: real)
    ensures cameraDepth > 0.0 ==> 0.0 < s <= cameraDepth
    ensures relativeZ <= 0.0 ==> s == cameraDepth
  {
    cameraDepth / Max(1.0, relativeZ + 1.0)
  }

  /** Farther points never project larger than nearer ones. */
  lemma ProjectScaleShrinks(cameraDepth: real, z1: real, z2: real)
    requires cameraDepth > 0.0 && z1 <= z2
    ensures ProjectScale(cameraDepth, z2) <= ProjectScale(cameraDepth, z1)
  {
    var d1, d2 := Max(1.0, z1 + 1.0), Max(1.0, z2 + 1.0);
    assert 1.0 <= d1 <= d2;
    var s1, s2 := cameraDepth / d1, cameraDepth / d2;
    assert s1 * d1 == cameraDepth && s2 * d2 == cameraDepth;
    if s2 > s1 {
      assert s2 * d1 > s1 * d1;
      assert s2 * d2 >= s2 * d1;
    }
  }
}
