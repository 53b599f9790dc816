/** The parts of glam's `DVec2` the bodies use, over real numbers, and the
    floating-point geometry the model does not interpret. */
module Geometry {
  import opened Common

  datatype Vec2 = Vec2(x: real, y: real)

  const Zero: Vec2 := Vec2(0.0, 0.0)

  /** `f64::MAX`, the largest finite double, as an exact number. */
  const F64Max: real := 179769313486231570814527423731704356798070567525844996598917476803157260780028538760589558632766878171540458953514382464234321326889464182768467546703537516986049910576551282076245490090389328944075868508455133942304583236903222948165808559332123348274797826204144723168738177180919299881250404026184124858368.0

  /** `DVec2::MIN`. */
  const VecMin: Vec2 := Vec2(-F64Max, -F64Max)

  function Add(a: Vec2, b: Vec2): Vec2
  {
    Vec2(a.x + b.x, a.y + b.y)
  }

  function Scale(a: Vec2, k: real): Vec2
  {
    Vec2(a.x * k, a.y * k)
  }

  function Div(a: Vec2, k: real): Vec2
    requires k != 0.0
  {
    Vec2(a.x / k, a.y / k)
  }

  function Min(a: real, b: real): real
  {
    if a <= b then a else b
  }

  function Max(a: real, b: real): real
  {
    if a >= b then a else b
  }

  /** `f64::clamp` component as glam computes it: `max(lo)` then `min(hi)`. */
  function ClampScalar(v: real, lo: real, hi: real): (r: real)
    ensures r <= hi
    ensures lo <= hi ==> lo <= r
    ensures lo <= v <= hi ==> r == v
    ensures v > hi ==> r == hi
    ensures v < lo && lo <= hi ==> r == lo
  {
    Min(Max(v, lo), hi)
  }

  /** `DVec2::clamp(lo, hi)`, componentwise. */
  function Clamp(v: Vec2, lo: Vec2, hi: Vec2): (r: Vec2)
    ensures r.x <= hi.x && r.y <= hi.y
    ensures lo.x <= hi.x && lo.y <= hi.y ==> lo.x <= r.x && lo.y <= r.y
    ensures lo.x <= v.x <= hi.x && lo.y <= v.y <= hi.y ==> r == v
  {
    Vec2(ClampScalar(v.x, lo.x, hi.x), ClampScalar(v.y, lo.y, hi.y))
  }

  function SquaredDistance(a: Vec2, b: Vec2): real
  {
    (a.x - b.x) * (a.x - b.x) + (a.y - b.y) * (a.y - b.y)
  }

  /** `a.distance(b) <= bound`, decided without a square root: the distance
      is never negative, so it is at most `bound` iff `bound` is not negative
      and the squared distance is at most `bound * bound`. */
  predicate WithinOrAt(a: Vec2, b: Vec2, bound: real)
  {
    0.0 <= bound && SquaredDistance(a, b) <= bound * bound
  }

  /** `a.distance(b) < bound`, decided the same way. */
  predicate Within(a: Vec2, b: Vec2, bound: real)
  {
    0.0 < bound && SquaredDistance(a, b) < bound * bound
  }

  /** Every point lies strictly within any positive distance of itself. */
  lemma SelfWithin(p: Vec2, bound: real)
    requires 0.0 < bound
    ensures Within(p, p, bound)
  {
    calc {
      SquaredDistance(p, p);
      ==
      0.0;
      <
      bound * bound;
    }
  }

  lemma WithinOrAtSymmetric(a: Vec2, b: Vec2, bound: real)
    ensures WithinOrAt(a, b, bound) == WithinOrAt(b, a, bound)
  {
    assert SquaredDistance(a, b) == SquaredDistance(b, a);
  }

  /** An `f64` angle, held as its IEEE-754 bit pattern: the model only
      copies and decodes angles, it never computes with them. */
  type Angle = u64

  /** The floating-point geometry that the model leaves uninterpreted.
      `fromAngle` is `DVec2::from_angle`; `inverseSquare(from, toward, s)`
      is `(toward - from).normalize() * (s / from.distance(toward)^2)`. */
  datatype Physics = Physics(fromAngle: Angle -> Vec2, inverseSquare: (Vec2, Vec2, real) -> Vec2)
}
