/**
 * The geometry kernel of the WebGL renderer: quadratic Bezier sampling, the
 * control point of a curved link, and direction vectors.
 *
 * Coordinates are reals.  `Math.sqrt` is not modelled: wherever the source
 * takes a magnitude, the caller supplies a number `mag` together with the
 * hypothesis `IsMagnitude(v, mag)`, which pins it down uniquely
 * (`MagnitudeUnique`).
 */
module Geometry {

  datatype Point = Point(x: real, y: real)

  /** The three corners of a filled triangle: its apex and the two ends of its base. */
  datatype Triangle = Triangle(apex: Point, right: Point, left: Point)

  function Sub(a: Point, b: Point): Point
  {
    Point(a.x - b.x, a.y - b.y)
  }

  function Dot(a: Point, b: Point): real
  {
    a.x * b.x + a.y * b.y
  }

  /** `m` is the Euclidean length of `v`: the value `magnitude(v)` returns. */
  predicate IsMagnitude(v: Point, m: real)
  {
    m >= 0.0 && m * m == v.x * v.x + v.y * v.y
  }

  /** The hypothesis `IsMagnitude` determines the magnitude: it is the square root. */
  lemma {:induction false} MagnitudeUnique(v: Point, m1: real, m2: real)
    requires IsMagnitude(v, m1) && IsMagnitude(v, m2)
    ensures m1 == m2
  {
    if m1 < m2 {
      SquareMonotone(m1, m2);
    } else if m2 < m1 {
      SquareMonotone(m2, m1);
    }
  }

  lemma {:induction false} SquareMonotone(a: real, b: real)
    requires 0.0 <= a < b
    ensures a * a < b * b
  {
    var d := b - a;
    assert b * b == a * a + 2.0 * a * d + d * d;
    assert d * d > 0.0;
    assert a * d >= 0.0;
  }

  /**
   * sampleBezier(P0, P1, P2, t): the point of the quadratic Bezier curve with
   * control points P0, P1, P2 at parameter `t`.
   */
  function SampleBezier(p0: Point, p1: Point, p2: Point, t: real): (r: Point)
    ensures t == 0.0 ==> r == p0
    ensures t == 1.0 ==> r == p2
  {
    var dt := 1.0 - t;
    var dtSq := dt * dt;
    var tSq := t * t;
    Point(dtSq * p0.x + 2.0 * dt * t * p1.x + tSq * p2.x,
          dtSq * p0.y + 2.0 * dt * t * p1.y + tSq * p2.y)
  }

  /** The three Bernstein weights of a quadratic curve sum to one. */
  lemma {:induction false} BernsteinWeightsSumToOne(t: real)
    ensures (1.0 - t) * (1.0 - t) + 2.0 * (1.0 - t) * t + t * t == 1.0
  {
  }

  /** A degenerate curve whose three control points coincide is that point everywhere. */
  lemma {:induction false} BezierOfOnePoint(p: Point, t: real)
    ensures SampleBezier(p, p, p, t) == p
  {
    var dt := 1.0 - t;
    BernsteinWeightsSumToOne(t);
    calc {
      dt * dt * p.x + 2.0 * dt * t * p.x + t * t * p.x;
      (dt * dt + 2.0 * dt * t + t * t) * p.x;
      p.x;
    }
    calc {
      dt * dt * p.y + 2.0 * dt * t * p.y + t * t * p.y;
      (dt * dt + 2.0 * dt * t + t * t) * p.y;
      p.y;
    }
  }

  /** Math.ceil(level / 2) for an integer level; Dafny's `/` by 2 rounds down. */
  function Multiplier(level: int): (r: int)
    ensures 2 * r - 1 <= level <= 2 * r
  {
    (level + 1) / 2
  }

  /**
   * The sign applied to the offset: `level % 2 == 1` in JavaScript takes the
   * remainder with the sign of the dividend, so it holds exactly for positive
   * odd levels.
   */
  function Side(level: int): (r: real)
    ensures r == 1.0 || r == -1.0
    ensures r == -1.0 <==> level > 0 && level % 2 == 1
  {
    if level > 0 && level % 2 == 1 then -1.0 else 1.0
  }

  function Mid(a: Point, b: Point): Point
  {
    Point((a.x + b.x) / 2.0, (a.y + b.y) / 2.0)
  }

  /**
   * The control point in closed form: the chord midpoint moved along the
   * chord's normal `(-(dy), dx)` by `curviness * ceil(level/2)`, on the side
   * chosen by the parity of `level`.  The magnitude cancels out.
   */
  function ControlPoint(start: Point, end: Point, level: int, curviness: real): (r: Point)
    ensures Dot(Sub(r, Mid(start, end)), Sub(end, start)) == 0.0
    ensures level == 0 ==> r == Mid(start, end)
  {
    var d := Sub(end, start);
    var k := curviness * (Multiplier(level) as real) * Side(level);
    var mid := Mid(start, end);
    assert Dot(Point(-(d.y) * k, d.x * k), d) == 0.0;
    Point(mid.x - d.y * k, mid.y + d.x * k)
  }

  /**
   * computeControlPoint as written: normalise the chord by its magnitude,
   * scale the offset by the same magnitude, negate it for positive odd
   * levels and move the midpoint along the normal.  It agrees with the
   * closed form whenever the chord has a non-zero length.
   */
  function ComputeControlPoint(start: Point, end: Point, level: int, curviness: real, mag: real): (r: Point)
    requires IsMagnitude(Sub(end, start), mag) && mag > 0.0
    ensures r == ControlPoint(start, end, level, curviness)
  {
    var dir := Point((end.x - start.x) / mag, (end.y - start.y) / mag);
    var mid := Mid(start, end);
    var multiplier := Multiplier(level) as real;
    var offset0 := mag * curviness * multiplier;
    var offset := if level > 0 && level % 2 == 1 then offset0 * -1.0 else offset0;
    assert dir.y * offset == (end.y - start.y) * (curviness * multiplier * Side(level));
    assert dir.x * offset == (end.x - start.x) * (curviness * multiplier * Side(level));
    Point(mid.x - dir.y * offset, mid.y + dir.x * offset)
  }

  /** Levels 1 and 2 bend to opposite sides of the chord by the same amount. */
  lemma LevelsOneAndTwoMirror(start: Point, end: Point, curviness: real)
    ensures var mid := Mid(start, end);
      Sub(ControlPoint(start, end, 1, curviness), mid) == Sub(mid, ControlPoint(start, end, 2, curviness))
  {
  }

  /** Level 3 bends to the side of level 1, twice as far. */
  lemma LevelThreeDoublesLevelOne(start: Point, end: Point, curviness: real)
    ensures var mid := Mid(start, end);
      var d1 := Sub(ControlPoint(start, end, 1, curviness), mid);
      Sub(ControlPoint(start, end, 3, curviness), mid) == Point(2.0 * d1.x, 2.0 * d1.y)
  {
    var d := Sub(end, start);
    assert Multiplier(1) == 1 && Multiplier(3) == 2 && Side(1) == Side(3) == -1.0;
    assert -(d.y) * (curviness * 2.0 * -1.0) == 2.0 * (-(d.y) * (curviness * 1.0 * -1.0));
    assert d.x * (curviness * 2.0 * -1.0) == 2.0 * (d.x * (curviness * 1.0 * -1.0));
  }

  lemma {:induction false} ScaledSquare(u: real, m: real, d: real)
    requires u * m == d
    ensures (u * u) * (m * m) == d * d
  {
  }

  lemma {:induction false} PositiveFactor(a: real, m: real)
    requires m > 0.0 && a * m == 0.0
    ensures a == 0.0
  {
  }

  lemma {:induction false} PositiveSquareFactor(a: real, mag: real)
    requires mag > 0.0 && a * (mag * mag) == 0.0
    ensures a == 0.0
  {
    assert (a * mag) * mag == a * (mag * mag);
    PositiveFactor(a * mag, mag);
    PositiveFactor(a, mag);
  }

  /** A vector scaled down by the magnitude of `(dx, dy)` to `(dx, dy)`'s direction has length one. */
  lemma {:induction false} UnitLength(ux: real, uy: real, mag: real, dx: real, dy: real)
    requires mag > 0.0 && ux * mag == dx && uy * mag == dy && mag * mag == dx * dx + dy * dy
    ensures ux * ux + uy * uy == 1.0
  {
    ScaledSquare(ux, mag, dx);
    ScaledSquare(uy, mag, dy);
    var p, q := ux * ux, uy * uy;
    assert (p + q - 1.0) * (mag * mag) == p * (mag * mag) + q * (mag * mag) - mag * mag;
    PositiveSquareFactor(p + q - 1.0, mag);
  }

  /**
   * normalized_direction(from, to): the chord divided by its magnitude, a
   * unit vector pointing from `from` to `to`.
   */
  function NormalizedDirection(from: Point, to: Point, mag: real): (r: Point)
    requires IsMagnitude(Sub(to, from), mag) && mag > 0.0
    ensures r.x * r.x + r.y * r.y == 1.0
    ensures r.x * mag == to.x - from.x && r.y * mag == to.y - from.y
  {
    var d := Sub(to, from);
    var r := Point(d.x / mag, d.y / mag);
    UnitLength(r.x, r.y, mag, d.x, d.y);
    r
  }

  function Cross(a: Point, b: Point): real
  {
    a.x * b.y - a.y * b.x
  }

  /** A unit vector scaled by `k` has squared length `k * k`. */
  lemma {:induction false} ScaledUnitLength(ux: real, uy: real, k: real)
    requires ux * ux + uy * uy == 1.0
    ensures (ux * k) * (ux * k) + (uy * k) * (uy * k) == k * k
  {
    ScaledSquare(ux, k, ux * k);
    ScaledSquare(uy, k, uy * k);
    assert (ux * ux) * (k * k) + (uy * uy) * (k * k) == (ux * ux + uy * uy) * (k * k);
  }

  /**
   * The point `dist` short of `to` on the way from `from`: `to - dir * dist`
   * with `dir` the normalised direction from `from` to `to`.  It lies on the
   * line through both points, at distance `|dist|` from `to`, on the side of
   * `from` when `dist` is positive.
   */
  function PullBack(from: Point, to: Point, dist: real, mag: real): (r: Point)
    requires IsMagnitude(Sub(to, from), mag) && mag > 0.0
    ensures Cross(Sub(to, from), Sub(to, r)) == 0.0
    ensures Dot(Sub(to, r), Sub(to, r)) == dist * dist
    ensures Dot(Sub(to, r), Sub(to, from)) == dist * mag
  {
    var dir := NormalizedDirection(from, to, mag);
    var r := Point(to.x - dir.x * dist, to.y - dir.y * dist);
    PullBackFacts(from, to, dist, mag, dir, r);
    r
  }

  lemma {:induction false} PullBackFacts(from: Point, to: Point, dist: real, mag: real, dir: Point, r: Point)
    requires dir.x * dir.x + dir.y * dir.y == 1.0
    requires dir.x * mag == to.x - from.x && dir.y * mag == to.y - from.y
    requires r == Point(to.x - dir.x * dist, to.y - dir.y * dist)
    ensures Cross(Sub(to, from), Sub(to, r)) == 0.0
    ensures Dot(Sub(to, r), Sub(to, r)) == dist * dist
    ensures Dot(Sub(to, r), Sub(to, from)) == dist * mag
  {
    var v, d := Sub(to, r), Sub(to, from);
    assert v == Point(dir.x * dist, dir.y * dist);
    ScaledUnitLength(dir.x, dir.y, dist);
    PullBackAlongChord(dir.x, dir.y, mag, d.x, d.y, dist);
    assert Cross(d, v) == d.x * (dir.y * dist) - d.y * (dir.x * dist);
    assert Dot(v, v) == (dir.x * dist) * (dir.x * dist) + (dir.y * dist) * (dir.y * dist);
    assert Dot(v, d) == (dir.x * dist) * d.x + (dir.y * dist) * d.y;
  }

  lemma {:induction false} PullBackAlongChord(ux: real, uy: real, mag: real, dx: real, dy: real, k: real)
    requires ux * mag == dx && uy * mag == dy && ux * ux + uy * uy == 1.0
    ensures dx * (uy * k) - dy * (ux * k) == 0.0
    ensures (ux * k) * dx + (uy * k) * dy == k * mag
  {
    assert dx * (uy * k) == (ux * mag) * (uy * k);
    assert dy * (ux * k) == (uy * mag) * (ux * k);
    assert (ux * k) * dx + (uy * k) * dy == (ux * ux + uy * uy) * (k * mag);
  }
}
