/**
 * Plane geometry used by the cursor-follower canvas: points, Euclidean distance
 * and the point reached from an anchor at a given length and angle.
 *
 * The canvas code calls Math.cos, Math.sin, Math.atan2 and Math.sqrt. Their
 * floating-point values are not modelled: they are carried as uninterpreted
 * functions in a `Numerics` value that every geometric operation receives.
 */
module Geometry {

  /** JavaScript's Math.PI. */
  const Pi: real := 3.141592653589793

  datatype Point = Point(x: real, y: real)

  /** Math.cos, Math.sin, Math.atan2(y, x) and Math.sqrt, as opaque functions over the reals. */
  datatype Numerics = Numerics(
    cos: real -> real,
    sin: real -> real,
    atan2: (real, real) -> real,
    sqrt: real -> real)

  /** Euclidean distance, `Math.sqrt(Math.pow(x2 - x1, 2) + Math.pow(y2 - y1, 2))`. */
  function Distance(m: Numerics, p: Point, q: Point): real {
    m.sqrt((q.x - p.x) * (q.x - p.x) + (q.y - p.y) * (q.y - p.y))
  }

  /** The point `length` away from `anchor` in direction `angle`. */
  function Project(m: Numerics, anchor: Point, length: real, angle: real): Point {
    Point(anchor.x + length * m.cos(angle), anchor.y + length * m.sin(angle))
  }

  /** Turning by half a circle negates cosine and sine at `a`: the one trigonometric fact the chain needs. */
  predicate PiShift(m: Numerics, a: real) {
    m.cos(a - Pi) == -m.cos(a) && m.sin(a - Pi) == -m.sin(a)
  }

  /** `PiShift` at every angle. */
  ghost predicate PiShifted(m: Numerics) {
    forall a :: PiShift(m, a)
  }

  /** Sine takes values in [-1, 1] everywhere. */
  ghost predicate SineBounded(m: Numerics) {
    forall a :: -1.0 <= m.sin(a) <= 1.0
  }

  /** Projecting from a point and then back along the reversed angle returns to the point. */
  lemma ProjectBack(m: Numerics, p: Point, length: real, a: real)
    requires PiShift(m, a)
    ensures Project(m, Project(m, p, length, a - Pi), length, a) == p
  {
    var q := Project(m, p, length, a - Pi);
    assert q.x == p.x - length * m.cos(a);
    assert q.y == p.y - length * m.sin(a);
  }
}
