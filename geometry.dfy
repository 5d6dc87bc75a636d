/** Plane geometry shared by the strategy, role, vision and visualization
    models: field points and pose arrays in millimetres, squared distances,
    and the Euclidean norm, which the model receives as a function that is
    exact on the reals (it stands for numpy's `linalg.norm`). */
module Geometry {

  datatype Option<+T> = None | Some(value: T)

  /** A position on the field plane, in millimetres. */
  datatype Point = Point(x: real, y: real)

  /** A pose array as the strategy passes it around: x, y and then `rest`,
      so the array has length 2 + |rest|. A robot position is [x, y, w];
      a point the planner produces is [x, y]; a normalised waypoint is
      [x, y, w] where w may be None, meaning "keep the current heading". */
  datatype Waypoint = Waypoint(x: real, y: real, rest: seq<Option<real>>)

  /** The [x, y, w] array of a robot position. */
  function Pose(x: real, y: real, w: real): Waypoint
  {
    Waypoint(x, y, [Some(w)])
  }

  /** The `[:2]` slice of a pose array. */
  function XY(p: Waypoint): Point
  {
    Point(p.x, p.y)
  }

  /** A pose array of length 2 or 3, the only lengths the strategy accepts. */
  predicate WellFormed(p: Waypoint)
  {
    |p.rest| <= 1
  }

  /** numpy's `.any()` on a pose array: some entry is nonzero (None is
      falsy). */
  predicate AnyNonzero(p: Waypoint)
  {
    p.x != 0.0 || p.y != 0.0 || exists i :: 0 <= i < |p.rest| && p.rest[i].Some? && p.rest[i].value != 0.0
  }

  /** `(a + b) / 2` on two field points. */
  function Midpoint(a: Point, b: Point): (m: Point)
    ensures m.x - a.x == b.x - m.x && m.y - a.y == b.y - m.y
  {
    Point((a.x + b.x) / 2.0, (a.y + b.y) / 2.0)
  }

  /** Python's `int()` on a float: truncation toward zero. */
  function Trunc(x: real): (n: int)
    ensures 0.0 <= x ==> n as real <= x < n as real + 1.0
    ensures x < 0.0 ==> n as real - 1.0 < x <= n as real
  {
    if 0.0 <= x then x.Floor else -((-x).Floor)
  }

  /** Truncation keeps the order of its arguments. */
  lemma TruncMonotone(a: real, b: real)
    requires a <= b
    ensures Trunc(a) <= Trunc(b)
  {
  }

  /** `numpy.clip(x, lo, hi)`. */
  function Clip(x: real, lo: real, hi: real): (r: real)
    requires lo <= hi
    ensures lo <= r <= hi
    ensures lo <= x <= hi ==> r == x
    ensures x < lo ==> r == lo
    ensures hi < x ==> r == hi
  {
    if x < lo then lo else if hi < x then hi else x
  }

  /** The identity; a square is written `r * Copy(r)` so that the solver
      keeps it as a product of two terms it can reason about. */
  function Copy(r: real): real
  {
    r
  }

  function Sq(r: real): real
  {
    r * Copy(r)
  }

  lemma ProductPositive(a: real, b: real)
    requires 0.0 < a && 0.0 < b
    ensures 0.0 < a * b
  {
  }

  lemma ProductNegated(a: real, b: real)
    ensures (-a) * (-b) == a * b
  {
  }

  lemma SquareNegated(r: real)
    ensures Sq(-r) == Sq(r)
  {
    ProductNegated(r, Copy(r));
  }

  lemma SquarePositive(r: real)
    requires r != 0.0
    ensures 0.0 < Sq(r)
  {
    if r > 0.0 {
      ProductPositive(r, Copy(r));
    } else {
      ProductPositive(-r, -Copy(r));
      ProductNegated(r, Copy(r));
    }
  }

  lemma SquareNonNegative(r: real)
    ensures 0.0 <= Sq(r)
    ensures Sq(r) == 0.0 <==> r == 0.0
  {
    if r != 0.0 {
      SquarePositive(r);
    }
  }

  lemma ProductLess(a: real, b: real, c: real, d: real)
    requires 0.0 <= a < b && 0.0 <= c < d
    ensures a * c < b * d
  {
    assert a * c <= a * d;
    assert a * d < b * d;
  }

  lemma SquareProduct(a: real, b: real)
    ensures Sq(a * b) == Sq(a) * Sq(b)
  {
  }

  lemma QuotientTimesDivisor(a: real, c: real)
    requires c != 0.0
    ensures (a / c) * c == a
  {
  }

  lemma ProductOverFactor(a: real, c: real)
    requires c != 0.0
    ensures (a * c) / c == a
  {
  }

  lemma OneFactor(x: real, s: real)
    requires x * s == s && s != 0.0
    ensures x == 1.0
  {
  }

  lemma UnitFactor(x: real, y: real, s: real, a: real, b: real)
    requires a == x * s && b == y * s && s == a + b && s != 0.0
    ensures x + y == 1.0
  {
    FactorOut(x, y, s);
    OneFactor(x + y, s);
  }

  lemma FactorOut(a: real, b: real, c: real)
    ensures a * c + b * c == (a + b) * c
  {
  }

  lemma ScaledSquare(p: real, d: real, c: real)
    requires p == d * c
    ensures Sq(p) == Sq(d) * Sq(c)
  {
    SquareProduct(d, c);
  }

  /** A vector whose components are (ax, ay) / len, with len the length of
      (ax, ay), has unit length. */
  lemma ScaledUnit(dx: real, dy: real, ax: real, ay: real, len: real)
    requires len != 0.0 && dx * len == ax && dy * len == ay
    requires Sq(len) == Sq(ax) + Sq(ay)
    ensures Sq(dx) + Sq(dy) == 1.0
  {
    SquarePositive(len);
    ScaledSquare(ax, dx, len);
    ScaledSquare(ay, dy, len);
    UnitFactor(Sq(dx), Sq(dy), Sq(len), Sq(ax), Sq(ay));
  }

  /** Scaling a unit vector by c gives a vector whose squared length is
      c squared. */
  lemma ScaledLength(px: real, py: real, dx: real, dy: real, c: real)
    requires px == dx * c && py == dy * c && Sq(dx) + Sq(dy) == 1.0
    ensures Sq(px) + Sq(py) == Sq(c)
  {
    ScaledSquare(px, dx, c);
    ScaledSquare(py, dy, c);
    FactorOut(Sq(dx), Sq(dy), Sq(c));
  }

  /** Squaring is strictly increasing on the non-negative reals. */
  lemma SquareMonotone(a: real, b: real)
    requires 0.0 <= a < b
    ensures Sq(a) < Sq(b)
  {
    ProductLess(a, b, Copy(a), Copy(b));
  }

  /** A non-negative square root is unique. */
  lemma RootUnique(a: real, b: real)
    requires 0.0 <= a && 0.0 <= b && Sq(a) == Sq(b)
    ensures a == b
  {
    if a < b {
      SquareMonotone(a, b);
    } else if b < a {
      SquareMonotone(b, a);
    }
  }

  /** Comparing a length with a non-negative bound is the same as comparing
      the squares. */
  lemma RootLess(len: real, bound: real)
    requires 0.0 <= len && 0.0 <= bound
    ensures len < bound <==> Sq(len) < Sq(bound)
    ensures len <= bound <==> Sq(len) <= Sq(bound)
  {
    if len < bound {
      SquareMonotone(len, bound);
    } else if bound < len {
      SquareMonotone(bound, len);
    }
  }

  /** The squared distance from `a` to `b`, as the components of `b - a`. */
  function DistSq(a: Point, b: Point): (d: real)
    ensures d >= 0.0
    ensures d == 0.0 <==> a == b
  {
    SquareNonNegative(b.x - a.x);
    SquareNonNegative(b.y - a.y);
    Sq(b.x - a.x) + Sq(b.y - a.y)
  }

  lemma DistSqSymmetric(a: Point, b: Point)
    ensures DistSq(a, b) == DistSq(b, a)
  {
    SquareNegated(b.x - a.x);
    SquareNegated(b.y - a.y);
    assert -(b.x - a.x) == a.x - b.x && -(b.y - a.y) == a.y - b.y;
  }

  /** The Euclidean norm of a 2-D vector (dx, dy). */
  type Norm = (real, real) -> real

  /** `norm` is the exact Euclidean norm: non-negative, and its square is
      dx^2 + dy^2. */
  ghost predicate IsNorm(norm: Norm)
  {
    forall dx: real, dy: real :: 0.0 <= norm(dx, dy) && Sq(norm(dx, dy)) == Sq(dx) + Sq(dy)
  }

  /** The length of the segment from `s` to `g`, as numpy computes it from
      `g - s`. */
  function SegmentLength(norm: Norm, s: Point, g: Point): (len: real)
    requires IsNorm(norm)
    ensures 0.0 <= len && Sq(len) == DistSq(s, g)
    ensures len == 0.0 <==> s == g
  {
    var len := norm(g.x - s.x, g.y - s.y);
    SquareNonNegative(len);
    len
  }

  /** The norm of `g - s` equals the norm of `s - g`. */
  lemma SegmentLengthSymmetric(norm: Norm, s: Point, g: Point)
    requires IsNorm(norm)
    ensures SegmentLength(norm, s, g) == SegmentLength(norm, g, s)
  {
    DistSqSymmetric(s, g);
    RootUnique(SegmentLength(norm, s, g), SegmentLength(norm, g, s));
  }

  /** A segment is shorter than `bound` exactly when its squared length is
      below `bound` squared. */
  lemma SegmentShorter(norm: Norm, s: Point, g: Point, bound: real)
    requires IsNorm(norm) && 0.0 <= bound
    ensures SegmentLength(norm, s, g) < bound <==> DistSq(s, g) < Sq(bound)
  {
    RootLess(SegmentLength(norm, s, g), bound);
  }
}
