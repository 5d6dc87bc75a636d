/** The planner's segment primitives from strategy/strategy.py: sampling a
    segment at a fixed step (`is_path_blocked`), stepping a new tree edge
    toward a sample (`extend`), the nearest-vertex scan (`get_nearest_pos`)
    and the check that a waypoint list is still collision-free.

    The occupancy test `is_position_open` of the unseen gamestate is the
    oracle `occ`, applied to a point and a clearance; the robot and team it
    is asked about are fixed for one planning call. */
module Paths {
  import opened Geometry

  /** The clearance argument of `is_position_open`. */
  datatype Buffer = DefaultBuffer | BufferDist(mm: real)

  type Occupancy = (Point, Buffer) -> bool

  /** `gs.ROBOT_RADIUS`, the step used to sample a segment. */
  const StepSize: real := 90.0

  /** `extend` never steps further than this from its start. */
  const MaxReach: real := 4.0 * StepSize

  /** `is_position_open` with its default clearance, as both
      `is_path_blocked` and `extend` call it. */
  predicate Open(occ: Occupancy, p: Point)
  {
    occ(p, DefaultBuffer)
  }

  /** `int(np.floor(len / STEP_SIZE))`. */
  function Steps(len: real): int
  {
    (len / StepSize).Floor
  }

  /** The unit vector `path / np.linalg.norm(path)` from `s` toward `g`. */
  function Direction(s: Point, g: Point, len: real): Point
    requires len != 0.0
  {
    Point((g.x - s.x) / len, (g.y - s.y) / len)
  }

  /** `s_pos + norm_path * STEP_SIZE * i`. */
  function StepPoint(s: Point, d: Point, i: int): Point
  {
    Point(s.x + d.x * (StepSize * i as real), s.y + d.y * (StepSize * i as real))
  }

  /** What `is_path_blocked(s, g)` answers: a segment of positive length is
      blocked when its end point is taken, or when one of the points at
      distances StepSize * i, i = 1 .. floor(len / StepSize), is. */
  ghost predicate Blocked(occ: Occupancy, norm: Norm, s: Point, g: Point)
    requires IsNorm(norm)
  {
    var len := SegmentLength(norm, s, g);
    s != g &&
    (!Open(occ, g) ||
     exists i :: 1 <= i <= Steps(len) && !Open(occ, StepPoint(s, Direction(s, g, len), i)))
  }

  /** `is_path_blocked`. Only x and y of either pose are used, and the
      clearance argument is never passed on to the occupancy test. */
  method IsPathBlocked(occ: Occupancy, norm: Norm, s: Waypoint, g: Waypoint, bufferDist: real)
    returns (blocked: bool)
    requires IsNorm(norm)
    ensures blocked == Blocked(occ, norm, XY(s), XY(g))
  {
    var sp, gp := XY(s), XY(g);
    if gp == sp {
      return false;
    }
    if !Open(occ, gp) {
      return true;
    }
    var len := SegmentLength(norm, sp, gp);
    var d := Direction(sp, gp, len);
    var steps := Steps(len);
    for i := 1 to steps + 1
      invariant forall j :: 1 <= j < i ==> Open(occ, StepPoint(sp, d, j))
    {
      if !Open(occ, StepPoint(sp, d, i)) {
        return true;
      }
    }
    return false;
  }

  /** The direction from `s` to `g` is a unit vector. */
  lemma DirectionIsUnit(norm: Norm, s: Point, g: Point)
    requires IsNorm(norm) && s != g
    ensures var len := SegmentLength(norm, s, g);
      var d := Direction(s, g, len);
      Sq(d.x) + Sq(d.y) == 1.0
  {
    var len := SegmentLength(norm, s, g);
    var d := Direction(s, g, len);
    QuotientTimesDivisor(g.x - s.x, len);
    QuotientTimesDivisor(g.y - s.y, len);
    ScaledUnit(d.x, d.y, g.x - s.x, g.y - s.y, len);
  }

  /** The i-th sample point lies exactly StepSize * i from the start, which
      is what `extend` measures with `np.linalg.norm`. */
  lemma StepDistance(norm: Norm, s: Point, g: Point, i: nat)
    requires IsNorm(norm) && s != g
    ensures var len := SegmentLength(norm, s, g);
      SegmentLength(norm, s, StepPoint(s, Direction(s, g, len), i)) == StepSize * i as real
  {
    var len := SegmentLength(norm, s, g);
    var d := Direction(s, g, len);
    var c := StepSize * i as real;
    var p := StepPoint(s, d, i);
    DirectionIsUnit(norm, s, g);
    ScaledLength(p.x - s.x, p.y - s.y, d.x, d.y, c);
    RootUnique(SegmentLength(norm, s, p), c);
  }

  /** The largest k <= n such that the sample points 1 .. k are all open. */
  function OpenPrefix(occ: Occupancy, s: Point, d: Point, n: nat): (k: nat)
    ensures k <= n
    ensures forall j :: 1 <= j <= k ==> Open(occ, StepPoint(s, d, j))
    ensures k < n ==> !Open(occ, StepPoint(s, d, k + 1))
  {
    if n == 0 then 0
    else
      var k := OpenPrefix(occ, s, d, n - 1);
      if k == n - 1 && Open(occ, StepPoint(s, d, n)) then n else k
  }

  /** What `extend` returns: `False` for a segment of length zero, `None`
      when not even one step can be taken, otherwise the last point of the
      open run of sample points. */
  datatype Extension = Degenerate | NoStep | Reached(p: Point)

  function Min(a: int, b: int): int
  {
    if a <= b then a else b
  }

  /** The result of `extend(s, g)`: the run of open sample points, at most
      four steps long. */
  ghost function Extended(occ: Occupancy, norm: Norm, s: Point, g: Point): Extension
    requires IsNorm(norm)
  {
    if s == g then Degenerate
    else
      var len := SegmentLength(norm, s, g);
      var d := Direction(s, g, len);
      var k := OpenPrefix(occ, s, d, Min(if Steps(len) < 0 then 0 else Steps(len), 4));
      if k == 0 then NoStep else Reached(StepPoint(s, d, k))
  }

  /** `extend`: walk the sample points of the segment, stopping at the first
      taken one or the first one more than four steps out, and return the
      last point collected. */
  method Extend(occ: Occupancy, norm: Norm, s: Waypoint, g: Waypoint) returns (r: Extension)
    requires IsNorm(norm)
    ensures r == Extended(occ, norm, XY(s), XY(g))
  {
    var sp, gp := XY(s), XY(g);
    if gp == sp {
      return Degenerate;
    }
    var len := SegmentLength(norm, sp, gp);
    var d := Direction(sp, gp, len);
    var poses: seq<Option<Point>> := [None];
    var steps := Steps(len);
    var i := 1;
    while i <= steps
      invariant 1 <= i && i - 1 <= 4 && (steps >= 0 ==> i <= steps + 1)
      invariant |poses| == i && poses[0] == None
      invariant forall j :: 1 <= j < i ==> poses[j] == Some(StepPoint(sp, d, j))
      invariant forall j :: 1 <= j < i ==> Open(occ, StepPoint(sp, d, j))
    {
      var p := StepPoint(sp, d, i);
      if !Open(occ, p) {
        break;
      }
      StepDistance(norm, sp, gp, i);
      if SegmentLength(norm, sp, p) > MaxReach {
        break;
      }
      poses := poses + [Some(p)];
      i := i + 1;
    }
    var k := i - 1;
    assert k == OpenPrefix(occ, sp, d, Min(if steps < 0 then 0 else steps, 4));
    r := match poses[|poses| - 1]
      case None => NoStep
      case Some(p) => Reached(p);
  }

  /** The segment from `s` to its k-th sample point is k steps long and
      points the same way, so it is sampled at the same points. */
  lemma StepSegment(norm: Norm, s: Point, g: Point, k: nat)
    requires IsNorm(norm) && s != g && 1 <= k
    ensures var d := Direction(s, g, SegmentLength(norm, s, g));
      var p := StepPoint(s, d, k);
      var len := SegmentLength(norm, s, p);
      len == StepSize * k as real && len != 0.0 && Steps(len) == k && Direction(s, p, len) == d
  {
    var d := Direction(s, g, SegmentLength(norm, s, g));
    var p := StepPoint(s, d, k);
    var c := StepSize * k as real;
    StepDistance(norm, s, g, k);
    var len := SegmentLength(norm, s, p);
    assert len == c;
    assert c / StepSize == k as real;
    assert Steps(len) == k;
    ScaledDirection(s, d, c);
  }

  /** The direction toward a point `c` along `d` from `s`, at distance
      `c`, is `d`. */
  lemma ScaledDirection(s: Point, d: Point, c: real)
    requires c != 0.0
    ensures Direction(s, Point(s.x + d.x * c, s.y + d.y * c), c) == d
  {
    ProductOverFactor(d.x, c);
    ProductOverFactor(d.y, c);
  }

  /** An edge `extend` adds to the tree is one that `is_path_blocked` would
      pass, of length between one step and four steps. */
  lemma ExtendedEdgeClear(occ: Occupancy, norm: Norm, s: Point, g: Point)
    requires IsNorm(norm) && Extended(occ, norm, s, g).Reached?
    ensures var p := Extended(occ, norm, s, g).p;
      !Blocked(occ, norm, s, p) && Sq(StepSize) <= DistSq(s, p) <= Sq(MaxReach)
  {
    var len := SegmentLength(norm, s, g);
    var d := Direction(s, g, len);
    var p := Extended(occ, norm, s, g).p;
    var k := OpenPrefix(occ, s, d, Min(if Steps(len) < 0 then 0 else Steps(len), 4));
    assert 1 <= k <= 4 && p == StepPoint(s, d, k);
    StepSegment(norm, s, g, k);
    var len2 := SegmentLength(norm, s, p);
    RootLess(StepSize, len2);
    RootLess(len2, MaxReach);
  }

  /** The first vertex at the least distance from `q`, as
      `get_nearest_pos` picks it (a later vertex must be strictly nearer to
      replace the one held). */
  ghost predicate IsNearest(verts: seq<Waypoint>, q: Point, k: nat)
  {
    k < |verts| &&
    (forall j :: 0 <= j < |verts| ==> DistSq(XY(verts[k]), q) <= DistSq(XY(verts[j]), q)) &&
    (forall j :: 0 <= j < k ==> DistSq(XY(verts[k]), q) < DistSq(XY(verts[j]), q))
  }

  /** At most one vertex is the first nearest one. */
  lemma NearestUnique(verts: seq<Waypoint>, q: Point, k1: nat, k2: nat)
    requires IsNearest(verts, q, k1) && IsNearest(verts, q, k2)
    ensures k1 == k2
  {
    assert DistSq(XY(verts[k1]), q) == DistSq(XY(verts[k2]), q);
  }

  /** The first nearest vertex of a non-empty list, by the scan of
      `get_nearest_pos` read as a recursion over the list's prefixes. */
  ghost function Nearest(verts: seq<Waypoint>, q: Point): (k: nat)
    requires |verts| >= 1
    ensures IsNearest(verts, q, k)
    decreases |verts|
  {
    if |verts| == 1 then 0
    else
      var front := verts[..|verts| - 1];
      var k := Nearest(front, q);
      assert forall j :: 0 <= j < |front| ==> front[j] == verts[j];
      var last := |verts| - 1;
      if DistSq(XY(verts[last]), q) < DistSq(XY(verts[k]), q) then last else k
  }

  /** `get_nearest_pos`: a linear scan keeping the vertex with the least
      distance seen so far, starting from an infinite minimum. */
  method NearestVertex(norm: Norm, verts: seq<Waypoint>, q: Point) returns (r: Option<nat>)
    requires IsNorm(norm)
    ensures r.None? <==> |verts| == 0
    ensures r.Some? ==> IsNearest(verts, q, r.value)
  {
    r := None;
    var minDist: Option<real> := None;
    for i := 0 to |verts|
      invariant r.None? <==> i == 0
      invariant minDist.None? <==> i == 0
      invariant r.Some? ==> r.value < i && minDist == Some(SegmentLength(norm, XY(verts[r.value]), q))
      invariant r.Some? ==> forall j :: 0 <= j < i ==> DistSq(XY(verts[r.value]), q) <= DistSq(XY(verts[j]), q)
      invariant r.Some? ==> forall j :: 0 <= j < r.value ==> DistSq(XY(verts[r.value]), q) < DistSq(XY(verts[j]), q)
    {
      var dist := SegmentLength(norm, XY(verts[i]), q);
      if r.Some? {
        RootLess(dist, minDist.value);
      }
      if minDist.None? || dist < minDist.value {
        minDist := Some(dist);
        r := Some(i);
      }
    }
  }

  /** The point a leg of the route `[start] + wps` starts from. */
  function LegStart(start: Point, wps: seq<Waypoint>, i: nat): Point
    requires i < |wps|
  {
    if i == 0 then start else XY(wps[i - 1])
  }

  /** Every leg of the route `[start] + wps` passes `is_path_blocked`. */
  ghost predicate LegsClear(occ: Occupancy, norm: Norm, start: Point, wps: seq<Waypoint>)
    requires IsNorm(norm)
  {
    forall i :: 0 <= i < |wps| ==> !Blocked(occ, norm, LegStart(start, wps, i), XY(wps[i]))
  }

  /** The `current_path_collides` scan of `path_find`: every consecutive
      pair of `[start_pos] + waypoints` is tested, with no early exit. */
  method PathCollides(occ: Occupancy, norm: Norm, start: Waypoint, wps: seq<Waypoint>)
    returns (collides: bool)
    requires IsNorm(norm)
    ensures collides == !LegsClear(occ, norm, XY(start), wps)
  {
    var current := [start] + wps;
    collides := false;
    for i := 0 to |current| - 1
      invariant collides <==> exists j :: 0 <= j < i && Blocked(occ, norm, LegStart(XY(start), wps, j), XY(wps[j]))
    {
      var blocked := IsPathBlocked(occ, norm, current[i], current[i + 1], 50.0);
      assert current[i + 1] == wps[i];
      assert XY(current[i]) == LegStart(XY(start), wps, i);
      if blocked {
        collides := true;
      }
    }
  }
}
