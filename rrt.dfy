/** The tree search of `RRT_path_find` in strategy/strategy.py: grow a tree
    from the robot's position toward sampled points until a new vertex
    lands within one robot radius of the goal, then read the route back
    along the parent links.

    The source keys its `graph` and `prev` dictionaries by the pose tuple
    of each vertex; here vertices are numbered in the order they are added
    (the dictionaries' insertion order), `verts[v]` is the pose of vertex
    v, `graph[v]` its neighbour list and `prev[v]` its parent. The random
    samples are a given sequence. */
module Rrt {
  import opened Geometry
  import opened Paths

  datatype Tree = Tree(verts: seq<Waypoint>, graph: seq<seq<nat>>, prev: seq<Option<nat>>)

  /** The clearance `RRT_path_find` asks of a sample. */
  const SampleBuffer: real := 100.0

  /** The tree as `RRT_path_find` builds it: vertex 0 is the start pose
      with no parent; every other vertex is a planner point [x, y] whose
      parent was added before it; every parent link is recorded in both
      neighbour lists, and the neighbour lists hold nothing else. */
  ghost predicate TreeShape(t: Tree, start: Waypoint)
  {
    |t.verts| >= 1 && |t.graph| == |t.verts| && |t.prev| == |t.verts| &&
    t.verts[0] == start && t.prev[0] == None &&
    ParentLinks(t) && NeighbourLinks(t)
  }

  ghost predicate ParentLinks(t: Tree)
    requires |t.graph| == |t.verts| && |t.prev| == |t.verts|
  {
    forall v :: 1 <= v < |t.verts| ==>
      t.prev[v].Some? && t.prev[v].value < v && t.verts[v].rest == [] &&
      t.prev[v].value in t.graph[v] && v in t.graph[t.prev[v].value]
  }

  ghost predicate NeighbourLinks(t: Tree)
    requires |t.graph| == |t.verts| && |t.prev| == |t.verts|
  {
    forall u, j :: 0 <= u < |t.graph| && 0 <= j < |t.graph[u]| ==>
      var w := t.graph[u][j];
      w < |t.verts| && (t.prev[w] == Some(u) || t.prev[u] == Some(w))
  }

  /** Every tree edge passes `is_path_blocked`. */
  ghost predicate EdgesClear(occ: Occupancy, norm: Norm, t: Tree)
    requires IsNorm(norm)
  {
    forall v :: 1 <= v < |t.verts| && v < |t.prev| && t.prev[v].Some? && t.prev[v].value < |t.verts| ==>
      !Blocked(occ, norm, XY(t.verts[t.prev[v].value]), XY(t.verts[v]))
  }

  /** `np.linalg.norm(extend_pos[:2] - goal_pos[:2]) < gs.ROBOT_RADIUS`. */
  ghost predicate NearGoal(goal: Waypoint, p: Point)
  {
    DistSq(XY(goal), p) < Sq(StepSize)
  }

  /** The tree `RRT_path_find` starts from: the start pose alone. */
  function Root(start: Waypoint): Tree
  {
    Tree([start], [[]], [None])
  }

  /** The tree after the lines that record a new vertex: `p` becomes vertex
      `|t.verts|` with parent `n`, linked in both neighbour lists. */
  function AddVertex(t: Tree, n: nat, p: Point): Tree
    requires n < |t.graph|
  {
    Tree(t.verts + [Waypoint(p.x, p.y, [])], t.graph[n := t.graph[n] + [|t.verts|]] + [[n]], t.prev + [Some(n)])
  }

  /** The growth loop from sample `i` on, with tree `t` grown so far: each
      sample does what `SampleStep` says to the tree, and the loop stops
      (reporting true) at the first new vertex within one robot radius of
      the goal, or when the samples run out (reporting false). */
  ghost function Grow(occ: Occupancy, norm: Norm, goal: Waypoint, samples: seq<Waypoint>, i: nat, t: Tree)
    : (Tree, bool)
    requires IsNorm(norm) && i <= |samples| && |t.verts| >= 1 && |t.graph| == |t.verts|
    decreases |samples| - i
  {
    if i == |samples| then (t, false)
    else
      var step := SampleStep(occ, norm, t.verts, samples[i], Nearest(t.verts, XY(samples[i])));
      if step.Added? then
        var t' := AddVertex(t, step.parent, step.p);
        if NearGoal(goal, step.p) then (t', true) else Grow(occ, norm, goal, samples, i + 1, t')
      else Grow(occ, norm, goal, samples, i + 1, t)
  }

  /** The tree the search grows from `start` over `samples`, and whether it
      came near the goal. */
  ghost function Grown(occ: Occupancy, norm: Norm, start: Waypoint, goal: Waypoint, samples: seq<Waypoint>)
    : (Tree, bool)
    requires IsNorm(norm)
  {
    Grow(occ, norm, goal, samples, 0, Root(start))
  }

  /** A tree the search may still grow: it has the search's shape, its
      edges are clear, and no vertex but the start is near the goal. */
  ghost predicate Growing(occ: Occupancy, norm: Norm, start: Waypoint, goal: Waypoint, t: Tree)
    requires IsNorm(norm)
  {
    TreeShape(t, start) && EdgesClear(occ, norm, t) &&
    forall v :: 1 <= v < |t.verts| ==> !NearGoal(goal, XY(t.verts[v]))
  }

  /** What the growth loop leaves behind: a tree of the search's shape with
      clear edges, whose last vertex (and only that one, besides the start)
      is near the goal exactly when the loop reports reaching it. */
  ghost predicate Grew(occ: Occupancy, norm: Norm, start: Waypoint, goal: Waypoint, g: (Tree, bool))
    requires IsNorm(norm)
  {
    var (t, reached) := g;
    TreeShape(t, start) && EdgesClear(occ, norm, t) &&
    (reached ==> |t.verts| >= 2 && NearGoal(goal, XY(t.verts[|t.verts| - 1]))) &&
    forall v :: 1 <= v < |t.verts| - (if reached then 1 else 0) ==> !NearGoal(goal, XY(t.verts[v]))
  }

  /** Growing keeps the tree's shape and its edges clear, and it stops
      exactly at the first vertex near the goal. */
  lemma {:induction false} GrowKeeps(occ: Occupancy, norm: Norm, start: Waypoint, goal: Waypoint,
                                     samples: seq<Waypoint>, i: nat, t: Tree)
    requires IsNorm(norm) && i <= |samples| && Growing(occ, norm, start, goal, t)
    ensures Grew(occ, norm, start, goal, Grow(occ, norm, goal, samples, i, t))
    decreases |samples| - i
  {
    if i == |samples| {
      assert Grow(occ, norm, goal, samples, i, t) == (t, false);
    } else {
      var step := SampleStep(occ, norm, t.verts, samples[i], Nearest(t.verts, XY(samples[i])));
      if step.Added? {
        var t' := AddVertex(t, step.parent, step.p);
        AddedVertexKeeps(occ, norm, start, goal, t, step.parent, step.p);
        if NearGoal(goal, step.p) {
          assert Grow(occ, norm, goal, samples, i, t) == (t', true);
        } else {
          GrowKeeps(occ, norm, start, goal, samples, i + 1, t');
          assert Grow(occ, norm, goal, samples, i, t) == Grow(occ, norm, goal, samples, i + 1, t');
        }
      } else {
        GrowKeeps(occ, norm, start, goal, samples, i + 1, t);
        assert Grow(occ, norm, goal, samples, i, t) == Grow(occ, norm, goal, samples, i + 1, t);
      }
    }
  }

  /** The tree the search grows has the search's shape. */
  lemma GrownShape(occ: Occupancy, norm: Norm, start: Waypoint, goal: Waypoint, samples: seq<Waypoint>)
    requires IsNorm(norm)
    ensures var (t, reached) := Grown(occ, norm, start, goal, samples);
      TreeShape(t, start) && EdgesClear(occ, norm, t) &&
      (reached ==> |t.verts| >= 2 && NearGoal(goal, XY(t.verts[|t.verts| - 1]))) &&
      forall v :: 1 <= v < |t.verts| - (if reached then 1 else 0) ==> !NearGoal(goal, XY(t.verts[v]))
  {
    GrowKeeps(occ, norm, start, goal, samples, 0, Root(start));
  }

  /** Adding a vertex by a clear edge keeps the tree's shape and its edges
      clear, and leaves the earlier vertices where they were. */
  lemma AddedVertexKeeps(occ: Occupancy, norm: Norm, start: Waypoint, goal: Waypoint, t: Tree, n: nat, p: Point)
    requires IsNorm(norm) && Growing(occ, norm, start, goal, t) && n < |t.verts|
    requires !Blocked(occ, norm, XY(t.verts[n]), p)
    ensures var t' := AddVertex(t, n, p);
      TreeShape(t', start) && EdgesClear(occ, norm, t') &&
      (NearGoal(goal, p) ==> Grew(occ, norm, start, goal, (t', true))) &&
      (!NearGoal(goal, p) ==> Growing(occ, norm, start, goal, t'))
  {
    var t' := AddVertex(t, n, p);
    AddedVertexShape(t, t', start, n, p);
    AddedVertexEdges(occ, norm, t, t', n, p);
    assert forall v :: 0 <= v < |t.verts| ==> t'.verts[v] == t.verts[v];
    assert XY(t'.verts[|t.verts|]) == p;
  }

  /** The list `RRT_path_find` hands to `set_waypoints`: the parent chain
      of the grown tree's vertex nearest the goal, then the goal. */
  ghost function Route(occ: Occupancy, norm: Norm, start: Waypoint, goal: Waypoint, samples: seq<Waypoint>)
    : seq<Waypoint>
    requires IsNorm(norm)
  {
    var t := Grown(occ, norm, start, goal, samples).0;
    GrownShape(occ, norm, start, goal, samples);
    Chain(t, start, Nearest(t.verts, XY(goal))) + [goal]
  }

  /** The growth loop of `RRT_path_find`, one sample per iteration, until
      a new vertex is within one robot radius of the goal or the samples
      run out. */
  method GrowTree(occ: Occupancy, norm: Norm, start: Waypoint, goal: Waypoint, samples: seq<Waypoint>)
    returns (t: Tree, reached: bool)
    requires IsNorm(norm)
    ensures (t, reached) == Grown(occ, norm, start, goal, samples)
    ensures TreeShape(t, start) && EdgesClear(occ, norm, t)
    ensures reached ==> |t.verts| >= 2 && NearGoal(goal, XY(t.verts[|t.verts| - 1]))
    ensures forall v :: 1 <= v < |t.verts| - (if reached then 1 else 0) ==> !NearGoal(goal, XY(t.verts[v]))
  {
    t := Root(start);
    reached := false;
    var i := 0;
    while i < |samples| && !reached
      invariant 0 <= i <= |samples|
      invariant |t.verts| >= 1 && |t.graph| == |t.verts|
      invariant Grown(occ, norm, start, goal, samples) ==
                  if reached then (t, true) else Grow(occ, norm, goal, samples, i, t)
    {
      t, reached := SampleIteration(occ, norm, goal, samples, i, t);
      i := i + 1;
    }
    GrownShape(occ, norm, start, goal, samples);
  }

  /** One iteration of the growth loop: a sample that is taken (with a
      100 mm clearance) or already a vertex is skipped; otherwise the
      nearest vertex is extended toward it, and the point reached, if any,
      becomes a new vertex whose parent is that nearest vertex; the loop is
      to stop when that vertex is within one robot radius of the goal. */
  method SampleIteration(occ: Occupancy, norm: Norm, goal: Waypoint, samples: seq<Waypoint>, i: nat, t: Tree)
    returns (t': Tree, reached: bool)
    requires IsNorm(norm) && i < |samples| && |t.verts| >= 1 && |t.graph| == |t.verts|
    ensures |t'.verts| >= 1 && |t'.graph| == |t'.verts|
    ensures Grow(occ, norm, goal, samples, i, t) ==
              if reached then (t', true) else Grow(occ, norm, goal, samples, i + 1, t')
  {
    var sample := samples[i];
    t', reached := t, false;
    if !occ(XY(sample), BufferDist(SampleBuffer)) || sample in t.verts {
      return;
    }
    var nearest := NearestVertex(norm, t.verts, XY(sample));
    var n := nearest.value;
    NearestUnique(t.verts, XY(sample), n, Nearest(t.verts, XY(sample)));
    var ext := Extend(occ, norm, t.verts[n], sample);
    if !ext.Reached? {
      assert SampleStep(occ, norm, t.verts, sample, n) == Skipped;
      return;
    }
    var p := ext.p;
    assert SampleStep(occ, norm, t.verts, sample, n) == Added(n, p);
    t' := AddVertex(t, n, p);
    SegmentShorter(norm, XY(goal), p, StepSize);
    reached := SegmentLength(norm, XY(goal), p) < StepSize;
  }

  /** Adding vertex `|t0.verts|` with parent `n` keeps the tree's shape. */
  lemma AddedVertexShape(t0: Tree, t: Tree, start: Waypoint, n: nat, p: Point)
    requires TreeShape(t0, start) && n < |t0.verts|
    requires t.verts == t0.verts + [Waypoint(p.x, p.y, [])]
    requires t.graph == t0.graph[n := t0.graph[n] + [|t0.verts|]] + [[n]]
    requires t.prev == t0.prev + [Some(n)]
    ensures TreeShape(t, start)
  {
    AddedVertexParents(t0, t, n, p);
    AddedVertexNeighbours(t0, t, n, p);
  }

  /** Adding vertex `|t0.verts|` with parent `n` by an unblocked edge
      keeps every edge clear. */
  lemma AddedVertexEdges(occ: Occupancy, norm: Norm, t0: Tree, t: Tree, n: nat, p: Point)
    requires IsNorm(norm) && EdgesClear(occ, norm, t0) && n < |t0.verts|
    requires |t0.graph| == |t0.verts| && |t0.prev| == |t0.verts| && ParentLinks(t0)
    requires t.verts == t0.verts + [Waypoint(p.x, p.y, [])]
    requires t.prev == t0.prev + [Some(n)]
    requires !Blocked(occ, norm, XY(t0.verts[n]), p)
    ensures EdgesClear(occ, norm, t)
  {
    var id := |t0.verts|;
    forall v | 1 <= v < |t.verts| && t.prev[v].Some? && t.prev[v].value < |t.verts|
      ensures !Blocked(occ, norm, XY(t.verts[t.prev[v].value]), XY(t.verts[v]))
    {
      if v < id {
        var u := t0.prev[v].value;
        assert t.prev[v] == t0.prev[v] && t.verts[v] == t0.verts[v] && u < v;
        assert t.verts[u] == t0.verts[u];
      } else {
        assert XY(t.verts[id]) == p && t.verts[n] == t0.verts[n];
      }
    }
  }

  lemma AddedVertexParents(t0: Tree, t: Tree, n: nat, p: Point)
    requires |t0.graph| == |t0.verts| && |t0.prev| == |t0.verts| && ParentLinks(t0) && n < |t0.verts|
    requires t.verts == t0.verts + [Waypoint(p.x, p.y, [])]
    requires t.graph == t0.graph[n := t0.graph[n] + [|t0.verts|]] + [[n]]
    requires t.prev == t0.prev + [Some(n)]
    ensures ParentLinks(t)
  {
    var id := |t0.verts|;
    forall v | 1 <= v < |t.verts|
      ensures t.prev[v].Some? && t.prev[v].value < v && t.verts[v].rest == []
      ensures t.prev[v].value in t.graph[v] && v in t.graph[t.prev[v].value]
    {
      if v < id {
        var u := t0.prev[v].value;
        assert t.prev[v] == t0.prev[v] && t.verts[v] == t0.verts[v];
        assert u in t0.graph[v] && v in t0.graph[u];
        assert t.graph[v] == t0.graph[v] || t.graph[v] == t0.graph[n] + [id];
        assert t.graph[u] == t0.graph[u] || t.graph[u] == t0.graph[n] + [id];
      } else {
        assert t.graph[v] == [n] && t.graph[n] == t0.graph[n] + [id];
      }
    }
  }

  lemma AddedVertexNeighbours(t0: Tree, t: Tree, n: nat, p: Point)
    requires |t0.graph| == |t0.verts| && |t0.prev| == |t0.verts| && NeighbourLinks(t0) && n < |t0.verts|
    requires t.verts == t0.verts + [Waypoint(p.x, p.y, [])]
    requires t.graph == t0.graph[n := t0.graph[n] + [|t0.verts|]] + [[n]]
    requires t.prev == t0.prev + [Some(n)]
    ensures NeighbourLinks(t)
  {
    var id := |t0.verts|;
    forall u, j | 0 <= u < |t.graph| && 0 <= j < |t.graph[u]|
      ensures t.graph[u][j] < |t.verts|
      ensures t.prev[t.graph[u][j]] == Some(u) || t.prev[u] == Some(t.graph[u][j])
    {
      var w := t.graph[u][j];
      if u == id {
        assert t.graph[u] == [n];
        assert w == n && t.prev[u] == Some(n);
      } else if u == n {
        assert t.graph[u] == t0.graph[n] + [id];
        if j < |t0.graph[n]| {
          assert w == t0.graph[u][j];
          assert t.prev[w] == t0.prev[w] && t.prev[u] == t0.prev[u];
        }
      } else {
        assert t.graph[u] == t0.graph[u];
        assert w == t0.graph[u][j];
        assert t.prev[w] == t0.prev[w] && t.prev[u] == t0.prev[u];
      }
    }
  }

  /** The route read back from vertex v: the poses on the parent chain from
      v up to (not including) the first vertex at the start's x, y, listed
      from the start's end. This is `path` after `path.reverse()`. */
  ghost function Chain(t: Tree, start: Waypoint, v: nat): seq<Waypoint>
    requires TreeShape(t, start) && v < |t.verts|
    decreases v
  {
    if XY(t.verts[v]) == XY(start) then []
    else Chain(t, start, t.prev[v].value) + [t.verts[v]]
  }

  /** Every leg of a chain passes `is_path_blocked`, and a chain ends at its
      vertex (or is empty when that vertex is at the start's x, y). */
  lemma {:induction false} ChainLegsClear(occ: Occupancy, norm: Norm, t: Tree, start: Waypoint, v: nat)
    requires IsNorm(norm) && TreeShape(t, start) && EdgesClear(occ, norm, t) && v < |t.verts|
    ensures LegsClear(occ, norm, XY(start), Chain(t, start, v))
    ensures Chain(t, start, v) == [] <==> XY(t.verts[v]) == XY(start)
    ensures Chain(t, start, v) != [] ==> Chain(t, start, v)[|Chain(t, start, v)| - 1] == t.verts[v]
  {
    if XY(t.verts[v]) != XY(start) {
      var u := t.prev[v].value;
      ChainLegsClear(occ, norm, t, start, u);
      var c := Chain(t, start, u);
      var c2 := c + [t.verts[v]];
      assert Chain(t, start, v) == c2;
      forall i | 0 <= i < |c2|
        ensures !Blocked(occ, norm, LegStart(XY(start), c2, i), XY(c2[i]))
      {
        if i < |c| {
          assert LegStart(XY(start), c2, i) == LegStart(XY(start), c, i);
        } else if c == [] {
          assert LegStart(XY(start), c2, i) == XY(t.verts[u]);
        } else {
          assert LegStart(XY(start), c2, i) == XY(c[|c| - 1]);
        }
      }
    }
  }

  /** `list.reverse()`. */
  function Reversed<T>(s: seq<T>): (r: seq<T>)
    ensures |r| == |s|
    ensures forall i :: 0 <= i < |s| ==> r[i] == s[|s| - 1 - i]
  {
    if s == [] then [] else [s[|s| - 1]] + Reversed(s[..|s| - 1])
  }

  /** The read-back of `RRT_path_find`: from the vertex nearest the goal,
      collect poses while following parent links until a vertex at the
      start's x, y, reverse, and append the goal. */
  method ExtractPath(norm: Norm, t: Tree, start: Waypoint, goal: Waypoint) returns (path: seq<Waypoint>, k: nat)
    requires IsNorm(norm) && TreeShape(t, start)
    ensures IsNearest(t.verts, XY(goal), k)
    ensures path == Chain(t, start, k) + [goal]
  {
    var nearest := NearestVertex(norm, t.verts, XY(goal));
    k := nearest.value;
    var rev: seq<Waypoint> := [];
    var pos: nat := k;
    while XY(t.verts[pos]) != XY(start)
      invariant pos < |t.verts|
      invariant Chain(t, start, k) == Chain(t, start, pos) + Reversed(rev)
      decreases pos
    {
      assert Reversed(rev + [t.verts[pos]]) == [t.verts[pos]] + Reversed(rev);
      rev := rev + [t.verts[pos]];
      pos := t.prev[pos].value;
    }
    path := Reversed(rev) + [goal];
  }

  /** The route `RRT_path_find` hands to `set_waypoints` after the search
      reached the goal passes `is_path_blocked` on every leg, as long as the
      goal itself is open: the last leg is shorter than one step. */
  lemma {:induction false} ReachedRouteClear(occ: Occupancy, norm: Norm, t: Tree, start: Waypoint,
                                             goal: Waypoint, k: nat)
    requires IsNorm(norm) && TreeShape(t, start) && EdgesClear(occ, norm, t)
    requires |t.verts| >= 2 && NearGoal(goal, XY(t.verts[|t.verts| - 1]))
    requires IsNearest(t.verts, XY(goal), k) && Open(occ, XY(goal))
    ensures LegsClear(occ, norm, XY(start), Chain(t, start, k) + [goal])
  {
    var c := Chain(t, start, k);
    ChainLegsClear(occ, norm, t, start, k);
    var last := XY(t.verts[k]);
    DistSqSymmetric(XY(goal), last);
    DistSqSymmetric(XY(goal), XY(t.verts[|t.verts| - 1]));
    SegmentShorter(norm, last, XY(goal), StepSize);
    assert Steps(SegmentLength(norm, last, XY(goal))) <= 0;
    assert !Blocked(occ, norm, last, XY(goal));
    var c2 := c + [goal];
    forall i | 0 <= i < |c2|
      ensures !Blocked(occ, norm, LegStart(XY(start), c2, i), XY(c2[i]))
    {
      if i < |c| {
        assert LegStart(XY(start), c2, i) == LegStart(XY(start), c, i);
      } else if c == [] {
        assert LegStart(XY(start), c2, i) == XY(start) == last;
      } else {
        assert LegStart(XY(start), c2, i) == XY(c[|c| - 1]) == last;
      }
    }
  }

  /** What one sample does to the tree in `RRT_path_find`. */
  datatype SampleOutcome = Skipped | Added(parent: nat, p: Point) | Crashed

  /** One iteration of the growth loop as written. `extend` answers `False`
      when the sample is at the nearest vertex's x, y; the `is None` test
      does not catch that, and `tuple(False)` then raises a TypeError. */
  ghost function SampleStepAsWritten(occ: Occupancy, norm: Norm, verts: seq<Waypoint>, sample: Waypoint, k: nat)
    : (r: SampleOutcome)
    requires IsNorm(norm) && IsNearest(verts, XY(sample), k)
    ensures r == Crashed <==>
              occ(XY(sample), BufferDist(SampleBuffer)) && sample !in verts && XY(sample) == XY(verts[k])
    ensures r != Crashed ==> r == SampleStep(occ, norm, verts, sample, k)
  {
    if !occ(XY(sample), BufferDist(SampleBuffer)) || sample in verts then Skipped
    else match Extended(occ, norm, XY(verts[k]), XY(sample))
      case Degenerate => Crashed
      case NoStep => Skipped
      case Reached(p) => Added(k, p)
  }

  /** The start pose is the only vertex, and a free sample lies at its
      x, y with a different heading (a robot at (0, 0) facing w = 1 and the
      sample (0, 0, 0.0), say): the sample is not a vertex, its nearest
      vertex is the start, and the iteration crashes. */
  lemma SampleAtStartCrashes(occ: Occupancy, norm: Norm, start: Waypoint, sample: Waypoint)
    requires IsNorm(norm) && XY(sample) == XY(start) && sample != start
    requires occ(XY(sample), BufferDist(SampleBuffer))
    ensures IsNearest([start], XY(sample), 0)
    ensures SampleStepAsWritten(occ, norm, [start], sample, 0) == Crashed
  {
    NearestOfOne(start, XY(sample));
  }

  lemma NearestOfOne(v: Waypoint, q: Point)
    ensures IsNearest([v], q, 0)
  {
    var verts := [v];
    forall j | 0 <= j < |verts|
      ensures DistSq(XY(verts[0]), q) <= DistSq(XY(verts[j]), q)
    {
      assert verts[j] == v;
    }
  }

  /** The crash above happens for a concrete start and sample. */
  lemma SampleAtStartExample()
    ensures XY(Pose(0.0, 0.0, 0.0)) == XY(Pose(0.0, 0.0, 1.0))
    ensures Pose(0.0, 0.0, 0.0) != Pose(0.0, 0.0, 1.0)
  {
    assert Pose(0.0, 0.0, 0.0).rest[0] != Pose(0.0, 0.0, 1.0).rest[0];
  }

  /** The iteration with the `False` case skipped like `None`: it never
      crashes, and every vertex it adds hangs off the nearest vertex by an
      edge that passes `is_path_blocked`. */
  ghost function SampleStep(occ: Occupancy, norm: Norm, verts: seq<Waypoint>, sample: Waypoint, k: nat)
    : (r: SampleOutcome)
    requires IsNorm(norm) && IsNearest(verts, XY(sample), k)
    ensures r != Crashed
    ensures r.Added? ==> r.parent == k && !Blocked(occ, norm, XY(verts[k]), r.p)
  {
    if !occ(XY(sample), BufferDist(SampleBuffer)) || sample in verts then Skipped
    else match Extended(occ, norm, XY(verts[k]), XY(sample))
      case Degenerate => Skipped
      case NoStep => Skipped
      case Reached(p) =>
        ExtendedEdgeClear(occ, norm, XY(verts[k]), XY(sample));
        Added(k, p)
  }
}
