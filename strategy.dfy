/** The `Strategy` object of strategy/strategy.py: the waypoint glue, the
    path-finding decision with its per-robot throttle, the tree search that
    backs it, and the per-robot body of one control tick.

    Everything the gamestate answers is a parameter: the robot's commands
    object, its position, the occupancy test `occ`, the lost test, the
    speed derivation, and the current time `now`. */
module Strategy {
  import opened Geometry
  import opened Paths
  import opened Rrt
  import opened Commands

  /** `RRT_INTERVAL`: a search for the same goal is not re-run within this
      many seconds unless the held route collides. */
  const RrtInterval: real := 3.0

  /** What `set_waypoints` stores for a pose it accepts: a 2-element
      [x, y] becomes [x, y, None]; a 3-element pose is kept. */
  function Normalised(p: Waypoint): Waypoint
  {
    if |p.rest| == 0 then Waypoint(p.x, p.y, [None]) else p
  }

  /** The list `set_waypoints` hands on when every entry is accepted. */
  function NormalisedAll(wps: seq<Waypoint>): seq<Waypoint>
  {
    seq(|wps|, i requires 0 <= i < |wps| => Normalised(wps[i]))
  }

  /** The index of the first entry of length other than 2 or 3, or the
      length of the list if there is none. */
  function FirstMalformed(wps: seq<Waypoint>): (k: nat)
    ensures k <= |wps|
    ensures forall i :: 0 <= i < k ==> WellFormed(wps[i])
    ensures k < |wps| ==> !WellFormed(wps[k])
  {
    if wps == [] || !WellFormed(wps[0]) then 0 else 1 + FirstMalformed(wps[1..])
  }

  /** A normalised waypoint is a well-formed [x, y, w] at the same x, y,
      and normalising twice changes nothing. */
  lemma NormalisedShape(p: Waypoint)
    requires WellFormed(p)
    ensures XY(Normalised(p)) == XY(p) && |Normalised(p).rest| == 1
    ensures Normalised(Normalised(p)) == Normalised(p)
    ensures |p.rest| == 1 ==> Normalised(p) == p
  {
  }

  /** Whether a route is clear depends only on the x, y of its waypoints. */
  lemma LegsClearSameXY(occ: Occupancy, norm: Norm, start: Point, a: seq<Waypoint>, b: seq<Waypoint>)
    requires IsNorm(norm) && |a| == |b|
    requires forall i :: 0 <= i < |a| ==> XY(a[i]) == XY(b[i])
    ensures LegsClear(occ, norm, start, a) <==> LegsClear(occ, norm, start, b)
  {
    forall i | 0 <= i < |a|
      ensures LegStart(start, a, i) == LegStart(start, b, i)
    {
      if i > 0 {
        assert XY(a[i - 1]) == XY(b[i - 1]);
      }
    }
  }

  /** Normalising a route of accepted poses keeps its x, y, so it keeps
      whether every leg is clear and where the route ends. */
  lemma NormalisedRoute(occ: Occupancy, norm: Norm, start: Point, wps: seq<Waypoint>)
    requires IsNorm(norm) && FirstMalformed(wps) == |wps|
    ensures |NormalisedAll(wps)| == |wps|
    ensures forall i :: 0 <= i < |wps| ==> XY(NormalisedAll(wps)[i]) == XY(wps[i])
    ensures LegsClear(occ, norm, start, NormalisedAll(wps)) <==> LegsClear(occ, norm, start, wps)
  {
    var n := NormalisedAll(wps);
    forall i | 0 <= i < |wps|
      ensures XY(n[i]) == XY(wps[i])
    {
      NormalisedShape(wps[i]);
    }
    LegsClearSameXY(occ, norm, start, n, wps);
  }

  /** What `path_find` does when a goal is not taken. */
  datatype PathOutcome =
    | GoalBlocked     // the goal is taken: nothing is done
    | Straight        // the straight segment is clear: the goal is the only waypoint
    | KeptPath        // same goal, searched recently, held route clear: nothing is done
    | Replanned       // the tree search reached the goal and its route was stored
    | NotReached      // the samples ran out before the tree reached the goal
    | Malformed       // `set_waypoints` met a pose of the wrong length (an assertion failure)

  /** The throttle of `path_find`: the held goal has the new goal's x, y,
      this robot's last search was under `RrtInterval` seconds ago, and no
      leg of the held route is blocked. */
  ghost predicate Throttled(occ: Occupancy, norm: Norm, start: Waypoint, goal: Waypoint,
                            wps: seq<Waypoint>, times: map<nat, real>, id: nat, now: real)
    requires IsNorm(norm)
  {
    wps != [] && XY(wps[|wps| - 1]) == XY(goal) &&
    id in times && now - times[id] < RrtInterval &&
    LegsClear(occ, norm, XY(start), wps)
  }

  class Strategy {
    /** `_last_RRT_times`: robot id to the time of its last tree search. */
    var lastRrtTimes: map<nat, real>

    constructor ()
      ensures lastRrtTimes == map[]
    {
      lastRrtTimes := map[];
    }

    /** The per-robot body of one control tick: every robot the gamestate
        reports lost is stopped, every other one has its speeds derived
        from its current position, and its waypoints are left alone. */
    method RefreshSpeeds(team: seq<(nat, RobotCommands)>, lost: nat -> bool,
                         position: nat -> Waypoint, derive: Deriver)
      requires forall i, j :: 0 <= i < j < |team| ==> team[i].1 != team[j].1
      modifies set i | 0 <= i < |team| :: team[i].1
      ensures forall i :: 0 <= i < |team| ==>
                team[i].1.waypoints == old(team[i].1.waypoints) &&
                team[i].1.speeds == (if lost(team[i].0) then Stopped
                                     else derive(position(team[i].0), old(team[i].1.waypoints)))
    {
      for i := 0 to |team|
        invariant forall j :: 0 <= j < i ==>
                    team[j].1.waypoints == old(team[j].1.waypoints) &&
                    team[j].1.speeds == (if lost(team[j].0) then Stopped
                                         else derive(position(team[j].0), old(team[j].1.waypoints)))
        invariant forall j :: i <= j < |team| ==>
                    team[j].1.waypoints == old(team[j].1.waypoints) && team[j].1.speeds == old(team[j].1.speeds)
      {
        var (robotId, commands) := team[i];
        if lost(robotId) {
          commands.SetSpeeds(Stopped);
        } else {
          var pos := position(robotId);
          commands.DeriveSpeeds(pos, derive);
        }
      }
    }

    /** `get_goal_pos`: the last held waypoint, if any. */
    function GoalPos(cmds: RobotCommands): (r: Option<Waypoint>)
      reads cmds
      ensures r.None? <==> cmds.waypoints == []
      ensures r.Some? ==> r.value in cmds.waypoints && r.value == cmds.waypoints[|cmds.waypoints| - 1]
    {
      if cmds.waypoints == [] then None else Some(cmds.waypoints[|cmds.waypoints| - 1])
    }

    /** `set_waypoints`: rewrite the list in place, turning every [x, y]
        into [x, y, None]; a pose of another length fails the assertion,
        leaving the entries before it rewritten and the commands untouched.
        When every pose is accepted the rewritten list is stored. */
    method SetWaypoints(cmds: RobotCommands, wps: array<Waypoint>, currentPos: Waypoint) returns (ok: bool)
      modifies wps, cmds
      ensures ok <==> FirstMalformed(old(wps[..])) == wps.Length
      ensures forall i :: 0 <= i < wps.Length ==>
                wps[i] == if i < FirstMalformed(old(wps[..])) then Normalised(old(wps[i])) else old(wps[i])
      ensures ok ==> cmds.waypoints == NormalisedAll(old(wps[..])) && cmds.speeds == old(cmds.speeds)
      ensures !ok ==> unchanged(cmds)
    {
      ghost var original := wps[..];
      var i := 0;
      while i < wps.Length
        invariant 0 <= i <= wps.Length
        invariant forall j :: 0 <= j < i ==> WellFormed(original[j])
        invariant forall j :: 0 <= j < wps.Length ==> wps[j] == if j < i then Normalised(original[j]) else original[j]
        invariant unchanged(cmds)
      {
        if !WellFormed(wps[i]) {
          return false;
        }
        wps[i] := Normalised(wps[i]);
        i := i + 1;
      }
      assert wps[..] == NormalisedAll(original);
      cmds.SetWaypoints(wps[..], currentPos);
      return true;
    }

    /** `move_straight`: the goal becomes the only waypoint. */
    method MoveStraight(cmds: RobotCommands, goal: Waypoint, currentPos: Waypoint) returns (ok: bool)
      modifies cmds
      ensures ok <==> WellFormed(goal)
      ensures ok ==> cmds.waypoints == [Normalised(goal)] && cmds.speeds == old(cmds.speeds)
      ensures !ok ==> unchanged(cmds)
    {
      var wps := new Waypoint[1][goal];
      assert wps[..] == [goal];
      ok := SetWaypoints(cmds, wps, currentPos);
    }

    /** `append_waypoint`: the goal is added after the held waypoints, as
        given (no normalisation). */
    method AppendWaypoint(cmds: RobotCommands, goal: Waypoint, currentPos: Waypoint)
      modifies cmds
      ensures cmds.waypoints == old(cmds.waypoints) + [goal] && cmds.speeds == old(cmds.speeds)
    {
      cmds.AppendWaypoint(goal, currentPos);
    }

    /** `RRT_path_find`: grow the tree from the robot's pose, read the route
        back from the vertex nearest the goal, append the goal and store the
        list through `set_waypoints`. A stored route ends at the goal and,
        when the goal is open, passes `is_path_blocked` on every leg. */
    method RrtPathFind(cmds: RobotCommands, start: Waypoint, goal: Waypoint, occ: Occupancy, norm: Norm,
                       samples: seq<Waypoint>)
      returns (r: PathOutcome)
      requires IsNorm(norm)
      modifies cmds
      ensures r == Replanned || r == NotReached || r == Malformed
      ensures r == NotReached <==> !Grown(occ, norm, start, goal, samples).1
      ensures r == Malformed <==> Grown(occ, norm, start, goal, samples).1 && !WellFormed(goal)
      ensures r != Replanned ==> unchanged(cmds)
      ensures r == Replanned ==> cmds.waypoints == NormalisedAll(Route(occ, norm, start, goal, samples))
      ensures r == Replanned ==>
                cmds.speeds == old(cmds.speeds) && |cmds.waypoints| >= 1 &&
                cmds.waypoints[|cmds.waypoints| - 1] == Normalised(goal) &&
                (forall i :: 0 <= i < |cmds.waypoints| ==> |cmds.waypoints[i].rest| == 1) &&
                (Open(occ, XY(goal)) ==> LegsClear(occ, norm, XY(start), cmds.waypoints))
    {
      var t, reached := GrowTree(occ, norm, start, goal, samples);
      if !reached {
        return NotReached;
      }
      var path, k := ExtractPath(norm, t, start, goal);
      NearestUnique(t.verts, XY(goal), k, Nearest(t.verts, XY(goal)));
      assert path == Route(occ, norm, start, goal, samples);
      RouteAccepted(occ, norm, start, goal, samples);
      var wps := new Waypoint[|path|](i requires 0 <= i < |path| => path[i]);
      assert wps[..] == path;
      var ok := SetWaypoints(cmds, wps, start);
      if !ok {
        return Malformed;
      }
      RouteStored(occ, norm, start, goal, samples);
      return Replanned;
    }

    /** `path_find`: refuse a goal that is taken; go straight when the
        straight segment is clear; keep the held route when the throttle
        holds; otherwise stamp the time and run the tree search. */
    method PathFind(id: nat, cmds: RobotCommands, start: Waypoint, goal: Waypoint, occ: Occupancy, norm: Norm,
                    now: real, samples: seq<Waypoint>)
      returns (r: PathOutcome)
      requires IsNorm(norm)
      modifies this, cmds
      ensures r == GoalBlocked <==> !Open(occ, XY(goal))
      ensures r == Straight <==> Open(occ, XY(goal)) && !Blocked(occ, norm, XY(start), XY(goal)) && WellFormed(goal)
      ensures r == KeptPath <==>
                Open(occ, XY(goal)) && Blocked(occ, norm, XY(start), XY(goal)) &&
                Throttled(occ, norm, start, goal, old(cmds.waypoints), old(lastRrtTimes), id, now)
      ensures r == Malformed <==>
                Open(occ, XY(goal)) && !WellFormed(goal) &&
                (!Blocked(occ, norm, XY(start), XY(goal)) ||
                 (!Throttled(occ, norm, start, goal, old(cmds.waypoints), old(lastRrtTimes), id, now) &&
                  Grown(occ, norm, start, goal, samples).1))
      ensures r == NotReached <==>
                Open(occ, XY(goal)) && Blocked(occ, norm, XY(start), XY(goal)) &&
                !Throttled(occ, norm, start, goal, old(cmds.waypoints), old(lastRrtTimes), id, now) &&
                !Grown(occ, norm, start, goal, samples).1
      ensures r == Replanned <==>
                Open(occ, XY(goal)) && Blocked(occ, norm, XY(start), XY(goal)) &&
                !Throttled(occ, norm, start, goal, old(cmds.waypoints), old(lastRrtTimes), id, now) &&
                Grown(occ, norm, start, goal, samples).1 && WellFormed(goal)
      ensures r == Replanned ==> cmds.waypoints == NormalisedAll(Route(occ, norm, start, goal, samples))
      ensures lastRrtTimes ==
                if Open(occ, XY(goal)) && Blocked(occ, norm, XY(start), XY(goal)) &&
                   !Throttled(occ, norm, start, goal, old(cmds.waypoints), old(lastRrtTimes), id, now)
                then old(lastRrtTimes)[id := now]
                else old(lastRrtTimes)
      ensures r == Straight ==> cmds.waypoints == [Normalised(goal)]
      ensures r != Straight && r != Replanned ==> unchanged(cmds)
      ensures r == Straight || r == KeptPath || r == Replanned ==>
                cmds.speeds == old(cmds.speeds) && cmds.waypoints != [] &&
                XY(cmds.waypoints[|cmds.waypoints| - 1]) == XY(goal) &&
                LegsClear(occ, norm, XY(start), cmds.waypoints)
    {
      if !Open(occ, XY(goal)) {
        return GoalBlocked;
      }
      var straightBlocked := IsPathBlocked(occ, norm, start, goal, 150.0);
      if !straightBlocked {
        var ok := MoveStraight(cmds, goal, start);
        if !ok {
          return Malformed;
        }
        NormalisedShape(goal);
        assert LegStart(XY(start), cmds.waypoints, 0) == XY(start);
        return Straight;
      }
      r := KeepOrReplan(id, cmds, start, goal, occ, norm, now, samples);
    }

    /** The second half of `path_find`, once the straight segment is
        blocked: keep the held route when the throttle holds; otherwise
        stamp the time and run the tree search. */
    method KeepOrReplan(id: nat, cmds: RobotCommands, start: Waypoint, goal: Waypoint, occ: Occupancy, norm: Norm,
                        now: real, samples: seq<Waypoint>)
      returns (r: PathOutcome)
      requires IsNorm(norm)
      modifies this, cmds
      ensures r == KeptPath || r == Replanned || r == NotReached || r == Malformed
      ensures r == KeptPath <==> Throttled(occ, norm, start, goal, old(cmds.waypoints), old(lastRrtTimes), id, now)
      ensures r == Malformed <==>
                !Throttled(occ, norm, start, goal, old(cmds.waypoints), old(lastRrtTimes), id, now) &&
                Grown(occ, norm, start, goal, samples).1 && !WellFormed(goal)
      ensures r == NotReached <==>
                !Throttled(occ, norm, start, goal, old(cmds.waypoints), old(lastRrtTimes), id, now) &&
                !Grown(occ, norm, start, goal, samples).1
      ensures r == Replanned <==>
                !Throttled(occ, norm, start, goal, old(cmds.waypoints), old(lastRrtTimes), id, now) &&
                Grown(occ, norm, start, goal, samples).1 && WellFormed(goal)
      ensures r == Replanned ==> cmds.waypoints == NormalisedAll(Route(occ, norm, start, goal, samples))
      ensures lastRrtTimes ==
                if r == KeptPath then old(lastRrtTimes) else old(lastRrtTimes)[id := now]
      ensures r != Replanned ==> unchanged(cmds)
      ensures r == Replanned ==>
                cmds.speeds == old(cmds.speeds) && cmds.waypoints != [] &&
                XY(cmds.waypoints[|cmds.waypoints| - 1]) == XY(goal) &&
                (Open(occ, XY(goal)) ==> LegsClear(occ, norm, XY(start), cmds.waypoints))
    {
      var currentGoal := GoalPos(cmds);
      var sameGoal := currentGoal.Some? && XY(goal) == XY(currentGoal.value);
      var collides := PathCollides(occ, norm, start, cmds.waypoints);
      var recentlyCalled := id in lastRrtTimes && now - lastRrtTimes[id] < RrtInterval;
      if sameGoal && recentlyCalled && !collides {
        return KeptPath;
      }
      lastRrtTimes := lastRrtTimes[id := now];
      r := RrtPathFind(cmds, start, goal, occ, norm, samples);
      if r == Replanned {
        NormalisedShape(goal);
      }
    }
  }

  /** The route of a search that reached the goal passes
      `set_waypoints`'s length check exactly when the goal does: every
      other pose on it is a planner point [x, y]. */
  lemma RouteAccepted(occ: Occupancy, norm: Norm, start: Waypoint, goal: Waypoint, samples: seq<Waypoint>)
    requires IsNorm(norm)
    ensures var route := Route(occ, norm, start, goal, samples);
      |route| >= 1 && route[|route| - 1] == goal &&
      (FirstMalformed(route) == |route| <==> WellFormed(goal))
  {
    var t := Grown(occ, norm, start, goal, samples).0;
    GrownShape(occ, norm, start, goal, samples);
    var k := Nearest(t.verts, XY(goal));
    ChainWellFormed(t, start, k);
    var route := Route(occ, norm, start, goal, samples);
    assert route == Chain(t, start, k) + [goal];
    assert forall i :: 0 <= i < |route| - 1 ==> WellFormed(route[i]);
  }

  /** The waypoints a reached search stores: the route normalised, ending
      at the goal's normalised pose, every pose [x, y, w], and with an open
      goal every leg passing `is_path_blocked`. */
  lemma RouteStored(occ: Occupancy, norm: Norm, start: Waypoint, goal: Waypoint, samples: seq<Waypoint>)
    requires IsNorm(norm) && Grown(occ, norm, start, goal, samples).1 && WellFormed(goal)
    ensures var wps := NormalisedAll(Route(occ, norm, start, goal, samples));
      |wps| >= 1 && wps[|wps| - 1] == Normalised(goal) &&
      (forall i :: 0 <= i < |wps| ==> |wps[i].rest| == 1) &&
      (Open(occ, XY(goal)) ==> LegsClear(occ, norm, XY(start), wps))
  {
    var t := Grown(occ, norm, start, goal, samples).0;
    GrownShape(occ, norm, start, goal, samples);
    var k := Nearest(t.verts, XY(goal));
    var route := Route(occ, norm, start, goal, samples);
    assert route == Chain(t, start, k) + [goal];
    RouteAccepted(occ, norm, start, goal, samples);
    if Open(occ, XY(goal)) {
      ReachedRouteClear(occ, norm, t, start, goal, k);
    }
    NormalisedRoute(occ, norm, XY(start), route);
    forall i | 0 <= i < |route|
      ensures |NormalisedAll(route)[i].rest| == 1
    {
      NormalisedShape(route[i]);
    }
  }

  /** Every pose on a parent chain is a planner point [x, y]: the chain
      never includes the start vertex. */
  lemma {:induction false} ChainWellFormed(t: Tree, start: Waypoint, v: nat)
    requires TreeShape(t, start) && v < |t.verts|
    ensures forall i :: 0 <= i < |Chain(t, start, v)| ==> Chain(t, start, v)[i].rest == []
  {
    if XY(t.verts[v]) != XY(start) {
      var u := t.prev[v].value;
      ChainWellFormed(t, start, u);
      assert v != 0;
    }
  }
}
