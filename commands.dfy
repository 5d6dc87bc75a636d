/** The per-robot command record the strategy writes into. It belongs to
    the gamestate package, which is not part of this model; this stand-in
    keeps only what the strategy reads and writes: the waypoint list and
    the last commanded speeds. */
module Commands {
  import opened Geometry

  /** Commanded speeds (x, y, w). */
  datatype Speeds = Speeds(x: real, y: real, w: real)

  const Stopped: Speeds := Speeds(0.0, 0.0, 0.0)

  /** `derive_speeds`: the speeds the gamestate derives for a robot from
      its current position and its waypoints. */
  type Deriver = (Waypoint, seq<Waypoint>) -> Speeds

  class RobotCommands {
    var waypoints: seq<Waypoint>
    var speeds: Speeds

    constructor ()
      ensures waypoints == [] && speeds == Stopped
    {
      waypoints := [];
      speeds := Stopped;
    }

    /** `commands.set_waypoints(waypoints, current_pos)`. */
    method SetWaypoints(wps: seq<Waypoint>, currentPos: Waypoint)
      modifies this
      ensures waypoints == wps && speeds == old(speeds)
    {
      waypoints := wps;
    }

    /** `commands.append_waypoint(goal_pos, current_pos)`. */
    method AppendWaypoint(p: Waypoint, currentPos: Waypoint)
      modifies this
      ensures waypoints == old(waypoints) + [p] && speeds == old(speeds)
    {
      waypoints := waypoints + [p];
    }

    /** `commands.set_speeds(x, y, w)`. */
    method SetSpeeds(s: Speeds)
      modifies this
      ensures speeds == s && waypoints == old(waypoints)
    {
      speeds := s;
    }

    /** `commands.derive_speeds(pos)`. */
    method DeriveSpeeds(pos: Waypoint, derive: Deriver)
      modifies this
      ensures speeds == derive(pos, old(waypoints)) && waypoints == old(waypoints)
    {
      speeds := derive(pos, waypoints);
    }
  }
}
