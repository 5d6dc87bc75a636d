/** The role decisions of strategy/roles.py: goalie, attacker and defender.
    Each looks at what the gamestate reports and ends in one command for
    the robot; here each is a function from the gamestate's answers to the
    command it issues. The answers for the robot in question are the
    fields of `View`; the helpers of the unseen Roles class
    (`safest_intercept_point`, `block_goal_center_pos`,
    `within_shooting_range`) are oracles among them. */
module Roles {
  import opened Geometry

  datatype Team = Blue | Yellow

  /** `'yellow' if team == 'blue' else 'blue'`. */
  function Other(t: Team): (o: Team)
    ensures o != t
  {
    if t == Blue then Yellow else Blue
  }

  /** The command a role issues for its robot. */
  datatype Action =
    | Idle                                     // no command this time
    | Move(target: Waypoint, urgent: bool)      // `move_straight(robot_id, target[, is_urgent])`
    | PrepareAndKick(aim: Point, speed: int)    // `prepare_and_kick(robot_id, aim, speed)`
    | GetBall(chargeDuring: int)               // `get_ball(robot_id, charge_during=...)`

  /** What the gamestate and the Roles helpers answer about the robot. */
  datatype View = View(
    shotComing: Team -> Option<Point>,        // `is_shot_coming(team)`
    safestIntercept: Waypoint,                // `safest_intercept_point(robot_id)`
    ballBehindGoalie: bool,                   // `is_ball_behind_goalie()`
    defenseGoal: Team -> (Point, Point),      // `get_defense_goal(team)`: the two posts
    attackGoal: Team -> (Point, Point),       // `get_attack_goal(team)`
    position: Team -> (real, real, real),     // `get_robot_position(team, robot_id)`: x, y, w
    blockGoalCenter: (real, Team) -> Waypoint, // `block_goal_center_pos(dist, ball_pos=None, team=team)`
    ballInDribbler: Team -> bool,             // `ball_in_dribbler(team, robot_id)`
    withinShootingRange: Team -> bool,        // `within_shooting_range(team, robot_id)`
    ballPosition: Point,                      // `get_ball_position()`
    isPosLegal: (Point, Team) -> bool         // `is_pos_legal(pos, team, robot_id)`
  )

  /** `GOALIE_OFFSET`. */
  const GoalieOffset: real := 600.0

  /** `shoot_velocity`. */
  const ShootVelocity: int := 1200

  /** The team whose goal the goalie keeps. */
  function GoalieTeam(team: Team, isOppositeGoal: bool): Team
  {
    if isOppositeGoal then Other(team) else team
  }

  /** `goalie`: with a shot coming, move urgently to the safest interception
      point; else, with the ball behind the goalie, move to the first
      post's x at the goalie's own y and heading; else move to the point
      blocking the goal centre at the goalie offset, unless that point is
      all zeros. */
  function Goalie(team: Team, isOppositeGoal: bool, v: View): (a: Action)
    ensures a.Idle? || a.Move?
    ensures a.Move? && a.urgent <==> v.shotComing(GoalieTeam(team, isOppositeGoal)).Some?
  {
    var t := GoalieTeam(team, isOppositeGoal);
    if v.shotComing(t).Some? then
      Move(v.safestIntercept, true)
    else if v.ballBehindGoalie then
      var (_, y, w) := v.position(t);
      Move(Pose(v.defenseGoal(t).0.x, y, w), false)
    else
      var goaliePos := v.blockGoalCenter(GoalieOffset, t);
      if AnyNonzero(goaliePos) then Move(goaliePos, false) else Idle
  }

  /** Playing the opposite goal is playing the other team's goal: the
      shot check, the posts, the goalie's position and the blocking point
      are all asked about the other team. */
  lemma GoalieOppositeSwap(team: Team, v: View)
    ensures Goalie(team, true, v) == Goalie(Other(team), false, v)
    ensures Goalie(Other(team), true, v) == Goalie(team, false, v)
  {
    assert Other(Other(team)) == team;
  }

  /** The goalie's three situations, each with the command it leads to. */
  lemma GoalieCases(team: Team, isOppositeGoal: bool, v: View)
    ensures var t := GoalieTeam(team, isOppositeGoal);
      var a := Goalie(team, isOppositeGoal, v);
      (v.shotComing(t).Some? ==> a == Move(v.safestIntercept, true)) &&
      (v.shotComing(t).None? && v.ballBehindGoalie ==>
         a.Move? && !a.urgent && XY(a.target) == Point(v.defenseGoal(t).0.x, v.position(t).1) &&
         a.target.rest == [Some(v.position(t).2)]) &&
      (v.shotComing(t).None? && !v.ballBehindGoalie ==>
         (a.Idle? <==> !AnyNonzero(v.blockGoalCenter(GoalieOffset, t))) &&
         (a.Move? ==> a == Move(v.blockGoalCenter(GoalieOffset, t), false)))
  {
  }

  /** `attacker`: with the ball in the dribbler and within shooting range,
      kick toward the centre of the attack goal at the shooting velocity;
      with the ball but out of range, do nothing; without the ball, go and
      get it (charging meanwhile) if its position is legal for the robot. */
  function Attacker(team: Team, v: View): (a: Action)
    ensures a.PrepareAndKick? <==> v.ballInDribbler(team) && v.withinShootingRange(team)
    ensures a.GetBall? <==> !v.ballInDribbler(team) && v.isPosLegal(v.ballPosition, team)
    ensures a.PrepareAndKick? ==> a.speed == ShootVelocity
    ensures a.GetBall? ==> a.chargeDuring == ShootVelocity
    ensures !a.Move?
  {
    if v.ballInDribbler(team) then
      if v.withinShootingRange(team) then
        var goal := v.attackGoal(team);
        PrepareAndKick(Midpoint(goal.0, goal.1), ShootVelocity)
      else
        Idle
    else if v.isPosLegal(v.ballPosition, team) then
      GetBall(ShootVelocity)
    else
      Idle
  }

  /** The attacker's kick target is equally far from both attack posts,
      and on the segment between them. */
  lemma AttackerAimsAtCentre(team: Team, v: View)
    requires v.ballInDribbler(team) && v.withinShootingRange(team)
    ensures var a := Attacker(team, v);
      var posts := v.attackGoal(team);
      DistSq(posts.0, a.aim) == DistSq(a.aim, posts.1) &&
      a.aim.x - posts.0.x == posts.1.x - a.aim.x && a.aim.y - posts.0.y == posts.1.y - a.aim.y
  {
    var posts := v.attackGoal(team);
    var m := Midpoint(posts.0, posts.1);
    assert m.x - posts.0.x == posts.1.x - m.x && m.y - posts.0.y == posts.1.y - m.y;
  }

  /** `defender` (the first definition): block the goal centre at the
      robot's own distance from the centre of the defended goal, and move
      straight there. */
  function Defender(norm: Norm, team: Team, v: View): (a: Action)
    requires IsNorm(norm)
    ensures a.Move? && !a.urgent
    ensures exists d: real :: 0.0 <= d && Sq(d) == DistSq(DefendedCentre(team, v), RobotXY(team, v)) &&
                              a.target == v.blockGoalCenter(d, team)
  {
    var maxDistance := SegmentLength(norm, DefendedCentre(team, v), RobotXY(team, v));
    Move(v.blockGoalCenter(maxDistance, team), false)
  }

  /** The midpoint of the defended goal's posts. */
  function DefendedCentre(team: Team, v: View): Point
  {
    Midpoint(v.defenseGoal(team).0, v.defenseGoal(team).1)
  }

  /** `get_robot_position(team, robot_id)[0:2]`. */
  function RobotXY(team: Team, v: View): Point
  {
    Point(v.position(team).0, v.position(team).1)
  }

  /** A defender at the field centre defending a goal whose posts are at
      x = -4500, y = -500 and y = 500 blocks at distance 4500. */
  lemma DefenderAtCentre(norm: Norm, team: Team, v: View)
    requires IsNorm(norm)
    requires v.defenseGoal(team) == (Point(-4500.0, 500.0), Point(-4500.0, -500.0))
    requires v.position(team).0 == 0.0 && v.position(team).1 == 0.0
    ensures Defender(norm, team, v) == Move(v.blockGoalCenter(4500.0, team), false)
  {
    var c := DefendedCentre(team, v);
    assert c == Point(-4500.0, 0.0);
    var d := SegmentLength(norm, c, RobotXY(team, v));
    assert DistSq(c, RobotXY(team, v)) == Sq(4500.0) + Sq(0.0);
    RootUnique(d, 4500.0);
  }
}
