# Robot soccer strategy core, modelled in Dafny

This project models the decision core of a small-size robot soccer
controller written in Python with numpy:

- **Strategy** (`strategy/strategy.py`): the per-robot waypoint glue
  (`set_waypoints`, `move_straight`, `append_waypoint`, `get_goal_pos`),
  the path-finding decision `path_find` with its per-robot replanning
  throttle, the segment check `is_path_blocked`, the tree search
  `RRT_path_find` with `get_nearest_pos` and `extend`, the two
  ball-interception searches, and the per-robot body of one control tick.
- **Roles** (`strategy/roles.py`): the goalie, attacker and defender
  decisions.
- **Vision** (`vision/data_providers.py`): the per-camera frame cache, the
  highest-confidence merge of robot detections, and the ball read.
- **Comms** (`comms/johnrobot.py`): the five-field command string of
  `JohnRobot.move`.
- **Visualization** (`visualization/visualization.py`): field/screen
  coordinate conversion and the window size.

Everything the unseen `gamestate` module answers is a parameter: the
occupancy test `is_position_open` (`occ`), the ball predictor, the robot's
maximum speed, the in-play test, the lost test, `derive_speeds`, goal posts,
and the Roles helpers. Millimetres and seconds are exact reals. The
Euclidean norm is a parameter `norm` that the ghost predicate
`Geometry.IsNorm` pins down (non-negative, its square is dx² + dy²), so no
square root is computed; distances are compared through their squares.
Where the source loops until it finds an answer (the tree search, the
interception searches), the model is given the random samples as a
sequence, or a step bound `fuel`, and says when that ran out.

Files: `geometry.dfy` (points, pose arrays, squares, the norm),
`paths.dfy` (segment sampling, `extend`, nearest vertex, route legs),
`commands.dfy` (a stand-in for the gamestate's per-robot commands object),
`rrt.dfy` (tree growth and read-back), `interception.dfy`, `strategy.dfy`,
`roles.dfy`, `vision.dfy`, `comms.dfy`, `visualization.dfy`.

The headline results: every branch of `path_find` that stores waypoints
leaves a route whose every leg passes `is_path_blocked` and whose last
waypoint is at the goal's x, y (`Strategy.Strategy.PathFind`, built on
`Rrt.ReachedRouteClear`); `extend` never reaches further than four steps
and its edge is never blocked (`Paths.ExtendedEdgeClear`); the camera merge
keeps exactly the first highest-confidence detection per robot
(`Vision.MergedAt`); the command string parses back to its five integers
(`Comms.MoveCommand`); on exact reals the screen conversion round-trips
(`Visualization.ScreenRoundTrip`, `Visualization.FieldRoundTrip`).

Two behaviours of the code are easy to miss. `append_waypoint` does not
normalise a 2-element pose; only `set_waypoints` does, and the model keeps
that difference. A sample at a vertex's own x, y makes `extend` return
`False`, which the tree search does not test for, so the code raises a
TypeError there. The model records that crash as written
(`Rrt.SampleStepAsWritten`), but the tree search it builds on
(`Rrt.SampleStep`, `Rrt.Grow`) skips such a sample instead (see Findings).

## Model

| member | source | states |
|---|---|---|
| Strategy.Strategy.RefreshSpeeds | strategy/strategy.py:91-100 | every lost robot's speeds become (0, 0, 0); every other robot's speeds become `derive_speeds` of its position and its held waypoints; no robot's waypoints change |
| Strategy.Strategy.GoalPos | strategy/strategy.py:180-184 | None exactly when no waypoint is held, else the last held waypoint |
| Strategy.Strategy.SetWaypoints | strategy/strategy.py:190-198 | the list is rewritten in place, each [x, y] becoming [x, y, None] and 3-element poses kept; it succeeds exactly when every pose has 2 or 3 elements, and then the commands hold the rewritten list; otherwise the entries before the first bad one are rewritten and the commands are untouched |
| Strategy.FirstMalformed | strategy/strategy.py:194-195 | the index of the first pose of a length other than 2 or 3 (or the length of the list): every earlier pose is accepted and the pose at that index is not |
| Strategy.NormalisedShape | strategy/strategy.py:196-197 | normalising keeps x, y, yields a 3-element pose, is idempotent, and leaves 3-element poses unchanged |
| Strategy.NormalisedRoute | strategy/strategy.py:194-198 | normalising an accepted route keeps every x, y, so it keeps whether every leg is clear |
| Strategy.LegsClearSameXY | strategy/strategy.py:250-252 | whether every leg of a route is clear depends only on the waypoints' x, y |
| Strategy.Strategy.MoveStraight | strategy/strategy.py:187-188 | the goal, normalised, becomes the only waypoint; a goal of a bad length changes nothing |
| Strategy.Strategy.AppendWaypoint | strategy/strategy.py:200-203 | the goal is added, as given, after the held waypoints |
| Strategy.Strategy.constructor | strategy/strategy.py:36 | no robot has a recorded search time yet |
| Strategy.Strategy.PathFind | strategy/strategy.py:272-300 | a taken goal changes nothing; a clear straight segment makes the goal the only waypoint without touching the timestamps; the search is skipped with no state change exactly when the held goal has the goal's x, y, the last search was under 3 s ago and no held leg is blocked; otherwise this robot's timestamp becomes `now` before the search; a new route is stored exactly when the segment is blocked, the throttle does not hold, the tree search on the given samples reaches the goal and the goal has 2 or 3 elements, and it is then the normalised `Rrt.Route` of those samples; the call fails on the goal's length (`Malformed`, where `set_waypoints` raises AssertionError) exactly when an open goal has a length other than 2 or 3 and is reached either by the clear straight segment or by a search that reached it; the search ends without a route (`NotReached`) exactly when it runs and does not reach the goal; whenever waypoints are stored or kept, they end at the goal's x, y and every leg from the robot passes `is_path_blocked` |
| Strategy.Strategy.KeepOrReplan | strategy/strategy.py:282-300 | with the straight segment blocked: keep the held route exactly when the throttle holds, leaving the timestamps alone; otherwise stamp this robot's time and search; the search fails on the goal's length (`Malformed`) exactly when it reaches the goal and the goal has a length other than 2 or 3, and stores nothing (`NotReached`) exactly when it does not reach the goal; a new route is stored exactly when the search on the samples reaches the goal and the goal has 2 or 3 elements, and it is the normalised `Rrt.Route` of those samples, ending at the goal's x, y with every leg clear when the goal is open |
| Strategy.Strategy.RrtPathFind | strategy/strategy.py:303-342 | nothing is stored exactly when the growth `Rrt.Grown` of the samples does not reach the goal (`NotReached`) or reaches it with a goal of bad length (`Malformed`); otherwise the commands hold exactly the normalised `Rrt.Route`: the parent chain from the vertex nearest the goal, then the goal; it ends at the goal and, when the goal is open, every leg passes `is_path_blocked` |
| Strategy.RouteAccepted | strategy/strategy.py:336-342 | the read-back route ends at the goal, and `set_waypoints` accepts it exactly when the goal has 2 or 3 elements |
| Strategy.RouteStored | strategy/strategy.py:331-342 | after the growth reached the goal, the stored route ends at the normalised goal, holds only 3-element poses, and passes `is_path_blocked` on every leg when the goal is open |
| Strategy.ChainWellFormed | strategy/strategy.py:327-329 | every pose on a parent chain is a planner point [x, y] |
| Paths.IsPathBlocked | strategy/strategy.py:250-270 | false for identical x, y; true for a taken end point; otherwise true exactly when a point at distance 90·i, i = 1..floor(len/90), is taken; the clearance argument is not used |
| Paths.DirectionIsUnit | strategy/strategy.py:259-262 | `path / norm(path)` has length 1 |
| Paths.StepDistance | strategy/strategy.py:266 | the i-th sample point lies exactly 90·i from the start |
| Paths.OpenPrefix | strategy/strategy.py:368-375 | the number of leading open step points: all of them are open and the next one (if any) is not |
| Paths.Extend | strategy/strategy.py:354-377 | the result is `Extended`: False for identical x, y; None when no step is open; else the last open step before the first taken one, at most the fourth |
| Paths.StepSegment | strategy/strategy.py:366-375 | the segment from the start to its k-th step point has length 90·k, k steps and the same direction |
| Paths.ExtendedEdgeClear | strategy/strategy.py:354-377 | a point `extend` reaches is between one and four step sizes from the start, and the edge to it passes `is_path_blocked` |
| Paths.NearestVertex | strategy/strategy.py:344-352 | None exactly for an empty graph; else the first vertex at the least distance from the query |
| Paths.NearestUnique | strategy/strategy.py:344-352 | at most one vertex is the first at the least distance, so the answer of `get_nearest_pos` is determined |
| Paths.Nearest | strategy/strategy.py:344-352 | a non-empty graph has a first vertex at the least distance from the query |
| Paths.PathCollides | strategy/strategy.py:286-291 | true exactly when some consecutive pair of [start] + waypoints is blocked |
| Rrt.GrowTree | strategy/strategy.py:306-334 | the tree and the reached flag are exactly `Rrt.Grown` of the samples: each sample skipped or added as `Rrt.SampleStep` says, stopping at the first vertex near the goal; the tree has the start as root, every parent added before its child, every edge in both neighbour lists and passing `is_path_blocked`; on stopping early the last vertex is within one robot radius of the goal and no earlier vertex was |
| Rrt.SampleIteration | strategy/strategy.py:318-332 | one iteration of the growth loop advances the fold `Rrt.Grow` by one sample: it stops with the new tree exactly when the fold does |
| Rrt.GrowKeeps | strategy/strategy.py:306-334 | growing from any tree of the search's shape with clear edges and no vertex near the goal keeps the shape and the clear edges; when it reports reaching the goal, its last vertex is near the goal; no other vertex after the start is |
| Rrt.AddedVertexKeeps | strategy/strategy.py:327-332 | recording a vertex by a clear edge keeps the tree's shape and clear edges; a vertex near the goal ends the growth with it as the only one near the goal |
| Rrt.GrownShape | strategy/strategy.py:306-334 | the growth of any sample sequence keeps the tree's shape and clear edges; when it reached the goal, its last vertex is within one robot radius of the goal; no other vertex after the start is |
| Rrt.AddedVertexShape | strategy/strategy.py:327-329 | adding a vertex under the nearest vertex keeps the tree's shape |
| Rrt.AddedVertexParents | strategy/strategy.py:327-329 | adding a vertex keeps every parent earlier and linked both ways |
| Rrt.AddedVertexNeighbours | strategy/strategy.py:327-328 | adding a vertex keeps every neighbour list made only of parent links |
| Rrt.ChainLegsClear | strategy/strategy.py:336-341 | the read-back route from any vertex passes `is_path_blocked` on every leg, ends at that vertex, and is empty exactly when the vertex is at the start's x, y |
| Rrt.Reversed | strategy/strategy.py:341 | the reversal has the same length and the elements in opposite order |
| Rrt.ExtractPath | strategy/strategy.py:336-342 | the route is the reversed parent chain from the vertex nearest the goal, followed by the goal |
| Rrt.ReachedRouteClear | strategy/strategy.py:331-342 | after the search reached the goal, the route with the goal appended passes `is_path_blocked` on every leg when the goal is open |
| Rrt.SampleAtStartCrashes | strategy/strategy.py:322-327 | a free sample at the start's x, y with another heading is not a vertex, has the start as nearest vertex, and the iteration as written crashes |
| Rrt.SampleAtStartExample | strategy/strategy.py:311-314 | poses (0, 0, 0.0) and (0, 0, 1) share x, y and differ |
| Rrt.SampleStepAsWritten | strategy/strategy.py:318-329 | an iteration as written crashes exactly when a free sample that is not yet a vertex has the nearest vertex's x, y; in every other case it does what `Rrt.SampleStep` does |
| Rrt.SampleStep | strategy/strategy.py:318-329 | one iteration with `False` skipped never crashes, and an added vertex hangs off the nearest vertex by an unblocked edge |
| Interception.FirstReachUnique | strategy/strategy.py:209-216 | there is at most one first reachable grid step |
| Interception.FirstReachStep | strategy/strategy.py:406-416 | the first grid step at which the predicted ball is reachable, or none within the bound |
| Interception.BallInterceptionPoint | strategy/strategy.py:205-216 | the prediction at the first 0.05 s step at which the robot can reach the ball |
| Interception.WindowEndStep | strategy/strategy.py:417-432 | the first step from the start of the window at which the ball is out of reach, has stopped, or is out of play |
| Interception.WindowLastReachable | strategy/strategy.py:422-430 | the window's last point is in play and reachable at some time at which the ball is predicted there; that time need not be the grid time of the last point's own step |
| Interception.AnsweredNotExhausted | strategy/strategy.py:406-432 | a first reachable step that is out of play, or whose window ends within the bound, means the search did not run out of steps |
| Interception.EndlessExhausted | strategy/strategy.py:417-432 | an in-play first reachable step whose window does not end within the bound means the search ran out of steps |
| Interception.WindowAnswered | strategy/strategy.py:417-432 | a window that ends first at a step within the bound is an answer: its last point is the prediction one step before, in play and reachable |
| Interception.WindowFrom | strategy/strategy.py:417-432 | from an in-play first reachable step: out of steps exactly when the bound is exhausted; otherwise the first point and the prediction one step before the first step at which the window ends |
| Interception.InterceptRange | strategy/strategy.py:396-432 | None exactly when the first reachable 0.1 s step is out of play; `OutOfFuel` exactly when no step below the bound is reachable, or the first reachable step is in play and the window does not end within the bound after it; otherwise that first point and the prediction one step before the window ends, which is in play and reachable at some predicted time |
| Roles.Other | strategy/roles.py:17 | the other team is never the same team |
| Roles.Goalie | strategy/roles.py:11-47 | the goalie only moves or idles, and moves urgently exactly when a shot is coming at the goal it keeps |
| Roles.GoalieOppositeSwap | strategy/roles.py:15-17 | keeping the opposite goal is keeping the other team's goal |
| Roles.GoalieCases | strategy/roles.py:18-47 | shot: urgent move to the safest interception point; ball behind: move to (first post x, own y, own heading); else move to the blocking point at 600 unless it is all zeros |
| Roles.Attacker | strategy/roles.py:49-65 | kick exactly with the ball held and in range, at 1200; get the ball exactly without it and with the ball's position legal, charging at 1200; never a move |
| Roles.AttackerAimsAtCentre | strategy/roles.py:58-60 | the kick aims at the point halfway between the attack posts |
| Roles.Defender | strategy/roles.py:67-73 | a plain move to the blocking point at the robot's distance from the defended goal's centre |
| Roles.DefenderAtCentre | strategy/roles.py:67-73 | a defender at (0, 0) guarding posts at x = -4500, y = ±500 blocks at 4500 |
| Vision.SslVisionDataProvider.constructor | vision/data_providers.py:22-27 | the cache starts with empty frames for cameras 0 to 3 |
| Vision.SslVisionDataProvider.StoreDetection | vision/data_providers.py:68-69 | storing a frame replaces only its camera's entry; a new camera is added at the end of the order; the ball read is unchanged by a frame of any camera but 0, and a frame of camera 0 sets it to that frame's first ball |
| Vision.OfferAll | vision/data_providers.py:106-116 | offering one camera's detections extends the merge by them, in order |
| Vision.SslVisionDataProvider.RobotPositions | vision/data_providers.py:98-117 | None exactly for a team other than blue or yellow; else the merge of that team's detections over the cameras in cache order |
| Vision.OfferEffect | vision/data_providers.py:106-113 | offering a detection touches only its robot id; the id is held afterwards exactly when it was held or the confidence is positive, and what is held is the more confident detection, the earlier one on a tie |
| Vision.MergedEntries | vision/data_providers.py:99-117 | every entry of the merge is one of the offered detections, stored under its own robot id, with a positive confidence |
| Vision.MergedAt | vision/data_providers.py:106-113 | an id is kept exactly when some detection of it has a positive confidence, and the kept detection is the first with the highest confidence |
| Vision.RobotPositionsSpec | vision/data_providers.py:98-117 | no kept detection has a confidence of 0 or less, each is stored under its own id, and each is the first highest-confidence one |
| Vision.DetectionFromSomeCamera | vision/data_providers.py:100-106 | every merged detection comes from some cached camera's list for the team |
| Vision.SslVisionDataProvider.BallPosition | vision/data_providers.py:119-129 | None exactly when camera 0 sees no ball, else the first ball camera 0 sees |
| Vision.BallOf | vision/data_providers.py:122-129 | None exactly for a frame with no ball, else the frame's first ball |
| Comms.Channel | comms/johnrobot.py:20-22 | every channel is within [-255, 255]; inside that range it is the truncated input, beyond it the nearer bound |
| Comms.DecimalRoundTrip | comms/johnrobot.py:24 | an integer formatted in decimal reads back as itself |
| Comms.SplitJoin | comms/johnrobot.py:24 | splitting at commas undoes joining fields without commas |
| Comms.MoveCommand | comms/johnrobot.py:15-24 | the command, split at commas, reads back as exactly -1, lateral, forward, w, time_ms, in that order |
| Comms.Millis | comms/johnrobot.py:23 | the duration in milliseconds truncated toward zero: within one millisecond of the exact value, and no further from zero |
| Comms.ChannelsInRange | comms/johnrobot.py:18-22 | every command has five fields, the first -1 and the three channels within [-255, 255] |
| Comms.DefaultDuration | comms/johnrobot.py:15 | the default 0.5 s duration is sent as 500 ms |
| Visualization.ScreenSize | visualization/visualization.py:41-44 | the window is 1380 by 980 pixels |
| Visualization.FieldToScreen | visualization/visualization.py:87-101 | a pose converts exactly when it has 2 or 3 elements |
| Visualization.ScreenToField | visualization/visualization.py:104-114 | on exact reals, the field point shifted, scaled, buffered and flipped again gives back the pixel coordinates |
| Visualization.ScreenRoundTrip | visualization/visualization.py:104-114 | on exact reals, converting a pixel to the field and back gives the same pixel; in doubles this can fail (pixel x 17 comes back as 16) |
| Visualization.FieldRoundTrip | visualization/visualization.py:87-114 | converting a field position to the screen and back moves each coordinate by less than 1/0.15 mm |
| Visualization.ScreenYAntitone | visualization/visualization.py:99-100 | a larger field y never gives a larger pixel y |
| Visualization.PoseHeadingIgnored | visualization/visualization.py:88-90 | the heading of a 3-element pose does not affect its pixel |
| Visualization.FieldInsideWindow | visualization/visualization.py:91-100 | every field point lands inside the window, below the button strip |

## Left out

- Threads, sleeps, the start barrier, the overrun warnings and prints of the control, vision and visualizer loops: one control tick is modelled, with the current time passed in as `now`.
- The two reads of `time.time()` in `path_find` (lines 295 and 299) are one value `now`.
- Floating point: all arithmetic is exact on reals; the interception searches use the grid time k·dt where the source adds dt repeatedly.
- The `gamestate` module, `sslclient`, `OmniComms` (`send`, `close`) and pygame rendering are not part of this model; their answers are parameters, and `Commands.RobotCommands` keeps only the waypoints and speeds the strategy touches.
- The occupancy oracle sees only a point's x, y and the clearance; the robot and team it is asked about are fixed per call.
- `np.random` sampling in `RRT_path_find`: the samples are a given sequence, and `lim`/`cnt` are left out because they never bound the loop.
- Rrt.GrowTree: stops when the samples run out, where the source would keep sampling; `RRT_path_find` then stores nothing (`NotReached`).
- Rrt.GrowTree: vertices are numbered, so two vertices may share a position; the source keys `graph` and `prev` by pose tuples and would overwrite the entry of an earlier vertex at the same point.
- Interception.BallInterceptionPoint: searches at most `fuel` steps, where the source loops until it finds a reachable point.
- Interception.InterceptRange: returns `OutOfFuel` when either of its searches runs past `fuel` steps; the source loops on.
- Rrt.GrowTree: skips a sample at the nearest vertex's x, y, where the source raises a TypeError on `tuple(False)`; the crash as written is `Rrt.SampleStepAsWritten`.
- Visualization.ScreenRoundTrip: holds on exact reals only; in doubles the unscaling and rescaling can land just below a whole pixel, so that pixel x 17 comes back as 16 after truncation.
- `Commands.RobotCommands` assumes of the unseen gamestate module that `set_waypoints` stores the list exactly as given.
- `Commands.RobotCommands` assumes of the unseen gamestate module that `append_waypoint` appends the pose as given, without normalising it.
- `Commands.RobotCommands` assumes of the unseen gamestate module that `derive_speeds` and `set_speeds` never change the waypoints.
- Strategy.Strategy.RefreshSpeeds: requires the commands objects of different robots to be distinct, which the gamestate provides but the source does not check.
- Roles.Goalie: the urgent move is the command the goalie means to issue; the `is_urgent` keyword it passes is not accepted by `move_straight` (strategy/strategy.py:187).
- The second `defender` (strategy/roles.py:75-82), which shadows the first and uses an undefined `ball_pos`, and the `get_behind_ball` stub.
- `face_pos`, `robot_face_pos`, `robot_face_ball`, `best_goalie_pos` and `best_kick_pos` (trigonometry), `UI` and `entry_video` (demo modes).
- Python's `int()` of NaN or infinity, which raises; reals have neither.

## Findings

| source | as written | input that shows it | evidently intended | confidence | as-written member | corrected member |
|---|---|---|---|---|---|---|
| strategy/strategy.py:358-359 | `extend` returns `False` when the sample has the nearest vertex's x, y; `RRT_path_find` tests only `is None` (line 324) and then evaluates `tuple(False)` (line 327), which raises TypeError | robot at pose (0, 0, 1) on an empty field; the sample (0, 0, 0.0) is free, is not a vertex, and its nearest vertex is the start | skip the sample, as when `extend` finds no step | not executed | Rrt.SampleAtStartCrashes | Rrt.SampleStep |
