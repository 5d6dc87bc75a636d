/** The two ball-interception searches of strategy/strategy.py. Both step
    time forward on a fixed grid, ask the gamestate's ball predictor where
    the ball will be, and compare the robot's distance to it with how far
    the robot can travel at its maximum speed by then.

    The predictor `predict_ball_pos`, the maximum speed `robot_max_speed`
    and the in-play test `is_in_play` are oracles. The source loops until
    it finds an answer; here each search runs at most `fuel` grid steps. */
module Interception {
  import opened Geometry

  type Predictor = real -> Point

  /** The grid of `get_ball_interception_point`. */
  const PointStep: real := 0.05

  /** The grid of `intercept_range`. */
  const RangeStep: real := 0.1

  /** Time at grid step k. */
  function Time(k: nat, dt: real): real
  {
    k as real * dt
  }

  /** `separation_distance <= time * max_speed`: the robot at `robot` can
      be at `ball` by time t. */
  ghost predicate Reachable(norm: Norm, robot: Point, ball: Point, t: real, maxSpeed: real)
    requires IsNorm(norm)
  {
    SegmentLength(norm, ball, robot) <= t * maxSpeed
  }

  /** The predicted ball is reachable at grid step k. */
  ghost predicate ReachAt(norm: Norm, robot: Point, predict: Predictor, maxSpeed: real, dt: real, k: nat)
    requires IsNorm(norm)
  {
    Reachable(norm, robot, predict(Time(k, dt)), Time(k, dt), maxSpeed)
  }

  /** Grid step k is the first at which the predicted ball is reachable. */
  ghost predicate FirstReach(norm: Norm, robot: Point, predict: Predictor, maxSpeed: real, dt: real, k: nat)
    requires IsNorm(norm)
  {
    ReachAt(norm, robot, predict, maxSpeed, dt, k) &&
    forall j: nat :: j < k ==> !ReachAt(norm, robot, predict, maxSpeed, dt, j)
  }

  /** There is at most one first reachable step. */
  lemma FirstReachUnique(norm: Norm, robot: Point, predict: Predictor, maxSpeed: real, dt: real, k1: nat, k2: nat)
    requires IsNorm(norm)
    requires FirstReach(norm, robot, predict, maxSpeed, dt, k1) && FirstReach(norm, robot, predict, maxSpeed, dt, k2)
    ensures k1 == k2
  {
  }

  /** The first loop of both searches: step time from 0 on a grid of `dt`
      until the predicted ball is reachable. */
  method FirstReachStep(norm: Norm, robot: Point, predict: Predictor, maxSpeed: real, dt: real, fuel: nat)
    returns (r: Option<nat>)
    requires IsNorm(norm)
    ensures r.Some? ==> r.value < fuel && FirstReach(norm, robot, predict, maxSpeed, dt, r.value)
    ensures r.None? ==> forall k: nat :: k < fuel ==> !ReachAt(norm, robot, predict, maxSpeed, dt, k)
  {
    var time := 0.0;
    var k: nat := 0;
    while k < fuel
      invariant k <= fuel && time == Time(k, dt)
      invariant forall j: nat :: j < k ==> !ReachAt(norm, robot, predict, maxSpeed, dt, j)
    {
      var pos := predict(time);
      var separation := SegmentLength(norm, pos, robot);
      if separation <= time * maxSpeed {
        return Some(k);
      }
      time := time + dt;
      k := k + 1;
    }
    return None;
  }

  /** `get_ball_interception_point`: the predicted ball position at the
      first step of the 0.05 s grid at which the robot can reach it. */
  method BallInterceptionPoint(norm: Norm, robot: Waypoint, predict: Predictor, maxSpeed: real, fuel: nat)
    returns (r: Option<Point>)
    requires IsNorm(norm)
    ensures r.Some? ==>
              exists k: nat :: k < fuel && r.value == predict(Time(k, PointStep)) &&
                               FirstReach(norm, XY(robot), predict, maxSpeed, PointStep, k)
    ensures r.None? ==> forall k: nat :: k < fuel ==> !ReachAt(norm, XY(robot), predict, maxSpeed, PointStep, k)
  {
    var k := FirstReachStep(norm, XY(robot), predict, maxSpeed, PointStep, fuel);
    if k.None? {
      return None;
    }
    return Some(predict(Time(k.value, PointStep)));
  }

  /** What `intercept_range` returns: None, a (first, last) pair, or (in
      the model only) no answer within the step bound. */
  datatype Window = NoWindow | Window(first: Point, last: Point) | OutOfFuel

  /** The second loop of `intercept_range` stops at grid step e when the
      ball there is out of reach, has not moved since the step before, or
      is out of play. */
  ghost predicate EndsAt(norm: Norm, robot: Point, predict: Predictor, maxSpeed: real,
                         inPlay: Point -> bool, e: nat)
    requires IsNorm(norm)
  {
    var pos := predict(Time(e, RangeStep));
    !Reachable(norm, robot, pos, Time(e, RangeStep), maxSpeed) ||
    predict(Time(e, RangeStep) - RangeStep) == pos ||
    !inPlay(pos)
  }

  /** The second loop of `intercept_range`: step time on, from grid step k,
      until the window ends. */
  method WindowEndStep(norm: Norm, robot: Point, predict: Predictor, maxSpeed: real,
                       inPlay: Point -> bool, k: nat, fuel: nat)
    returns (r: Option<nat>)
    requires IsNorm(norm)
    ensures r.Some? ==> k <= r.value < k + fuel && EndsAt(norm, robot, predict, maxSpeed, inPlay, r.value)
    ensures r.Some? ==> forall m: nat :: k <= m < r.value ==> !EndsAt(norm, robot, predict, maxSpeed, inPlay, m)
    ensures r.None? ==> forall m: nat :: k <= m < k + fuel ==> !EndsAt(norm, robot, predict, maxSpeed, inPlay, m)
  {
    var time := Time(k, RangeStep);
    var e: nat := k;
    while e < k + fuel
      invariant k <= e <= k + fuel
      invariant time == Time(e, RangeStep)
      invariant forall m: nat :: k <= m < e ==> !EndsAt(norm, robot, predict, maxSpeed, inPlay, m)
    {
      var pos := predict(time);
      var separation := SegmentLength(norm, pos, robot);
      var last := predict(time - RangeStep);
      var cantReach := separation > time * maxSpeed;
      var stoppedMoving := last == pos;
      var stillInPlay := inPlay(pos);
      if cantReach || stoppedMoving || !stillInPlay {
        return Some(e);
      }
      time := time + RangeStep;
      e := e + 1;
    }
    return None;
  }

  /** The window's last point is in play and reachable: either the window
      ended at its first step (the ball had stopped, so the last point is
      the first one) or the step before the end passed all three tests. */
  lemma WindowLastReachable(norm: Norm, robot: Point, predict: Predictor, maxSpeed: real,
                            inPlay: Point -> bool, k: nat, e: nat)
    requires IsNorm(norm) && k <= e
    requires ReachAt(norm, robot, predict, maxSpeed, RangeStep, k) && inPlay(predict(Time(k, RangeStep)))
    requires EndsAt(norm, robot, predict, maxSpeed, inPlay, e)
    requires forall m: nat :: k <= m < e ==> !EndsAt(norm, robot, predict, maxSpeed, inPlay, m)
    ensures var last := predict(Time(e, RangeStep) - RangeStep);
      inPlay(last) && exists t: real :: last == predict(t) && Reachable(norm, robot, last, t, maxSpeed)
  {
    var last := predict(Time(e, RangeStep) - RangeStep);
    if e == k {
      assert last == predict(Time(k, RangeStep));
      assert Reachable(norm, robot, last, Time(k, RangeStep), maxSpeed);
    } else {
      var p: nat := e - 1;
      assert !EndsAt(norm, robot, predict, maxSpeed, inPlay, p);
      assert Time(p, RangeStep) == Time(e, RangeStep) - RangeStep;
      assert Reachable(norm, robot, last, Time(p, RangeStep), maxSpeed);
    }
  }

  /** The step bound runs out before the range search answers: no grid
      step below the bound is reachable, or the first reachable step is in
      play and the window does not end within the bound after it. */
  ghost predicate Exhausted(norm: Norm, robot: Point, predict: Predictor, maxSpeed: real,
                            inPlay: Point -> bool, fuel: nat)
    requires IsNorm(norm)
  {
    (forall k: nat :: k < fuel ==> !ReachAt(norm, robot, predict, maxSpeed, RangeStep, k)) ||
    exists k: nat :: k < fuel && FirstReach(norm, robot, predict, maxSpeed, RangeStep, k) &&
                     inPlay(predict(Time(k, RangeStep))) &&
                     forall m: nat :: k <= m < k + fuel ==> !EndsAt(norm, robot, predict, maxSpeed, inPlay, m)
  }

  /** A first reachable step below the bound that is out of play, or whose
      window ends within the bound, is an answer: the bound was not exhausted. */
  lemma AnsweredNotExhausted(norm: Norm, robot: Point, predict: Predictor, maxSpeed: real,
                             inPlay: Point -> bool, fuel: nat, k: nat)
    requires IsNorm(norm) && k < fuel && FirstReach(norm, robot, predict, maxSpeed, RangeStep, k)
    requires !inPlay(predict(Time(k, RangeStep))) ||
             exists e: nat :: k <= e < k + fuel && EndsAt(norm, robot, predict, maxSpeed, inPlay, e)
    ensures !Exhausted(norm, robot, predict, maxSpeed, inPlay, fuel)
  {
    forall k': nat | k' < fuel && FirstReach(norm, robot, predict, maxSpeed, RangeStep, k')
      ensures k' == k
    {
      FirstReachUnique(norm, robot, predict, maxSpeed, RangeStep, k, k');
    }
  }

  /** The range window that starts at the first reachable step k ends at
      step e, within the step bound: e is the first step from k on at which
      the second loop stops. */
  ghost predicate EndsFirstAt(norm: Norm, robot: Point, predict: Predictor, maxSpeed: real,
                              inPlay: Point -> bool, fuel: nat, k: nat, e: nat)
    requires IsNorm(norm)
  {
    k <= e < k + fuel && EndsAt(norm, robot, predict, maxSpeed, inPlay, e) &&
    forall m: nat :: k <= m < e ==> !EndsAt(norm, robot, predict, maxSpeed, inPlay, m)
  }

  /** The window (first, last) is what `intercept_range` answers when its
      first reachable step is k: first is the prediction at step k and is in
      play, last is the prediction one step before the first step e at
      which the window ends, and last is in play and reachable at some time
      at which the ball is predicted there. */
  ghost predicate WindowAnswer(norm: Norm, robot: Point, predict: Predictor, maxSpeed: real,
                               inPlay: Point -> bool, fuel: nat, k: nat, first: Point, last: Point)
    requires IsNorm(norm)
  {
    first == predict(Time(k, RangeStep)) && inPlay(first) &&
    (exists e: nat :: EndsFirstAt(norm, robot, predict, maxSpeed, inPlay, fuel, k, e) &&
                      last == predict(Time(e, RangeStep) - RangeStep)) &&
    inPlay(last) && exists t: real :: last == predict(t) && Reachable(norm, robot, last, t, maxSpeed)
  }

  /** The second half of `intercept_range`, once the first reachable step k
      is known to be in play: step on until the window ends. */
  method WindowFrom(norm: Norm, robot: Point, predict: Predictor, maxSpeed: real,
                    inPlay: Point -> bool, fuel: nat, k: nat)
    returns (r: Window)
    requires IsNorm(norm) && k < fuel && FirstReach(norm, robot, predict, maxSpeed, RangeStep, k)
    requires inPlay(predict(Time(k, RangeStep)))
    ensures r != NoWindow
    ensures r == OutOfFuel <==> Exhausted(norm, robot, predict, maxSpeed, inPlay, fuel)
    ensures r.Window? ==> WindowAnswer(norm, robot, predict, maxSpeed, inPlay, fuel, k, r.first, r.last)
  {
    var end := WindowEndStep(norm, robot, predict, maxSpeed, inPlay, k, fuel);
    if end.None? {
      EndlessExhausted(norm, robot, predict, maxSpeed, inPlay, fuel, k);
      return OutOfFuel;
    }
    var e := end.value;
    WindowAnswered(norm, robot, predict, maxSpeed, inPlay, fuel, k, e);
    r := Window(predict(Time(k, RangeStep)), predict(Time(e, RangeStep) - RangeStep));
  }

  /** A window that does not end within the bound exhausts it. */
  lemma EndlessExhausted(norm: Norm, robot: Point, predict: Predictor, maxSpeed: real,
                         inPlay: Point -> bool, fuel: nat, k: nat)
    requires IsNorm(norm) && k < fuel && FirstReach(norm, robot, predict, maxSpeed, RangeStep, k)
    requires inPlay(predict(Time(k, RangeStep)))
    requires forall m: nat :: k <= m < k + fuel ==> !EndsAt(norm, robot, predict, maxSpeed, inPlay, m)
    ensures Exhausted(norm, robot, predict, maxSpeed, inPlay, fuel)
  {
  }

  /** A window that ends first at step e within the bound answers the
      search, and its last point is in play and reachable. */
  lemma WindowAnswered(norm: Norm, robot: Point, predict: Predictor, maxSpeed: real,
                       inPlay: Point -> bool, fuel: nat, k: nat, e: nat)
    requires IsNorm(norm) && k < fuel && FirstReach(norm, robot, predict, maxSpeed, RangeStep, k)
    requires inPlay(predict(Time(k, RangeStep)))
    requires k <= e < k + fuel && EndsAt(norm, robot, predict, maxSpeed, inPlay, e)
    requires forall m: nat :: k <= m < e ==> !EndsAt(norm, robot, predict, maxSpeed, inPlay, m)
    ensures !Exhausted(norm, robot, predict, maxSpeed, inPlay, fuel)
    ensures WindowAnswer(norm, robot, predict, maxSpeed, inPlay, fuel, k,
                         predict(Time(k, RangeStep)), predict(Time(e, RangeStep) - RangeStep))
  {
    AnsweredNotExhausted(norm, robot, predict, maxSpeed, inPlay, fuel, k);
    WindowLastReachable(norm, robot, predict, maxSpeed, inPlay, k, e);
    assert EndsFirstAt(norm, robot, predict, maxSpeed, inPlay, fuel, k, e);
  }

  /** `intercept_range`: find the first reachable step of the 0.1 s grid;
      give up (None) if the ball is out of play there; otherwise keep
      stepping from that same time until the window ends, and return the
      first point together with the prediction one step before the end. */
  method InterceptRange(norm: Norm, robot: Waypoint, predict: Predictor, maxSpeed: real,
                        inPlay: Point -> bool, fuel: nat)
    returns (r: Window)
    requires IsNorm(norm)
    ensures r == NoWindow <==>
              exists k: nat :: k < fuel && !inPlay(predict(Time(k, RangeStep))) &&
                               FirstReach(norm, XY(robot), predict, maxSpeed, RangeStep, k)
    ensures r == OutOfFuel <==> Exhausted(norm, XY(robot), predict, maxSpeed, inPlay, fuel)
    ensures r.Window? ==>
              exists k: nat :: k < fuel && FirstReach(norm, XY(robot), predict, maxSpeed, RangeStep, k) &&
                               WindowAnswer(norm, XY(robot), predict, maxSpeed, inPlay, fuel, k, r.first, r.last)
  {
    var rp := XY(robot);
    var start := FirstReachStep(norm, rp, predict, maxSpeed, RangeStep, fuel);
    if start.None? {
      return OutOfFuel;
    }
    var k := start.value;
    if !inPlay(predict(Time(k, RangeStep))) {
      AnsweredNotExhausted(norm, rp, predict, maxSpeed, inPlay, fuel, k);
      return NoWindow;
    }
    forall k': nat | k' < fuel && FirstReach(norm, rp, predict, maxSpeed, RangeStep, k')
      ensures k' == k
    {
      FirstReachUnique(norm, rp, predict, maxSpeed, RangeStep, k, k');
    }
    r := WindowFrom(norm, rp, predict, maxSpeed, inPlay, fuel, k);
  }
}
