/** The camera merging of vision/data_providers.py. The provider caches the
    latest detection frame of every camera, keyed by camera id, and merges
    the cameras' robot detections by keeping, for each robot id, the
    detection with the highest confidence. The ball is read from camera 0
    only. Receiving packets from the network is not modelled: the store at
    line 69 is an operation that is given the frame. */
module Vision {
  import opened Geometry

  /** One robot in a detection frame (`SSL_DetectionRobot`). */
  datatype Detection = Detection(robotId: int, confidence: real, x: real, y: real, orientation: real)

  /** One ball in a detection frame (`SSL_DetectionBall`). */
  datatype Ball = Ball(confidence: real, x: real, y: real)

  /** A detection frame (`SSL_DetectionFrame`). */
  datatype Frame = Frame(cameraId: int, robotsBlue: seq<Detection>, robotsYellow: seq<Detection>, balls: seq<Ball>)

  /** A frame with nothing in it, as a fresh `SSL_DetectionFrame()`. */
  const EmptyFrame: Frame := Frame(0, [], [], [])

  /** `robot_positions` after offering one more detection: it replaces the
      entry for its id when its confidence is above the held one's, or
      above 0 when there is none. */
  function Offer(positions: map<int, Detection>, d: Detection): map<int, Detection>
  {
    var confidence := if d.robotId in positions then positions[d.robotId].confidence else 0.0;
    if d.confidence > confidence then positions[d.robotId := d] else positions
  }

  /** `robot_positions` after offering the detections `ds` in order,
      starting from an empty dict. */
  function Merged(ds: seq<Detection>): map<int, Detection>
  {
    if ds == [] then map[] else Offer(Merged(ds[..|ds| - 1]), ds[|ds| - 1])
  }

  /** Offering a detection touches only its own robot id: the id is then
      held when it was held before or the detection's confidence is
      positive, and what is held for it is the more confident of the two,
      the earlier one on a tie. */
  lemma OfferEffect(positions: map<int, Detection>, d: Detection)
    ensures var r := Offer(positions, d);
      (forall id :: id != d.robotId ==> (id in r <==> id in positions)) &&
      (forall id :: id in r && id != d.robotId ==> r[id] == positions[id]) &&
      (d.robotId in r <==> d.robotId in positions || 0.0 < d.confidence) &&
      (d.robotId in r ==> r[d.robotId].confidence >= d.confidence) &&
      (d.robotId in r && d.robotId in positions ==>
         r[d.robotId] == (if positions[d.robotId].confidence < d.confidence then d else positions[d.robotId]))
  {
  }

  /** Every entry of the merge is a detection of `ds`, of the robot it is
      keyed by, with a positive confidence. */
  lemma {:induction false} MergedEntries(ds: seq<Detection>)
    ensures forall id :: id in Merged(ds) ==>
              Merged(ds)[id].robotId == id && 0.0 < Merged(ds)[id].confidence && Merged(ds)[id] in ds
    decreases |ds|
  {
    if ds != [] {
      var front, d := ds[..|ds| - 1], ds[|ds| - 1];
      MergedEntries(front);
      OfferEffect(Merged(front), d);
      var m, r := Merged(front), Merged(ds);
      assert r == Offer(m, d);
      assert forall id :: id in m ==> m[id].robotId == id && 0.0 < m[id].confidence && m[id] in front;
      forall id | id in r
        ensures r[id].robotId == id && 0.0 < r[id].confidence && r[id] in ds
      {
        if id == d.robotId && (id !in m || m[id].confidence < d.confidence) {
          assert r[id] == d;
        } else {
          assert r[id] == m[id] && m[id] in front;
        }
      }
    }
  }

  /** Detection i is the first among `ds` with the highest confidence for
      its robot id, and that confidence is positive. */
  ghost predicate FirstBest(ds: seq<Detection>, i: int)
  {
    0 <= i < |ds| && 0.0 < ds[i].confidence &&
    (forall j :: 0 <= j < |ds| && ds[j].robotId == ds[i].robotId ==> ds[j].confidence <= ds[i].confidence) &&
    (forall j :: 0 <= j < i && ds[j].robotId == ds[i].robotId ==> ds[j].confidence < ds[i].confidence)
  }

  /** Some detection in `ds` is of robot `id` with a positive confidence. */
  ghost predicate SeenWithConfidence(ds: seq<Detection>, id: int)
  {
    exists i :: 0 <= i < |ds| && ds[i].robotId == id && 0.0 < ds[i].confidence
  }

  /** The merge keeps a robot id exactly when some detection of it has a
      positive confidence, and what it keeps for the id is the first
      detection of that id with the highest confidence. */
  lemma {:induction false} MergedAt(ds: seq<Detection>, id: int)
    ensures id in Merged(ds) <==> SeenWithConfidence(ds, id)
    ensures id in Merged(ds) ==>
              Merged(ds)[id].robotId == id &&
              exists i :: FirstBest(ds, i) && ds[i] == Merged(ds)[id]
    decreases |ds|
  {
    if ds != [] {
      var front, d := ds[..|ds| - 1], ds[|ds| - 1];
      assert ds == front + [d];
      MergedAt(front, id);
      var m := Merged(front);
      if id in m {
        var i :| FirstBest(front, i) && front[i] == m[id];
        assert ds[i] == front[i];
      }
      if d.robotId == id {
        var confidence := if id in m then m[id].confidence else 0.0;
        if d.confidence > confidence {
          assert FirstBest(ds, |ds| - 1) by {
            forall j | 0 <= j < |front| && front[j].robotId == id
              ensures front[j].confidence < d.confidence
            {
              if !(id in m) && 0.0 < front[j].confidence {
                assert SeenWithConfidence(front, id);
              }
            }
          }
        } else if id in m {
          var i :| FirstBest(front, i) && front[i] == m[id];
          assert FirstBest(ds, i);
        } else {
          assert !SeenWithConfidence(ds, id) by {
            forall j | 0 <= j < |ds| && ds[j].robotId == id
              ensures ds[j].confidence <= 0.0
            {
              if j < |front| {
                assert front[j] == ds[j];
              }
            }
          }
        }
      } else {
        if id in m {
          var i :| FirstBest(front, i) && front[i] == m[id];
          assert FirstBest(ds, i);
        }
        if SeenWithConfidence(ds, id) {
          var j :| 0 <= j < |ds| && ds[j].robotId == id && 0.0 < ds[j].confidence;
          assert front[j] == ds[j];
        }
      }
    }
  }

  /** The detection list `get_robot_positions` reads from a frame. */
  function TeamData(f: Frame, blue: bool): seq<Detection>
  {
    if blue then f.robotsBlue else f.robotsYellow
  }

  /** The team's detections of the cameras in `order`, camera by camera. */
  function AllDetections(frames: map<int, Frame>, order: seq<int>, blue: bool): seq<Detection>
    requires forall i :: 0 <= i < |order| ==> order[i] in frames
  {
    if order == [] then []
    else AllDetections(frames, order[..|order| - 1], blue) + TeamData(frames[order[|order| - 1]], blue)
  }

  /** The inner loop of `get_robot_positions`: offer one camera's team
      detections, in order, to the positions merged so far. */
  method OfferAll(positions: map<int, Detection>, teamData: seq<Detection>, ghost before: seq<Detection>)
    returns (merged: map<int, Detection>)
    requires positions == Merged(before)
    ensures merged == Merged(before + teamData)
  {
    merged := positions;
    assert before + teamData[..0] == before;
    for k := 0 to |teamData|
      invariant merged == Merged(before + teamData[..k])
    {
      var robotData := teamData[k];
      var confidence := 0.0;
      if robotData.robotId in merged {
        confidence := merged[robotData.robotId].confidence;
      }
      if robotData.confidence > confidence {
        merged := merged[robotData.robotId := robotData];
      }
      ghost var next := before + teamData[..k + 1];
      assert next[..|next| - 1] == before + teamData[..k] && next[|next| - 1] == robotData;
    }
    assert teamData[..|teamData|] == teamData;
  }

  /** The first ball a frame holds, or None when it holds none. */
  function BallOf(f: Frame): (r: Option<Ball>)
    ensures r.None? <==> f.balls == []
    ensures r.Some? ==> r.value == f.balls[0]
  {
    if |f.balls| == 0 then None else Some(f.balls[0])
  }

  /** The cameras the provider starts with. */
  const InitialCameras: seq<int> := [0, 1, 2, 3]

  class SslVisionDataProvider {
    /** The cache's keys in the dict's iteration order (insertion order). */
    var order: seq<int>
    /** `_raw_camera_data`: camera id to the latest frame from it. */
    var frames: map<int, Frame>

    /** The keys are listed once each, in `order`, and the four initial
        cameras are always there. */
    ghost predicate Valid()
      reads this
    {
      (forall i, j :: 0 <= i < j < |order| ==> order[i] != order[j]) &&
      (forall c :: c in frames <==> c in order) &&
      (forall i :: 0 <= i < |order| ==> order[i] in frames) &&
      |order| >= 4 && order[..4] == InitialCameras && 0 in frames
    }

    constructor ()
      ensures Valid()
      ensures order == InitialCameras && frames == map[0 := EmptyFrame, 1 := EmptyFrame, 2 := EmptyFrame, 3 := EmptyFrame]
    {
      order := InitialCameras;
      frames := map[0 := EmptyFrame, 1 := EmptyFrame, 2 := EmptyFrame, 3 := EmptyFrame];
    }

    /** `self._raw_camera_data[data.detection.camera_id] = data.detection`:
        only that camera's entry changes; a new camera id is added at the
        end of the iteration order. */
    method StoreDetection(f: Frame)
      requires Valid()
      modifies this
      ensures Valid()
      ensures frames == old(frames)[f.cameraId := f]
      ensures forall c :: c in frames && c != f.cameraId ==> c in old(frames) && frames[c] == old(frames)[c]
      ensures order == if f.cameraId in old(order) then old(order) else old(order) + [f.cameraId]
      ensures f.cameraId != 0 ==> BallPosition() == old(BallPosition())
      ensures f.cameraId == 0 ==> BallPosition() == BallOf(f)
    {
      if f.cameraId !in order {
        order := order + [f.cameraId];
      }
      frames := frames[f.cameraId := f];
      assert order[..4] == old(order)[..4];
    }

    /** `get_robot_positions`: for the team `"blue"` or `"yellow"`, merge
        the team's detections of every cached camera; any other team name
        fails the assertion (None). */
    method RobotPositions(team: string) returns (r: Option<map<int, Detection>>)
      requires Valid()
      ensures r.None? <==> team != "blue" && team != "yellow"
      ensures r.Some? ==> r.value == Merged(AllDetections(frames, order, team == "blue"))
    {
      if team != "blue" && team != "yellow" {
        // the assertion is reached on the first camera, and there are four
        return None;
      }
      var blue := team == "blue";
      var positions: map<int, Detection> := map[];
      for c := 0 to |order|
        invariant positions == Merged(AllDetections(frames, order[..c], blue))
      {
        assert order[..c + 1][..c] == order[..c];
        positions := OfferAll(positions, TeamData(frames[order[c]], blue), AllDetections(frames, order[..c], blue));
      }
      assert order[..|order|] == order;
      return Some(positions);
    }

    /** `get_ball_position`: the first ball camera 0 sees, or None when it
        sees none. */
    function BallPosition(): (r: Option<Ball>)
      requires Valid()
      reads this
      ensures r.None? <==> frames[0].balls == []
      ensures r.Some? ==> r.value == frames[0].balls[0]
    {
      BallOf(frames[0])
    }
  }

  /** What `get_robot_positions` returns holds no detection with a
      non-positive confidence, only ids some camera reported for the team,
      and for each id the first detection with the highest confidence. */
  lemma RobotPositionsSpec(frames: map<int, Frame>, order: seq<int>, blue: bool, id: int)
    requires forall i :: 0 <= i < |order| ==> order[i] in frames
    ensures var ds := AllDetections(frames, order, blue);
      var m := Merged(ds);
      (id in m <==> SeenWithConfidence(ds, id)) &&
      (id in m ==> m[id].robotId == id && 0.0 < m[id].confidence && exists i :: FirstBest(ds, i) && ds[i] == m[id])
  {
    MergedAt(AllDetections(frames, order, blue), id);
  }

  /** A detection in the merged list comes from one of the cameras. */
  lemma DetectionFromSomeCamera(frames: map<int, Frame>, order: seq<int>, blue: bool, i: int)
    requires forall c :: 0 <= c < |order| ==> order[c] in frames
    requires 0 <= i < |AllDetections(frames, order, blue)|
    ensures exists c :: 0 <= c < |order| && AllDetections(frames, order, blue)[i] in TeamData(frames[order[c]], blue)
    decreases |order|
  {
    var front := order[..|order| - 1];
    var before := AllDetections(frames, front, blue);
    if i < |before| {
      DetectionFromSomeCamera(frames, front, blue, i);
      var c :| 0 <= c < |front| && before[i] in TeamData(frames[front[c]], blue);
      assert front[c] == order[c];
    } else {
      assert AllDetections(frames, order, blue)[i] == TeamData(frames[order[|order| - 1]], blue)[i - |before|];
    }
  }
}
