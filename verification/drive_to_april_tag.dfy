/** The command that drives to a fixed distance in front of an AprilTag: a
    found-latch with a 5 s search timeout, one path command created when the
    tag is first seen, and the target-pose geometry. The path command and
    the timer are abstract: the path is recorded by its target pose, its
    completion is an input, and the clock reading `now` is an input. */
module DriveToAprilTag {
  import opened Wrappers
  import opened Geometry
  import Vision

  /** `TIMEOUT_SECONDS`. */
  const TimeoutSeconds: real := 5.0

  /** The command's configuration and state. `path` is the created path
      command, identified by the pose it drives to (absent while null). */
  datatype Approach = Approach(
    tagId: int, distance: real, cameraName: string,
    path: Option<Pose2d>, tagFound: bool, timerStart: real)

  function NewApproach(tagId: int, distance: real, cameraName: string): (c: Approach)
    ensures c.path.None? && !c.tagFound
    ensures c.tagId == tagId && c.distance == distance && c.cameraName == cameraName
  {
    Approach(tagId, distance, cameraName, None, false, 0.0)
  }

  /** What a call to the command does to the outside world. */
  datatype Effect =
    | PathInitialize(target: Pose2d)
    | PathExecute
    | PathEnd(interrupted: bool)
    | DriveCommand(vx: real, vy: real, omega: real, fieldRelative: bool)

  /** `calculateTargetPose`: `distance` metres behind the tag along its
      facing direction, with the tag's rotation. */
  function CalculateTargetPose(t: Trig, tag: Pose2d, distance: real): (r: Pose2d)
    ensures r.x == tag.x - distance * t.cos(tag.degrees)
    ensures r.y == tag.y - distance * t.sin(tag.degrees)
    ensures r.degrees == tag.degrees
  {
    var moved := PlusTranslation(t, tag, -distance, 0.0);
    Pose2d(moved.x, moved.y, tag.degrees)
  }

  /** A tag at (2, 3) facing 90° with distance 0.1 gives (2, 2.9), facing 90°. */
  lemma TargetPoseAtNinetyDegrees(t: Trig)
    requires Standard(t)
    ensures CalculateTargetPose(t, Pose2d(2.0, 3.0, 90.0), 0.1) == Pose2d(2.0, 2.9, 90.0)
  {
  }

  /** A tag facing 0° is approached along the x axis only. */
  lemma TargetPoseAtZeroDegrees(t: Trig, tag: Pose2d, distance: real)
    requires Standard(t) && tag.degrees == 0.0
    ensures CalculateTargetPose(t, tag, distance) == Pose2d(tag.x - distance, tag.y, 0.0)
  {
  }

  /** `initialize`: restart the timer, clear the latch and point vision at
      the tag. A path command left from an earlier run is not cleared. */
  function Initialize(c: Approach, v: Vision.VisionState, now: real): (r: (Approach, Vision.VisionState))
    ensures !r.0.tagFound && r.0.timerStart == now
    ensures r.0.path == c.path && r.0.tagId == c.tagId && r.0.distance == c.distance && r.0.cameraName == c.cameraName
    ensures r.1.targetTagId == c.tagId && r.1.estimates == v.estimates && r.1.tagPoses == v.tagPoses
  {
    (c.(tagFound := false, timerStart := now), Vision.SetTargetAprilTag(v, c.tagId))
  }

  /** Whether `execute` is still searching at time `now`. */
  predicate Searching(c: Approach, now: real)
  {
    !c.tagFound && now - c.timerStart < TimeoutSeconds
  }

  /** `execute`: while searching, look the tag up on the configured camera
      and, on first sight, create and initialise the path; once found,
      forward to the path. */
  function Execute(c: Approach, v: Vision.VisionState, t: Trig, now: real): (r: (Approach, Option<Effect>))
    ensures Searching(c, now) && Vision.GetAprilTagPose(v, c.tagId, c.cameraName).None? ==> r == (c, None)
    ensures Searching(c, now) && Vision.GetAprilTagPose(v, c.tagId, c.cameraName).Some? ==>
      var target := CalculateTargetPose(t, Vision.GetAprilTagPose(v, c.tagId, c.cameraName).value, c.distance);
      r == (c.(tagFound := true, path := Some(target)), Some(PathInitialize(target)))
    ensures !Searching(c, now) ==> r.0 == c
    ensures !Searching(c, now) ==> (r.1 == Some(PathExecute) <==> c.tagFound && c.path.Some?)
    ensures !Searching(c, now) && !(c.tagFound && c.path.Some?) ==> r.1.None?
  {
    if Searching(c, now) then
      match Vision.GetAprilTagPose(v, c.tagId, c.cameraName)
      case Some(tag) =>
        var target := CalculateTargetPose(t, tag, c.distance);
        (c.(tagFound := true, path := Some(target)), Some(PathInitialize(target)))
      case None => (c, None)
    else if c.tagFound && c.path.Some? then (c, Some(PathExecute))
    else (c, None)
  }

  /** `isFinished`, given whether the path command reports finished: an
      unfound tag finishes exactly when the search has timed out; a found
      one exactly when a path exists and has finished. */
  function IsFinished(c: Approach, now: real, pathFinished: bool): (r: bool)
    ensures !c.tagFound ==> (r <==> !Searching(c, now))
    ensures c.tagFound ==> (r <==> c.path.Some? && pathFinished)
  {
    if !c.tagFound && now - c.timerStart >= TimeoutSeconds then true
    else c.tagFound && c.path.Some? && pathFinished
  }

  /** `end`: end the path if one exists, then always stop the drive (field
      relative zero speeds) and clear the vision target. */
  function End(c: Approach, v: Vision.VisionState, interrupted: bool): (r: (seq<Effect>, Vision.VisionState))
    ensures |r.0| >= 1 && r.0[|r.0| - 1] == DriveCommand(0.0, 0.0, 0.0, true)
    ensures c.path.Some? <==> PathEnd(interrupted) in r.0
    ensures |r.0| <= 2
    ensures r.1.targetTagId == -1 && r.1.tagPoses == v.tagPoses && r.1.estimates == v.estimates
  {
    var ending := if c.path.Some? then [PathEnd(interrupted)] else [];
    (ending + [DriveCommand(0.0, 0.0, 0.0, true)], Vision.ClearTargetAprilTag(v))
  }

  // ------------------------------------------------------------ runs

  /** One `execute` per clock reading in `times`, against a fixed vision
      state: the resulting command and the effects produced, in order. */
  function RunExecutes(c: Approach, v: Vision.VisionState, t: Trig, times: seq<real>): (r: (Approach, seq<Effect>))
    decreases |times|
  {
    if |times| == 0 then (c, [])
    else
      var step := Execute(c, v, t, times[0]);
      var rest := RunExecutes(step.0, v, t, times[1..]);
      (rest.0, (if step.1.Some? then [step.1.value] else []) + rest.1)
  }

  /** Number of path creations in a list of effects. */
  function CountInitializations(es: seq<Effect>): nat
    decreases |es|
  {
    if |es| == 0 then 0 else (if es[0].PathInitialize? then 1 else 0) + CountInitializations(es[1..])
  }

  lemma {:induction false} CountInitializationsAppend(a: seq<Effect>, b: seq<Effect>)
    ensures CountInitializations(a + b) == CountInitializations(a) + CountInitializations(b)
    decreases |a|
  {
    if |a| == 0 {
      assert a + b == b;
    } else {
      assert (a + b)[1..] == a[1..] + b;
      CountInitializationsAppend(a[1..], b);
    }
  }

  /** The latch: once found, the tag stays found through any run of
      executes, and a path, once created, is never replaced. */
  lemma {:induction false} FoundStaysFound(c: Approach, v: Vision.VisionState, t: Trig, times: seq<real>)
    requires c.tagFound
    ensures RunExecutes(c, v, t, times).0 == c
    ensures CountInitializations(RunExecutes(c, v, t, times).1) == 0
    decreases |times|
  {
    if |times| > 0 {
      var step := Execute(c, v, t, times[0]);
      FoundStaysFound(step.0, v, t, times[1..]);
      var rest := RunExecutes(step.0, v, t, times[1..]);
      CountInitializationsAppend(if step.1.Some? then [step.1.value] else [], rest.1);
    }
  }

  /** Over any run of executes, at most one path command is created, and
      none once the tag is already found. */
  lemma {:induction false} PathCreatedAtMostOnce(c: Approach, v: Vision.VisionState, t: Trig, times: seq<real>)
    ensures CountInitializations(RunExecutes(c, v, t, times).1) <= (if c.tagFound then 0 else 1)
    ensures c.tagFound ==> RunExecutes(c, v, t, times).0.path == c.path
    decreases |times|
  {
    if c.tagFound {
      FoundStaysFound(c, v, t, times);
    } else if |times| > 0 {
      var step := Execute(c, v, t, times[0]);
      var rest := RunExecutes(step.0, v, t, times[1..]);
      CountInitializationsAppend(if step.1.Some? then [step.1.value] else [], rest.1);
      if step.0.tagFound {
        FoundStaysFound(step.0, v, t, times[1..]);
      } else {
        assert step.1.None? || step.1 == Some(PathExecute);
        assert step.0 == c;
        PathCreatedAtMostOnce(step.0, v, t, times[1..]);
      }
    }
  }

  /** A search that times out without seeing the tag finishes, whatever the
      path command says. */
  lemma TimeoutFinishes(c: Approach, now: real, pathFinished: bool)
    requires !c.tagFound && now - c.timerStart >= TimeoutSeconds
    ensures IsFinished(c, now, pathFinished)
  {
  }

  /** A sighting during the search hands the finish over to the path: from
      then on the command finishes exactly when the path does. */
  lemma FoundFinishesWithPath(c: Approach, v: Vision.VisionState, t: Trig, now: real, later: real, pathFinished: bool)
    requires Searching(c, now) && Vision.GetAprilTagPose(v, c.tagId, c.cameraName).Some?
    ensures IsFinished(Execute(c, v, t, now).0, later, pathFinished) <==> pathFinished
  {
  }

  /** While the tag has not been found and the timeout has not passed, the
      command does not finish. */
  lemma SearchingDoesNotFinish(c: Approach, now: real, pathFinished: bool)
    requires Searching(c, now)
    ensures !IsFinished(c, now, pathFinished)
  {
  }
}
