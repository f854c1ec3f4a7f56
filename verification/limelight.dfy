/** The static Limelight helper: index validation, per-camera readings cached
    by `periodic`, the front-right ID latch, and the dead-zone proportional
    centering laws. Camera readings are inputs; the per-camera distance PID
    is a function parameter. */
module Limelight {
  import opened Wrappers
  import opened RealArith

  /** Number of entries of `staticLimelights`. */
  const CameraCount: nat := 4

  const StaticLimelights: seq<string> := ["limelight-frleft", "limelight-ftright", "limelight-elleft", "limelight-elright"]

  const DefaultKPX: real := 0.04
  const DefaultKPR: real := 0.05

  /** Area above which a camera counts as close. */
  const CloseArea: real := 1.5

  /** What one camera reports in a cycle: whether it sees a tag, the tag's
      horizontal offset, area and fiducial ID, and the target pose in robot
      space (possibly short when the camera is disconnected). */
  datatype CameraReading = CameraReading(tv: bool, tx: real, ta: real, fiducialId: real, targetPoseRobotSpace: seq<real>)

  type Readings = s: seq<CameraReading> | |s| == 4 witness [NoTag, NoTag, NoTag, NoTag]
  type Values = s: seq<real> | |s| == 4 witness [0.0, 0.0, 0.0, 0.0]

  const NoTag: CameraReading := CameraReading(false, 0.0, 0.0, 0.0, [])

  datatype LimelightState = LimelightState(
    txValues: Values, taValues: Values, rzValues: Values, yValues: Values,
    frontRightId: real, idDetected: bool, kPX: real, kPR: real)

  function NewLimelight(): (s: LimelightState)
    ensures s.frontRightId == 0.0 && !s.idDetected && s.kPX == DefaultKPX && s.kPR == DefaultKPR
    ensures forall i :: 0 <= i < 4 ==> s.txValues[i] == 0.0 && s.taValues[i] == 0.0 && s.rzValues[i] == 0.0 && s.yValues[i] == 0.0
  {
    var z := [0.0, 0.0, 0.0, 0.0];
    LimelightState(z, z, z, z, 0.0, false, DefaultKPX, DefaultKPR)
  }

  // ------------------------------------------------------------ validation

  datatype Fault = ArrayIndexOutOfBounds(index: int)

  /** `validateLimelight` as written: the bound check admits the index equal
      to the array length, and the array read that follows then throws. */
  function ValidateLimelightAsWritten(n: int): (r: Result<bool, Fault>)
    ensures 0 <= n < CameraCount ==> r == Ok(true)
    ensures n == CameraCount ==> r == Err(ArrayIndexOutOfBounds(n))
    ensures (n < 0 || n > CameraCount) ==> r == Ok(false)
  {
    if 0 <= n && n <= |StaticLimelights| then
      if n < |StaticLimelights| then Ok(true) else Err(ArrayIndexOutOfBounds(n))
    else Ok(false)
  }

  /** `validateLimelight` with the bound the array read needs: valid
      exactly for the indices of `staticLimelights` (all of its entries are
      non-null). */
  predicate ValidateLimelight(n: int)
  {
    0 <= n < |StaticLimelights|
  }

  /** Index 4 passes the as-written bound check but then fails. */
  lemma ValidateLimelightOffByOne()
    ensures ValidateLimelightAsWritten(CameraCount as int).Err?
    ensures !ValidateLimelight(CameraCount as int)
  {
  }

  /** The corrected check never faults and agrees with the as-written one on
      every index the latter does not fault on. */
  lemma ValidateLimelightCorrected(n: int)
    ensures ValidateLimelightAsWritten(n).Ok? ==> ValidateLimelightAsWritten(n).value == ValidateLimelight(n)
    ensures ValidateLimelightAsWritten(n).Err? <==> n == CameraCount
    ensures ValidateLimelight(n) ==> 0 <= n < |StaticLimelights|
  {
  }

  /** `validateTag`: a valid index whose camera sees a tag. */
  predicate ValidateTag(rs: Readings, n: int)
  {
    ValidateLimelight(n) && rs[n].tv
  }

  /** `getTx`: the camera's offset, 0.0 when it sees no tag. */
  function GetTx(rs: Readings, n: int): (r: real)
    ensures !ValidateTag(rs, n) ==> r == 0.0
    ensures ValidateTag(rs, n) ==> r == rs[n].tx
  {
    if ValidateTag(rs, n) then rs[n].tx else 0.0
  }

  /** `getTa`: the camera's target area, 0.0 when it sees no tag. */
  function GetTa(rs: Readings, n: int): (r: real)
    ensures !ValidateTag(rs, n) ==> r == 0.0
    ensures ValidateTag(rs, n) ==> r == rs[n].ta
  {
    if ValidateTag(rs, n) then rs[n].ta else 0.0
  }

  /** `getID`: the camera's fiducial ID, or the last latched front-right ID
      when it sees no tag. */
  function GetId(s: LimelightState, rs: Readings, n: int): (r: real)
    ensures !ValidateTag(rs, n) ==> r == s.frontRightId
    ensures ValidateTag(rs, n) ==> r == rs[n].fiducialId
  {
    if ValidateTag(rs, n) then rs[n].fiducialId else s.frontRightId
  }

  /** The rotation read of `periodic`: element 4 of the robot-space target
      pose, 0.0 when the array is too short. */
  function RotationValue(c: CameraReading): (r: real)
    ensures |c.targetPoseRobotSpace| > 4 ==> r == c.targetPoseRobotSpace[4]
    ensures |c.targetPoseRobotSpace| <= 4 ==> r == 0.0
  {
    if |c.targetPoseRobotSpace| > 4 then c.targetPoseRobotSpace[4] else 0.0
  }

  // ------------------------------------------------------------ periodic

  /** `periodic`: refresh the cached tx, ta, rotation and distance-PID
      outputs of all four cameras, then run the ID latch on camera 1. */
  function Periodic(s: LimelightState, rs: Readings, pid: (nat, real) -> real): (r: LimelightState)
    ensures forall i :: 0 <= i < 4 ==>
      && r.txValues[i] == GetTx(rs, i)
      && r.taValues[i] == GetTa(rs, i)
      && r.rzValues[i] == RotationValue(rs[i])
      && r.yValues[i] == pid(i, GetTa(rs, i))
    ensures r.kPX == s.kPX && r.kPR == s.kPR
    ensures GetId(s, rs, 1) > 0.0 ==> r.frontRightId == GetId(s, rs, 1) && r.idDetected
    ensures GetId(s, rs, 1) <= 0.0 ==> r.frontRightId == s.frontRightId && !r.idDetected
  {
    var id := GetId(s, rs, 1);
    LimelightState(
      seq(4, i requires 0 <= i < 4 => GetTx(rs, i)),
      seq(4, i requires 0 <= i < 4 => GetTa(rs, i)),
      seq(4, i requires 0 <= i < 4 => RotationValue(rs[i])),
      seq(4, i requires 0 <= i < 4 => pid(i, GetTa(rs, i))),
      if id > 0.0 then id else s.frontRightId,
      id > 0.0,
      s.kPX, s.kPR)
  }

  /** After any cycle a detected ID is a positive latched ID. */
  lemma DetectedImpliesPositiveId(s: LimelightState, rs: Readings, pid: (nat, real) -> real)
    ensures Periodic(s, rs, pid).idDetected ==> Periodic(s, rs, pid).frontRightId > 0.0
  {
  }

  /** When camera 1 sees no tag the latched ID is kept, and "detected" is
      just whether that stale ID is positive: a tag once latched stays
      detected after it is lost. */
  lemma LostTagKeepsLatch(s: LimelightState, rs: Readings, pid: (nat, real) -> real)
    requires !rs[1].tv
    ensures Periodic(s, rs, pid).frontRightId == s.frontRightId
    ensures Periodic(s, rs, pid).idDetected <==> s.frontRightId > 0.0
  {
  }

  // ------------------------------------------------------------ centering laws

  /** The shared dead-zone proportional law: zero inside the band, gain
      times error outside it. */
  function DeadZone(error: real, threshold: real, gain: real): (r: real)
    ensures Abs(error) <= threshold ==> r == 0.0
    ensures threshold < Abs(error) ==> r == error * gain
  {
    if threshold < Abs(error) then error * gain else 0.0
  }

  /** Outside the band a positive gain drives in the direction of the error;
      a non-negative threshold keeps zero error inside the band. */
  lemma DeadZoneSign(error: real, threshold: real, gain: real)
    requires gain > 0.0 && threshold >= 0.0
    ensures error > threshold ==> DeadZone(error, threshold, gain) > 0.0
    ensures error < -threshold ==> DeadZone(error, threshold, gain) < 0.0
    ensures -threshold <= error <= threshold ==> DeadZone(error, threshold, gain) == 0.0
  {
    if error > threshold {
      assert error * gain > 0.0;
    } else if error < -threshold {
      assert (-error) * gain > 0.0;
    }
  }

  /** `CenterRotationRate`: zero without a tag, else the dead-zone law on
      the rotation error with gain kPR. */
  function CenterRotationRate(s: LimelightState, rs: Readings, n: int, targetRz: real, threshold: real): (r: real)
    ensures !ValidateTag(rs, n) ==> r == 0.0
    ensures ValidateTag(rs, n) && Abs(targetRz - s.rzValues[n]) <= threshold ==> r == 0.0
    ensures ValidateTag(rs, n) && threshold < Abs(targetRz - s.rzValues[n]) ==> r == (targetRz - s.rzValues[n]) * s.kPR
  {
    if ValidateTag(rs, n) then DeadZone(targetRz - s.rzValues[n], threshold, s.kPR) else 0.0
  }

  /** `CenterTx`: the same law on the horizontal offset with gain kPX·0.75. */
  function CenterTx(s: LimelightState, rs: Readings, n: int, targetTx: real, threshold: real): (r: real)
    ensures !ValidateTag(rs, n) ==> r == 0.0
    ensures ValidateTag(rs, n) && Abs(targetTx - s.txValues[n]) <= threshold ==> r == 0.0
    ensures ValidateTag(rs, n) && threshold < Abs(targetTx - s.txValues[n]) ==> r == (targetTx - s.txValues[n]) * (s.kPX * 0.75)
  {
    if ValidateTag(rs, n) then DeadZone(targetTx - s.txValues[n], threshold, s.kPX * 0.75) else 0.0
  }

  /** `CenterTy`: the dead zone is tested on the area error, but outside it
      the result is the cached PID output scaled by 0.6, not gain × error. */
  function CenterTy(s: LimelightState, rs: Readings, n: int, threshold: real, targetArea: real): (r: real)
    ensures !ValidateTag(rs, n) ==> r == 0.0
    ensures ValidateTag(rs, n) && Abs(targetArea - s.taValues[n]) <= threshold ==> r == 0.0
    ensures ValidateTag(rs, n) && threshold < Abs(targetArea - s.taValues[n]) ==> r == s.yValues[n] * 0.6
  {
    if ValidateTag(rs, n) then
      if threshold < Abs(targetArea - s.taValues[n]) then s.yValues[n] * 0.6 else 0.0
    else 0.0
  }

  /** With the default gain, rotation centering turns toward the target
      angle whenever it is outside the band. */
  lemma RotationTurnsTowardTarget(s: LimelightState, rs: Readings, n: int, targetRz: real, threshold: real)
    requires s.kPR == DefaultKPR && threshold >= 0.0 && ValidateTag(rs, n)
    ensures targetRz - s.rzValues[n] > threshold ==> CenterRotationRate(s, rs, n, targetRz, threshold) > 0.0
    ensures targetRz - s.rzValues[n] < -threshold ==> CenterRotationRate(s, rs, n, targetRz, threshold) < 0.0
  {
    DeadZoneSign(targetRz - s.rzValues[n], threshold, s.kPR);
  }

  /** `isCloseLeft` reads camera 1's cached area. */
  predicate IsCloseLeft(s: LimelightState)
  {
    s.taValues[1] > CloseArea
  }

  /** `isCloseRight` reads camera 0's cached area. */
  predicate IsCloseRight(s: LimelightState)
  {
    s.taValues[0] > CloseArea
  }

  /** After a cycle, closeness needs the camera to see a tag with area above
      1.5: a camera with no tag reports area 0. */
  lemma CloseNeedsTag(s: LimelightState, rs: Readings, pid: (nat, real) -> real)
    ensures IsCloseLeft(Periodic(s, rs, pid)) <==> rs[1].tv && rs[1].ta > CloseArea
    ensures IsCloseRight(Periodic(s, rs, pid)) <==> rs[0].tv && rs[0].ta > CloseArea
  {
  }
}
