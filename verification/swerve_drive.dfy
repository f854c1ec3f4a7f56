/** The parts of the swerve drive subsystem the robot code owns: vision trust
    weighting and gating in `periodic`, the frame choice and module dispatch
    of `drive`, and PID fan-out. Kinematics, desaturation and the pose
    estimator are library code: the first two are a function parameter and
    the estimator is a recorder of the calls it receives. */
module SwerveDrive {
  import opened Wrappers
  import opened Geometry
  import Vision
  import opened RealArith

  /** `VisionConstants.VISION_STD_DEV_X/Y/THETA`. */
  const BaseStdDevX: real := 0.5
  const BaseStdDevY: real := 0.5
  const BaseStdDevTheta: real := 0.5

  // ------------------------------------------------------------ trust weighting

  /** `min(5, 10·ambiguity)`: capped above, with no floor. */
  function AmbiguityFactor(ambiguity: real): (r: real)
    ensures r <= 5.0
    ensures r == 5.0 || r == 10.0 * ambiguity
    ensures ambiguity <= 0.5 ==> r == 10.0 * ambiguity
    ensures ambiguity >= 0.0 ==> r >= 0.0
  {
    if 5.0 <= ambiguity * 10.0 then 5.0 else ambiguity * 10.0
  }

  /** `max(0.5, 5 / max(0.1, area))`: always within [0.5, 50]. */
  function AreaFactor(area: real): (r: real)
    ensures 0.5 <= r <= 50.0
    ensures area <= 0.1 ==> r == 50.0
    ensures area >= 10.0 ==> r == 0.5
  {
    var clamped := if 0.1 >= area then 0.1 else area;
    var q := 5.0 / clamped;
    QuotientAtMost(5.0, clamped, 50.0);
    QuotientAtMost(5.0, clamped, 0.5);
    if 0.5 >= q then 0.5 else q
  }

  lemma AmbiguityFactorMonotone(a1: real, a2: real)
    requires a1 <= a2
    ensures AmbiguityFactor(a1) <= AmbiguityFactor(a2)
  {
  }

  /** More target area never means less trust. */
  lemma AreaFactorAntitone(t1: real, t2: real)
    requires t1 <= t2
    ensures AreaFactor(t1) >= AreaFactor(t2)
  {
    var c1 := if 0.1 >= t1 then 0.1 else t1;
    var c2 := if 0.1 >= t2 then 0.1 else t2;
    assert 0.1 <= c1 <= c2;
    var q2 := 5.0 / c2;
    assert q2 * c2 == 5.0;
    ScaleMonotone(c1, c2, q2);
    QuotientAtMost(5.0, c1, q2);
  }

  /** The combined scale applied to the base deviations: the ambiguity
      factor times the area factor. */
  function Distrust(m: Vision.Measurement): (k: real)
    ensures m.ambiguity >= 0.0 ==> 0.0 <= k <= 5.0 * 50.0
    ensures m.ambiguity == 0.0 ==> k == 0.0
  {
    var a, f := AmbiguityFactor(m.ambiguity), AreaFactor(m.targetArea);
    FactorProductRange(a, f);
    a * f
  }

  /** The (x, y, θ) standard deviations handed to the estimator. */
  function StdDevs(m: Vision.Measurement): (r: seq<real>)
    ensures |r| == 3
    ensures r[0] == BaseStdDevX * Distrust(m) && r[1] == BaseStdDevY * Distrust(m)
      && r[2] == BaseStdDevTheta * Distrust(m)
    ensures m.ambiguity == 0.0 ==> r == [0.0, 0.0, 0.0]
    ensures m.ambiguity >= 0.0 ==> forall i :: 0 <= i < 3 ==> 0.0 <= r[i] <= 0.5 * 5.0 * 50.0
  {
    var k := Distrust(m);
    [BaseStdDevX * k, BaseStdDevY * k, BaseStdDevTheta * k]
  }

  /** The combined factor lies in [0, 250] for a non-negative ambiguity
      factor, and vanishes with it. */
  lemma FactorProductRange(a: real, f: real)
    requires a <= 5.0 && 0.5 <= f <= 50.0
    ensures a >= 0.0 ==> 0.0 <= a * f <= 5.0 * 50.0
    ensures a == 0.0 ==> a * f == 0.0
  {
    if a >= 0.0 {
      ProductMonotone(0.0, a, f, f);
      ProductMonotone(a, 5.0, f, 50.0);
    }
  }

  /** The combined scale grows with ambiguity and shrinks with target
      area. */
  lemma DistrustMonotone(m1: Vision.Measurement, m2: Vision.Measurement)
    requires 0.0 <= m1.ambiguity <= m2.ambiguity
    requires m1.targetArea >= m2.targetArea
    ensures Distrust(m1) <= Distrust(m2)
  {
    var a1, a2 := AmbiguityFactor(m1.ambiguity), AmbiguityFactor(m2.ambiguity);
    var f1, f2 := AreaFactor(m1.targetArea), AreaFactor(m2.targetArea);
    AmbiguityFactorMonotone(m1.ambiguity, m2.ambiguity);
    AreaFactorAntitone(m2.targetArea, m1.targetArea);
    ProductMonotone(a1, a2, f1, f2);
  }

  /** For non-negative ambiguity each standard deviation is non-decreasing in
      ambiguity and non-increasing in target area. */
  lemma StdDevsMonotone(m1: Vision.Measurement, m2: Vision.Measurement)
    requires 0.0 <= m1.ambiguity <= m2.ambiguity
    requires m1.targetArea >= m2.targetArea
    ensures forall i :: 0 <= i < 3 ==> StdDevs(m1)[i] <= StdDevs(m2)[i]
  {
    DistrustMonotone(m1, m2);
  }

  // ------------------------------------------------------------ pose estimator

  /** A call received by the pose estimator. */
  datatype EstimatorCall =
    | OdometryUpdate(headingDegrees: real)
    | AddVisionMeasurement(pose: Pose2d, timestamp: real, stdDevs: seq<real>)

  /** `periodic`'s estimator traffic: the odometry update first, then, when
      vision is enabled and a vision subsystem is attached, one vision
      measurement per entry of the measurement list, in list order. */
  method Periodic(headingDegrees: real, visionEnabled: bool, vision: Option<Vision.VisionState>)
    returns (calls: seq<EstimatorCall>)
    ensures |calls| >= 1 && calls[0] == OdometryUpdate(headingDegrees)
    ensures !(visionEnabled && vision.Some?) ==> |calls| == 1
    ensures visionEnabled && vision.Some? ==>
      var ms := Vision.GetAllVisionMeasurements(vision.value);
      && |calls| == 1 + |ms|
      && forall i :: 0 <= i < |ms| ==>
           calls[i + 1] == AddVisionMeasurement(ms[i].pose, ms[i].timestamp, StdDevs(ms[i]))
    ensures forall i :: 1 <= i < |calls| ==> calls[i].AddVisionMeasurement?
  {
    calls := [OdometryUpdate(headingDegrees)];
    if visionEnabled && vision.Some? {
      var ms := Vision.GetAllVisionMeasurements(vision.value);
      var i := 0;
      while i < |ms|
        invariant 0 <= i <= |ms|
        invariant |calls| == 1 + i && calls[0] == OdometryUpdate(headingDegrees)
        invariant forall j :: 1 <= j < |calls| ==> calls[j].AddVisionMeasurement?
        invariant forall j :: 0 <= j < i ==>
          calls[j + 1] == AddVisionMeasurement(ms[j].pose, ms[j].timestamp, StdDevs(ms[j]))
      {
        calls := calls + [AddVisionMeasurement(ms[i].pose, ms[i].timestamp, StdDevs(ms[i]))];
        i := i + 1;
      }
    }
  }

  // ------------------------------------------------------------ drive

  datatype ChassisSpeeds = ChassisSpeeds(vx: real, vy: real, omega: real)

  /** `ChassisSpeeds.fromFieldRelativeSpeeds`: the field-frame translation
      rotated by minus the heading; the turn rate is frame-independent. */
  function FromFieldRelative(t: Trig, vx: real, vy: real, omega: real, headingDegrees: real): (r: ChassisSpeeds)
    ensures r.omega == omega
    ensures Standard(t) && headingDegrees == 0.0 ==> r == ChassisSpeeds(vx, vy, omega)
  {
    var c := t.cos(headingDegrees);
    var s := t.sin(headingDegrees);
    ChassisSpeeds(vx * c + vy * s, -vx * s + vy * c, omega)
  }

  datatype ModuleState = ModuleState(speed: real, angleDegrees: real)

  /** The four desired states returned by kinematics plus desaturation, in
      array order 0..3. */
  datatype ModuleStates = ModuleStates(s0: ModuleState, s1: ModuleState, s2: ModuleState, s3: ModuleState)

  datatype PidConfig = PidConfig(kP: real, kI: real, kD: real, kF: real)

  const DefaultDrivePid: PidConfig := PidConfig(0.1, 0.0, 0.0, 0.05)
  const DefaultTurnPid: PidConfig := PidConfig(0.6, 0.0, 0.01, 0.0)

  datatype SwerveModule = SwerveModule(drivePid: PidConfig, turnPid: PidConfig, desired: ModuleState)

  datatype Drivetrain = Drivetrain(
    frontLeft: SwerveModule, frontRight: SwerveModule,
    backLeft: SwerveModule, backRight: SwerveModule,
    visionEnabled: bool)

  function NewDrivetrain(): (d: Drivetrain)
    ensures d.visionEnabled
    ensures forall m :: m in [d.frontLeft, d.frontRight, d.backLeft, d.backRight] ==>
      m.drivePid == DefaultDrivePid && m.turnPid == DefaultTurnPid
  {
    var m := SwerveModule(DefaultDrivePid, DefaultTurnPid, ModuleState(0.0, 0.0));
    Drivetrain(m, m, m, m, true)
  }

  function SetVisionEnabled(d: Drivetrain, enabled: bool): (r: Drivetrain)
    ensures r.visionEnabled == enabled
    ensures r == d.(visionEnabled := enabled)
  {
    d.(visionEnabled := enabled)
  }

  /** The chassis speeds `drive` hands to kinematics. */
  function DriveSpeeds(t: Trig, vx: real, vy: real, omega: real, fieldRelative: bool, headingDegrees: real): (r: ChassisSpeeds)
    ensures !fieldRelative ==> r == ChassisSpeeds(vx, vy, omega)
    ensures fieldRelative ==> r == FromFieldRelative(t, vx, vy, omega, headingDegrees)
  {
    if fieldRelative then FromFieldRelative(t, vx, vy, omega, headingDegrees) else ChassisSpeeds(vx, vy, omega)
  }

  /** `drive`: states 0, 1, 2, 3 of the kinematics result go to front-left,
      front-right, back-left, back-right; gains and the vision flag are kept. */
  function Drive(d: Drivetrain, t: Trig, kinematics: ChassisSpeeds -> ModuleStates,
                 vx: real, vy: real, omega: real, fieldRelative: bool, headingDegrees: real): (r: Drivetrain)
    ensures var st := kinematics(DriveSpeeds(t, vx, vy, omega, fieldRelative, headingDegrees));
      && r.frontLeft == d.frontLeft.(desired := st.s0)
      && r.frontRight == d.frontRight.(desired := st.s1)
      && r.backLeft == d.backLeft.(desired := st.s2)
      && r.backRight == d.backRight.(desired := st.s3)
      && r.visionEnabled == d.visionEnabled
  {
    var st := kinematics(DriveSpeeds(t, vx, vy, omega, fieldRelative, headingDegrees));
    Drivetrain(
      d.frontLeft.(desired := st.s0), d.frontRight.(desired := st.s1),
      d.backLeft.(desired := st.s2), d.backRight.(desired := st.s3),
      d.visionEnabled)
  }

  /** Robot-relative driving ignores the heading entirely. */
  lemma RobotRelativeIgnoresHeading(d: Drivetrain, t: Trig, kinematics: ChassisSpeeds -> ModuleStates,
                                    vx: real, vy: real, omega: real, h1: real, h2: real)
    ensures Drive(d, t, kinematics, vx, vy, omega, false, h1) == Drive(d, t, kinematics, vx, vy, omega, false, h2)
  {
  }

  /** At heading zero the two frames agree. */
  lemma FieldRelativeAtZeroHeading(d: Drivetrain, t: Trig, kinematics: ChassisSpeeds -> ModuleStates,
                                   vx: real, vy: real, omega: real)
    requires Standard(t)
    ensures Drive(d, t, kinematics, vx, vy, omega, true, 0.0) == Drive(d, t, kinematics, vx, vy, omega, false, 0.0)
  {
  }

  /** `updatePIDValues`: the same pair of configurations goes to all four
      modules; desired states and the vision flag are kept. */
  function UpdatePidValues(d: Drivetrain, drivePid: PidConfig, turnPid: PidConfig): (r: Drivetrain)
    ensures forall m :: m in [r.frontLeft, r.frontRight, r.backLeft, r.backRight] ==>
      m.drivePid == drivePid && m.turnPid == turnPid
    ensures r.frontLeft.desired == d.frontLeft.desired && r.frontRight.desired == d.frontRight.desired
    ensures r.backLeft.desired == d.backLeft.desired && r.backRight.desired == d.backRight.desired
    ensures r.visionEnabled == d.visionEnabled
  {
    Drivetrain(
      d.frontLeft.(drivePid := drivePid, turnPid := turnPid),
      d.frontRight.(drivePid := drivePid, turnPid := turnPid),
      d.backLeft.(drivePid := drivePid, turnPid := turnPid),
      d.backRight.(drivePid := drivePid, turnPid := turnPid),
      d.visionEnabled)
  }

  /** A second update with the same configurations changes nothing. */
  lemma UpdatePidValuesIdempotent(d: Drivetrain, drivePid: PidConfig, turnPid: PidConfig)
    ensures UpdatePidValues(UpdatePidValues(d, drivePid, turnPid), drivePid, turnPid) == UpdatePidValues(d, drivePid, turnPid)
  {
  }
}
