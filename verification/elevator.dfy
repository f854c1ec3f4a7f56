/** The elevator's own logic: setpoint tracking, the inches/rotations
    conversion, height-dependent drive speed limits and the position
    threshold predicates. Motor control is represented by the command the
    elevator would send. */
module Elevator {
  import opened BodyConstants
  import opened RealArith

  /** Inches of travel per encoder rotation. */
  const InchesPerRotation: real := 4.25

  /** Height above which drive speed is scaled down. */
  const SlowdownHeight: real := 9.0

  /** `TunerConstants.MaxSpeed` at low height, in metres per second. */
  const BaseMaxSpeed: real := 4.74

  /** `TunerConstants.MaxAngularRate` at low height, kept in rotations per
      second (the source converts 0.75 rotations/s to radians/s). */
  const BaseMaxAngularRate: real := 0.75

  const SlowdownScale: real := 0.55

  /** `Limelight.MaxSpeed` while the setpoint is L4, and otherwise. */
  const LimelightSpeedAtL4: real := 0.65
  const LimelightSpeedDefault: real := 1.0

  datatype ElevatorState = ElevatorState(setpoint: Setpoint)

  /** The constructor starts at the high idle setpoint. */
  function NewElevator(): (e: ElevatorState)
    ensures e.setpoint == IdleHigh
  {
    ElevatorState(IdleHigh)
  }

  function UpdateSetpoint(e: ElevatorState, s: Setpoint): (r: ElevatorState)
    ensures r.setpoint == s
  {
    ElevatorState(s)
  }

  // ------------------------------------------------------------ conversions

  /** `encoderPosition`: rotations to inches. */
  function EncoderPosition(rotations: real): (inches: real)
  {
    rotations * InchesPerRotation
  }

  /** The commanded motor position: inches to rotations. */
  function InchesToRotations(inches: real): (rotations: real)
  {
    inches / InchesPerRotation
  }

  /** The two conversions are mutual inverses. */
  lemma ConversionRoundTrip(inches: real, rotations: real)
    ensures EncoderPosition(InchesToRotations(inches)) == inches
    ensures InchesToRotations(EncoderPosition(rotations)) == rotations
  {
  }

  /** The position control request `moveToSetpoint` sends. */
  datatype MotorCommand = MotorCommand(positionRotations: real, slot: int, feedForward: real)

  function MoveToSetpoint(b: Body, e: ElevatorState): (r: MotorCommand)
    ensures EncoderPosition(r.positionRotations) == GetInches(b, e.setpoint)
    ensures r.slot == ElevatorSlot(e.setpoint) && 0 <= r.slot <= 2
    ensures r.feedForward == 0.0
  {
    MotorCommand(InchesToRotations(GetInches(b, e.setpoint)), ElevatorSlot(e.setpoint), Feed(e.setpoint))
  }

  /** `getError`: measured height minus the setpoint's height. */
  function GetError(b: Body, e: ElevatorState, rotations: real): (r: real)
    ensures r == 0.0 <==> rotations == MoveToSetpoint(b, e).positionRotations
    ensures r > 0.0 <==> rotations > MoveToSetpoint(b, e).positionRotations
    ensures r == EncoderPosition(rotations) - EncoderPosition(MoveToSetpoint(b, e).positionRotations)
  {
    EncoderPosition(rotations) - GetInches(b, e.setpoint)
  }

  // ------------------------------------------------------------ speed limits

  /** Drive speed limits set by `periodic` for a given height. */
  datatype SpeedLimits = SpeedLimits(maxSpeed: real, maxAngularRate: real, limelightMaxSpeed: real)

  /** `periodic`'s speed scheduling: above 9 in both drive limits are divided
      by 0.55·height; the Limelight limit depends only on the setpoint. */
  function Schedule(e: ElevatorState, height: real): (r: SpeedLimits)
    ensures height <= SlowdownHeight ==> r.maxSpeed == BaseMaxSpeed && r.maxAngularRate == BaseMaxAngularRate
    ensures height > SlowdownHeight ==> 0.0 < r.maxSpeed < BaseMaxSpeed && 0.0 < r.maxAngularRate < BaseMaxAngularRate
    ensures height > SlowdownHeight ==>
      r.maxSpeed == BaseMaxSpeed / (height * SlowdownScale)
      && r.maxAngularRate == BaseMaxAngularRate / (height * SlowdownScale)
    ensures r.limelightMaxSpeed == (if e.setpoint == L4Setpoint then LimelightSpeedAtL4 else LimelightSpeedDefault)
  {
    if height > SlowdownHeight then
      var d := height * SlowdownScale;
      QuotientBelow(BaseMaxSpeed, d);
      QuotientBelow(BaseMaxAngularRate, d);
      SpeedLimits(BaseMaxSpeed / d, BaseMaxAngularRate / d, LimelightLimit(e))
    else
      SpeedLimits(BaseMaxSpeed, BaseMaxAngularRate, LimelightLimit(e))
  }

  function LimelightLimit(e: ElevatorState): real
  {
    if e.setpoint == L4Setpoint then LimelightSpeedAtL4 else LimelightSpeedDefault
  }

  /** Above 9 in, higher means strictly slower in both limits. */
  lemma ScheduleDecreasing(e: ElevatorState, h1: real, h2: real)
    requires SlowdownHeight < h1 < h2
    ensures Schedule(e, h2).maxSpeed < Schedule(e, h1).maxSpeed
    ensures Schedule(e, h2).maxAngularRate < Schedule(e, h1).maxAngularRate
  {
    var d1, d2 := h1 * SlowdownScale, h2 * SlowdownScale;
    assert 0.0 < d1 < d2;
    QuotientAntitone(BaseMaxSpeed, d1, d2);
    QuotientAntitone(BaseMaxAngularRate, d1, d2);
  }

  // ------------------------------------------------------------ thresholds

  /** `isL4`, `isL3`, `isL2`: above the level's named height less one inch. */
  predicate IsL4(t: Tunables, height: real) { height > t.l4.elevatorInches - 1.0 }
  predicate IsL3(t: Tunables, height: real) { height > t.l3.elevatorInches - 1.0 }
  predicate IsL2(t: Tunables, height: real) { height > t.l2.elevatorInches - 1.0 }

  /** `isIdle`: below idle height plus 1.5 in. */
  predicate IsIdle(t: Tunables, height: real) { height < t.idle.elevatorInches + 1.5 }

  /** `isIdleHigh`: below high idle height plus 3 in. */
  predicate IsIdleHigh(t: Tunables, height: real) { height < t.idleHigh.elevatorInches + 3.0 }

  /** `isClimbHigh`: at least the climb start height less 1.17 in. */
  predicate IsClimbHigh(t: Tunables, height: real) { height >= t.climberStart.elevatorInches - 1.17 }

  /** With level heights in increasing order the level tests nest. */
  lemma LevelTestsNest(t: Tunables, height: real)
    requires t.l2.elevatorInches <= t.l3.elevatorInches <= t.l4.elevatorInches
    ensures IsL4(t, height) ==> IsL3(t, height)
    ensures IsL3(t, height) ==> IsL2(t, height)
  {
  }

  /** The default constants are in increasing order, so the level tests
      nest; and idle and L2 never hold together. */
  lemma DefaultLevelTests(height: real)
    ensures IsL4(DefaultTunables, height) ==> IsL3(DefaultTunables, height)
    ensures IsL3(DefaultTunables, height) ==> IsL2(DefaultTunables, height)
    ensures !(IsIdle(DefaultTunables, height) && IsL2(DefaultTunables, height))
  {
    LevelTestsNest(DefaultTunables, height);
  }

  /** Each test brackets its named height: at (or past) the height the test
      holds, and more than the tolerance away on the other side it fails. */
  lemma LevelTestsAtNamedHeights(t: Tunables, h: real)
    ensures (h >= t.l4.elevatorInches ==> IsL4(t, h)) && (h <= t.l4.elevatorInches - 1.0 ==> !IsL4(t, h))
    ensures (h >= t.l3.elevatorInches ==> IsL3(t, h)) && (h <= t.l3.elevatorInches - 1.0 ==> !IsL3(t, h))
    ensures (h >= t.l2.elevatorInches ==> IsL2(t, h)) && (h <= t.l2.elevatorInches - 1.0 ==> !IsL2(t, h))
    ensures (h <= t.idle.elevatorInches ==> IsIdle(t, h)) && (h >= t.idle.elevatorInches + 1.5 ==> !IsIdle(t, h))
    ensures (h <= t.idleHigh.elevatorInches ==> IsIdleHigh(t, h)) && (h >= t.idleHigh.elevatorInches + 3.0 ==> !IsIdleHigh(t, h))
    ensures (h >= t.climberStart.elevatorInches ==> IsClimbHigh(t, h))
      && (h < t.climberStart.elevatorInches - 1.17 ==> !IsClimbHigh(t, h))
  {
  }

  /** An elevator holding a setpoint with zero error, on the positions loaded
      from the same constants, passes that setpoint's test. */
  lemma HeldSetpointPassesTest(t: Tunables, e: ElevatorState, rotations: real)
    requires GetError(Load(t), e, rotations) == 0.0
    ensures e.setpoint == L4Setpoint ==> IsL4(t, EncoderPosition(rotations))
    ensures e.setpoint == L3Setpoint ==> IsL3(t, EncoderPosition(rotations))
    ensures e.setpoint == L2Setpoint ==> IsL2(t, EncoderPosition(rotations))
    ensures e.setpoint == Idle ==> IsIdle(t, EncoderPosition(rotations))
    ensures e.setpoint == IdleHigh ==> IsIdleHigh(t, EncoderPosition(rotations))
    ensures e.setpoint == ClimberStart ==> IsClimbHigh(t, EncoderPosition(rotations))
  {
    var h := EncoderPosition(rotations);
    assert h == GetInches(Load(t), e.setpoint);
    LevelTestsAtNamedHeights(t, h);
  }
}
