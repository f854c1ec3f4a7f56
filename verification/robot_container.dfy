/** Driver input shaping and the AprilTag button table of the robot
    container. */
module RobotContainer {
  import opened RealArith

  /** `Constants.DEADBAND`. */
  const Deadband: real := 0.1

  /** `JoystickConstants.APRILTAG_BUTTONS`. */
  const AprilTagButtons: seq<int> := [1, 2, 3, 4, 5, 6, 7, 8]

  /** `VisionConstants.APRILTAG_APPROACH_DISTANCE_METERS`. */
  const ApproachDistance: real := 0.10

  /** `VisionConstants.LIMELIGHT_FRONT_NAME`. */
  const FrontCamera: string := "limelight-front"

  /** `deadband(value, db)`: zero inside the band; outside it the remaining
      travel rescaled so that the band edge maps to 0. */
  function ApplyDeadband(value: real, db: real): (r: real)
    requires db != 1.0
    ensures Abs(value) <= db ==> r == 0.0
    ensures Abs(value) > db && value > 0.0 ==> r == (value - db) / (1.0 - db)
    ensures Abs(value) > db && value <= 0.0 ==> r == (value + db) / (1.0 - db)
  {
    if Abs(value) > db then
      if value > 0.0 then (value - db) / (1.0 - db) else (value + db) / (1.0 - db)
    else 0.0
  }

  /** `Math.copySign(v * v, v)`: magnitude v², sign of v. */
  function SignedSquare(v: real): (r: real)
    ensures v > 0.0 ==> r > 0.0
    ensures v < 0.0 ==> r < 0.0
    ensures v == 0.0 ==> r == 0.0
    ensures Abs(r) == Abs(v) * Abs(v)
  {
    MulPositive(Abs(v), Abs(v));
    v * Abs(v)
  }

  /** `modifyAxis`: deadband with the configured width, then a sign-keeping
      square. */
  function ModifyAxis(value: real): (r: real)
    ensures Abs(value) <= Deadband ==> r == 0.0
    ensures value > Deadband ==> r == SignedSquare((value - Deadband) / (1.0 - Deadband)) > 0.0
    ensures value < -Deadband ==> r == SignedSquare((value + Deadband) / (1.0 - Deadband)) < 0.0
  {
    var d := ApplyDeadband(value, Deadband);
    QuotientFacts(value - Deadband, 1.0 - Deadband);
    QuotientFacts(value + Deadband, 1.0 - Deadband);
    SignedSquare(d)
  }

  /** For a band of width in [0, 1) the deadband keeps the input's sign
      (strictly outside the band) and is odd. */
  lemma DeadbandSignAndOddness(value: real, db: real)
    requires 0.0 <= db < 1.0
    ensures value > db ==> ApplyDeadband(value, db) > 0.0
    ensures value < -db ==> ApplyDeadband(value, db) < 0.0
    ensures ApplyDeadband(-value, db) == -ApplyDeadband(value, db)
  {
    QuotientFacts(value - db, 1.0 - db);
    QuotientFacts(value + db, 1.0 - db);
    assert -value - db == -(value + db) && -value + db == -(value - db);
  }

  /** Full deflection stays full deflection and nothing leaves [-1, 1]. */
  lemma DeadbandRange(value: real, db: real)
    requires 0.0 <= db < 1.0 && -1.0 <= value <= 1.0
    ensures -1.0 <= ApplyDeadband(value, db) <= 1.0
    ensures ApplyDeadband(1.0, db) == 1.0 && ApplyDeadband(-1.0, db) == -1.0
  {
    var k := 1.0 - db;
    QuotientFacts(1.0 - db, k);
    QuotientFacts(value - db, k);
    QuotientFacts(-(value + db), k);
    assert -(-(value + db)) == value + db;
  }

  /** `modifyAxis` is odd. */
  lemma ModifyAxisOdd(value: real)
    ensures ModifyAxis(-value) == -ModifyAxis(value)
  {
    DeadbandSignAndOddness(value, Deadband);
  }

  /** `modifyAxis` maps [-1, 1] into [-1, 1], with ±1 going to ±1. */
  lemma ModifyAxisRange(value: real)
    requires -1.0 <= value <= 1.0
    ensures -1.0 <= ModifyAxis(value) <= 1.0
    ensures ModifyAxis(1.0) == 1.0 && ModifyAxis(-1.0) == -1.0
  {
    DeadbandRange(value, Deadband);
    DeadbandRange(1.0, Deadband);
    var d := ApplyDeadband(value, Deadband);
    SquareAtMostOne(Abs(d));
  }

  lemma SquareAtMostOne(a: real)
    requires 0.0 <= a <= 1.0
    ensures 0.0 <= a * a <= 1.0
  {
    assert a * a <= a * 1.0;
  }

  /** Half deflection gives ((0.5 - 0.1) / 0.9)² = 16/81, with the sign of
      the input. */
  lemma ModifyAxisHalfDeflection()
    ensures ModifyAxis(0.5) == 16.0 / 81.0
    ensures ModifyAxis(-0.5) == -16.0 / 81.0
    ensures ModifyAxis(0.05) == 0.0 && ModifyAxis(-0.05) == 0.0
  {
    assert (0.5 - 0.1) / (1.0 - 0.1) == 4.0 / 9.0;
    assert (-0.5 + 0.1) / (1.0 - 0.1) == -4.0 / 9.0;
  }

  // ------------------------------------------------------------ button table

  /** A joystick button bound to a tag-approach command. */
  datatype Binding = Binding(button: int, tagId: int, distance: real, cameraName: string)

  /** `configureAprilTagButtons`: the i-th button drives to tag i + 1, always
      with the front camera and the configured approach distance. */
  method AprilTagBindings(buttons: seq<int>) returns (bindings: seq<Binding>)
    ensures |bindings| == |buttons|
    ensures forall i :: 0 <= i < |buttons| ==>
      bindings[i] == Binding(buttons[i], i + 1, ApproachDistance, FrontCamera)
  {
    bindings := [];
    var i := 0;
    while i < |buttons|
      invariant 0 <= i <= |buttons|
      invariant |bindings| == i
      invariant forall j :: 0 <= j < i ==> bindings[j] == Binding(buttons[j], j + 1, ApproachDistance, FrontCamera)
    {
      bindings := bindings + [Binding(buttons[i], i + 1, ApproachDistance, FrontCamera)];
      i := i + 1;
    }
  }

  /** With the configured button list, button b in 1..8 approaches tag b. */
  method ConfiguredBindings() returns (bindings: seq<Binding>)
    ensures |bindings| == 8
    ensures forall i :: 0 <= i < 8 ==> bindings[i].button == bindings[i].tagId == i + 1
  {
    bindings := AprilTagBindings(AprilTagButtons);
  }
}
