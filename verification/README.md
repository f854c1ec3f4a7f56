# FRC 7426 off-season robot: a Dafny model of the robot's own logic

This project models the robot-specific code of an FRC (FIRST Robotics
Competition) robot. It does not model the WPILib, CTRE, PathPlanner or
Limelight libraries that code calls. The model covers these parts:

- **Reef scoring tracker** (`ReefState`). Six reef sides, two branches per
  side, and levels L2 to L4 per branch. It answers which coral position to
  fill next.
- **Vision subsystem** (`Vision`). Four Limelight cameras read from
  NetworkTables. It derives per-camera pose estimates and AprilTag maps and
  picks the best measurement.
- **Swerve drivetrain** (`SwerveDrive`). Odometry fusion with vision
  standard deviations, field-relative driving and live PID updates.
- **Limelight helper** (`Limelight`). Camera index checks, tag latching and
  the centring controllers.
- **Drive to an AprilTag** (`DriveToAprilTag`). The approach command: target
  pose, search timeout and path life cycle.
- **Operator input** (`RobotContainer`, `DeadpoolPanel`). The joystick
  deadband and squaring, the AprilTag button bindings and the custom panel's
  trigger encoding.
- **Superstructure** (`BodyConstants`, `Elevator`, `UpdateSetpoints`,
  `CoralIntake`). Named setpoints and their live retuning, the elevator's
  position control and speed schedule, the delayed setpoint command, and the
  coral rollers' shot speeds and overheat guard.
- **Operator feedback** (`Alert`, `JoystickStatus`). Persistent alerts with
  one-shot notifications, and the joystick status published to the
  dashboard.
- **On-robot web services** (`PidTuner`, `PropertiesHttp`,
  `ReconfigurableConfig`). The PID tuning endpoint with its hand-written
  JSON reader, and the form-driven editor for static configuration fields.
- **Auto duplicator script** (`AutoDuplicator`). The Node script that copies
  a PathPlanner auto and its paths under a " - RED" suffix.

## How the model is built

- Every mutable singleton becomes an immutable datatype.
- Every method becomes a function from the old state to the new one.
- Side effects the model keeps become returned effect lists: the
  Alert's DriverStation reports, the joystick status puts, the pose
  estimator calls, the AprilTag approach's path and drive requests, the
  duplicator's file writes and the properties form's field writes and
  reconfigure calls. The remaining side
  effects (dashboard puts, console output) are listed under "Left out",
  one line per member.
- These inputs are explicit parameters, because nothing here can compute
  them: the clock (`now`), cosine and sine (`Geometry.Trig`, constrained by
  `Geometry.Standard`), `Double.parseDouble`, URL decoding, the Limelight's
  Y PID controller, swerve kinematics, and the iteration order of a
  `HashMap`.
- Two pieces of code are plain definitions without a contract, because
  any contract would only repeat their one-line bodies:
  `CoralIntake.BrakeTrigger` (a brake trigger is the negated raw sensor
  input) and `BodyConstants.Feed` (every setpoint's wrist and elevator
  feed forward is zero).
- Java library behaviour the code depends on is modelled in `JavaText`:
  - `String.split` drops trailing empty pieces;
  - `split(regex, 2)` splits at the first separator only;
  - `trim` removes every character up to U+0020;
  - `replaceAll`;
  - the saturating, truncating `(int)` cast.

Where the code and its documentation disagree, the model follows the code:

- **Missing `botpose`.** `Vision.PoseEstimate` takes a missing `botpose`
  entry as six zeros, because that is the default the code passes to
  `getDoubleArray`. So a valid frame without a pose produces a measurement
  at the origin (`Vision.MissingBotposeGivesOrigin`). It does not produce
  "no observation".
- **Ambiguity.** The estimate's ambiguity is read from the `ta` entry
  (target area), with default 1.0 (`Vision.AmbiguityIsTargetArea`). It does
  not come from a separate ambiguity entry.

## Model

| member | source | states |
|---|---|---|
| ReefState.NewBranch | src/main/java/frc/robot/commands/ReefState.java:58-62 | a new branch has the given name and every level L2..L4 empty |
| ReefState.GetLevel | src/main/java/frc/robot/commands/ReefState.java:84-91 | a level outside 2..4 is an InvalidLevel error, and only such a level |
| ReefState.SetLevel | src/main/java/frc/robot/commands/ReefState.java:106-116 | afterwards the level reads back the state just set, every other level reads as before, and an invalid level is an error |
| ReefState.ToggleLevel | src/main/java/frc/robot/commands/ReefState.java:127-133 | the level reads the negation of its old value, no other level changes and the branch keeps its name |
| ReefState.ToggleLevelTwice | src/main/java/frc/robot/commands/ReefState.java:127-133 | toggling the same level twice restores the branch |
| ReefState.GetBranch | src/main/java/frc/robot/commands/ReefState.java:158-164 | only indices 0 and 1 are valid, and the branch returned is exactly the side's branch at that index |
| ReefState.BestEmptyCoordinate | src/main/java/frc/robot/commands/ReefState.java:195-207 | null exactly when every position is scored; otherwise an empty position such that every position earlier in the scan (L4 before L3 before L2, left before right) is scored |
| ReefState.NewReef | src/main/java/frc/robot/commands/ReefState.java:218-227 | the fresh reef has all six sides, both branches and all levels empty |
| ReefState.GetCell | src/main/java/frc/robot/commands/ReefState.java:249-251 | reading succeeds iff side, branch and level are valid; the side is checked first, then the branch, then the level |
| ReefState.SetCell | src/main/java/frc/robot/commands/ReefState.java:237-239 | the addressed cell reads back the new state, every other cell of the reef reads as before, and the error is the one reading would give |
| ReefState.ToggleCell | src/main/java/frc/robot/commands/ReefState.java:263-265 | the addressed cell flips, every other cell reads as before |
| ReefState.ToggleCellTwice | src/main/java/frc/robot/commands/ReefState.java:263-265 | a double toggle leaves every cell of the reef as it was |
| Vision.GetDouble | src/main/frc/robot/subsystems/VisionSubsystem.java:260-264 | a number entry is returned, and the default is returned when the entry is missing or has another type |
| Vision.GetDoubleArray | src/main/frc/robot/subsystems/VisionSubsystem.java:245 | an array entry is returned, and the default is returned when the entry is missing or has another type |
| Vision.CameraIndex | src/main/frc/robot/subsystems/VisionSubsystem.java:41-51 | only the four configured camera names resolve, each to its own slot |
| Vision.NewVision | src/main/frc/robot/subsystems/VisionSubsystem.java:41-64 | no target tag, no estimates and empty tag maps for all four cameras |
| Vision.PoseEstimate | src/main/frc/robot/subsystems/VisionSubsystem.java:236-277 | a measurement exists iff tv >= 0.5 and botpose has six entries; it carries x, y and yaw from botpose, the current time, ambiguity from ta, and the tag count from tid |
| Vision.InvalidFrameIgnoresContents | src/main/frc/robot/subsystems/VisionSubsystem.java:237-242 | with tv = 0 the other entries do not matter: there is no estimate |
| Vision.AmbiguityIsTargetArea | src/main/frc/robot/subsystems/VisionSubsystem.java:260-264 | the ambiguity equals the target area whenever ta is present |
| Vision.MissingBotposeGivesOrigin | src/main/frc/robot/subsystems/VisionSubsystem.java:244-249 | a valid frame with no botpose entry yields a measurement at the origin |
| Vision.PutTags | src/main/frc/robot/subsystems/VisionSubsystem.java:105-121 | the map gains every reported id, truncated to int, all mapped to the camera-space pose; other ids keep their pose |
| Vision.CameraTags | src/main/frc/robot/subsystems/VisionSubsystem.java:93-124 | a camera-space pose shorter than six entries clears the camera's map; otherwise the keys are exactly the truncated tag ids |
| Vision.Periodic | src/main/frc/robot/subsystems/VisionSubsystem.java:67-88 | each camera's estimate and tag map are recomputed from its own table, and the target tag is kept |
| Vision.SetTargetAprilTag | src/main/frc/robot/subsystems/VisionSubsystem.java:130-133 | only the target tag changes |
| Vision.ClearTargetAprilTag | src/main/frc/robot/subsystems/VisionSubsystem.java:138-141 | the target resets to -1 and nothing else changes |
| Vision.IsAprilTagVisible | src/main/frc/robot/subsystems/VisionSubsystem.java:148-155 | true iff some camera's map contains the tag |
| Vision.GetAprilTagPose | src/main/frc/robot/subsystems/VisionSubsystem.java:163-174 | present iff the camera name is known and that camera saw the tag; the pose is that camera's |
| Vision.MergeTags | src/main/frc/robot/subsystems/VisionSubsystem.java:180-188 | a key is in the union iff some merged camera saw it, and its pose comes from one of those cameras |
| Vision.GetAllVisibleAprilTags | src/main/frc/robot/subsystems/VisionSubsystem.java:180-188 | for any visiting order of the four cameras: a tag is in the result iff some camera saw it, and its pose is one camera's pose for it |
| Vision.SomesPositions | src/main/frc/robot/subsystems/VisionSubsystem.java:194-203 | collecting present estimates keeps them in camera order, each at the position given by the present estimates before it |
| Vision.GetAllVisionMeasurements | src/main/frc/robot/subsystems/VisionSubsystem.java:194-203 | the list holds exactly the present estimates, in front, right, back, left order |
| Vision.LowestAmbiguity | src/main/frc/robot/subsystems/VisionSubsystem.java:209-219 | the result is the first element of minimum ambiguity, and is empty only for an empty list |
| Vision.GetBestVisionMeasurement | src/main/frc/robot/subsystems/VisionSubsystem.java:209-219 | empty iff no camera has an estimate; otherwise one camera's estimate whose ambiguity is no larger than any other's, and on a tie the first such camera in the order front, right, back, left (every earlier camera with an estimate has a strictly larger ambiguity) |
| Vision.FirstInSomes | src/main/frc/robot/subsystems/VisionSubsystem.java:194-219 | the first least-ambiguous entry of the collected list comes from a camera slot before which every present estimate is strictly more ambiguous, so collecting and then taking the stream minimum keeps camera order on ties |
| SwerveDrive.AmbiguityFactor | src/main/java/frc/robot/subsystems/SwerveDriveSubsystem.java:141 | ten times the ambiguity, capped at 5 |
| SwerveDrive.AreaFactor | src/main/java/frc/robot/subsystems/SwerveDriveSubsystem.java:142 | between 0.5 and 50: 50 at or below area 0.1, and 0.5 at or above area 10 |
| SwerveDrive.AmbiguityFactorMonotone | src/main/java/frc/robot/subsystems/SwerveDriveSubsystem.java:141 | more ambiguity never lowers the factor |
| SwerveDrive.AreaFactorAntitone | src/main/java/frc/robot/subsystems/SwerveDriveSubsystem.java:142 | a larger target area never raises the factor |
| SwerveDrive.Distrust | src/main/java/frc/robot/subsystems/SwerveDriveSubsystem.java:141-143 | the combined scale of ambiguity and area factors lies in [0, 250] for non-negative ambiguity and is zero at zero ambiguity |
| SwerveDrive.DistrustMonotone | src/main/java/frc/robot/subsystems/SwerveDriveSubsystem.java:141-143 | the combined scale never decreases with more ambiguity or less target area |
| SwerveDrive.StdDevs | src/main/java/frc/robot/subsystems/SwerveDriveSubsystem.java:141-146 | the three deviations are the base deviations scaled by both factors; they are zero at zero ambiguity and bounded for non-negative ambiguity |
| SwerveDrive.StdDevsMonotone | src/main/java/frc/robot/subsystems/SwerveDriveSubsystem.java:141-146 | a measurement with no more ambiguity and no less area is trusted at least as much |
| SwerveDrive.Periodic | src/main/java/frc/robot/subsystems/SwerveDriveSubsystem.java:122-155 | odometry is updated first; then, only with vision enabled and present, one vision measurement per camera estimate is added, in order, with its computed deviations |
| SwerveDrive.FromFieldRelative | src/main/java/frc/robot/subsystems/SwerveDriveSubsystem.java:189-191 | the rotation rate passes through, and at heading 0 the field and robot frames agree |
| SwerveDrive.NewDrivetrain | src/main/java/frc/robot/subsystems/SwerveDriveSubsystem.java:26-80 | vision starts enabled and all four modules start with the default drive and turn PIDs |
| SwerveDrive.SetVisionEnabled | src/main/java/frc/robot/subsystems/SwerveDriveSubsystem.java:116-118 | only the vision flag changes |
| SwerveDrive.DriveSpeeds | src/main/java/frc/robot/subsystems/SwerveDriveSubsystem.java:188-203 | robot-relative speeds pass through unchanged; field-relative speeds are rotated by the heading |
| SwerveDrive.Drive | src/main/java/frc/robot/subsystems/SwerveDriveSubsystem.java:188-203 | each module receives its own state from the kinematics of the chosen speeds, and nothing else changes |
| SwerveDrive.RobotRelativeIgnoresHeading | src/main/java/frc/robot/subsystems/SwerveDriveSubsystem.java:188-203 | robot-relative driving does not depend on the gyro heading |
| SwerveDrive.FieldRelativeAtZeroHeading | src/main/java/frc/robot/subsystems/SwerveDriveSubsystem.java:188-203 | at heading 0, field-relative and robot-relative driving command the same module states |
| SwerveDrive.UpdatePidValues | src/main/java/frc/robot/subsystems/SwerveDriveSubsystem.java:250-255 | all four modules take both new configurations; desired states and the vision flag are kept |
| SwerveDrive.UpdatePidValuesIdempotent | src/main/java/frc/robot/subsystems/SwerveDriveSubsystem.java:250-255 | applying the same PID update twice equals applying it once |
| Limelight.NewLimelight | src/main/java/frc/robot/shared/Limelight.java:26-63 | no tag latched, all per-camera readings 0, and the default gains 0.04 and 0.05 |
| Limelight.ValidateLimelightAsWritten | src/main/java/frc/robot/shared/Limelight.java:70-77 | indices 0..3 are valid, a negative index or one above 4 is invalid, and index 4 indexes past the array and throws |
| Limelight.ValidateLimelightOffByOne | src/main/java/frc/robot/shared/Limelight.java:71 | the as-written bound lets index 4 through to an out-of-bounds access that the corrected check rejects |
| Limelight.ValidateLimelightCorrected | src/main/java/frc/robot/shared/Limelight.java:70-77 | the corrected check agrees with the code wherever the code returns, differs only at index 4, and accepts only indices into the camera array |
| Limelight.GetTx | src/main/java/frc/robot/shared/Limelight.java:103-108 | the camera's tx when it sees a tag, and 0 otherwise |
| Limelight.GetTa | src/main/java/frc/robot/shared/Limelight.java:115-120 | the camera's ta when it sees a tag, and 0 otherwise |
| Limelight.GetId | src/main/java/frc/robot/shared/Limelight.java:127-132 | the camera's fiducial id when it sees a tag; otherwise the last latched id |
| Limelight.RotationValue | src/main/java/frc/robot/shared/Limelight.java:151-157 | element 4 of the robot-space target pose, or 0 when the array is shorter |
| Limelight.Periodic | src/main/java/frc/robot/shared/Limelight.java:145-187 | every camera's tx, ta, rotation and Y output are refreshed; the front-right id is latched only when it is positive, and the detection flag follows it |
| Limelight.DetectedImpliesPositiveId | src/main/java/frc/robot/shared/Limelight.java:160-165 | the detection flag is never raised with a non-positive id |
| Limelight.LostTagKeepsLatch | src/main/java/frc/robot/shared/Limelight.java:160-165 | losing the tag keeps the old id, and the flag reflects whether that old id is positive |
| Limelight.DeadZone | src/main/java/frc/robot/shared/Limelight.java:193-207 | zero inside the threshold, and error times gain outside it |
| Limelight.DeadZoneSign | src/main/java/frc/robot/shared/Limelight.java:193-207 | with a positive gain the output has the sign of the error outside the dead zone |
| Limelight.CenterRotationRate | src/main/java/frc/robot/shared/Limelight.java:193-207 | zero without a tag or within the threshold; otherwise proportional to the rotation error with gain kPR |
| Limelight.CenterTx | src/main/java/frc/robot/shared/Limelight.java:213-226 | zero without a tag or within the threshold; otherwise proportional to the tx error with gain 0.75 kPX |
| Limelight.CenterTy | src/main/java/frc/robot/shared/Limelight.java:232-248 | zero without a tag or within the area threshold; otherwise 0.6 times the camera's Y PID output |
| Limelight.RotationTurnsTowardTarget | src/main/java/frc/robot/shared/Limelight.java:193-207 | with the default gain, the rotation command turns toward the target rotation |
| Limelight.CloseNeedsTag | src/main/java/frc/robot/shared/Limelight.java:250-262 | after a cycle, isCloseLeft (camera 1's cached area) and isCloseRight (camera 0's) each hold iff that camera sees a tag with area above 1.5 |
| DriveToAprilTag.NewApproach | src/main/java/frc/robot/commands/DriveToAprilTagCommand.java:41-57 | no path, tag not found, and the parameters recorded |
| DriveToAprilTag.CalculateTargetPose | src/main/java/frc/robot/commands/DriveToAprilTagCommand.java:129-152 | the goal lies the approach distance back from the tag along its heading, facing the tag's heading |
| DriveToAprilTag.TargetPoseAtNinetyDegrees | src/main/java/frc/robot/commands/DriveToAprilTagCommand.java:129-152 | a tag at (2, 3) facing 90 degrees gives the goal (2, 2.9) at 0.1 m |
| DriveToAprilTag.TargetPoseAtZeroDegrees | src/main/java/frc/robot/commands/DriveToAprilTagCommand.java:129-152 | a tag facing 0 degrees gives a goal straight back along x |
| DriveToAprilTag.Initialize | src/main/java/frc/robot/commands/DriveToAprilTagCommand.java:59-69 | the search restarts at the current time and vision is told the target tag |
| DriveToAprilTag.Execute | src/main/java/frc/robot/commands/DriveToAprilTagCommand.java:71-92 | while searching, a sighting marks the tag found and starts a path to the computed goal; with no sighting nothing changes; after the search only an existing path is stepped |
| DriveToAprilTag.End | src/main/java/frc/robot/commands/DriveToAprilTagCommand.java:94-109 | a path is ended iff one exists, the robot is always stopped last, and the vision target is cleared |
| DriveToAprilTag.FoundStaysFound | src/main/java/frc/robot/commands/DriveToAprilTagCommand.java:71-92 | once the tag is found, later executes never change the command or start another path |
| DriveToAprilTag.PathCreatedAtMostOnce | src/main/java/frc/robot/commands/DriveToAprilTagCommand.java:71-92 | over any run of executes at most one path is created |
| DriveToAprilTag.TimeoutFinishes | src/main/java/frc/robot/commands/DriveToAprilTagCommand.java:111-121 | an unfound tag after the timeout finishes the command |
| DriveToAprilTag.IsFinished | src/main/java/frc/robot/commands/DriveToAprilTagCommand.java:111-121 | an unfound tag finishes exactly when the search has timed out; a found one exactly when a path exists and the path command has finished |
| DriveToAprilTag.FoundFinishesWithPath | src/main/java/frc/robot/commands/DriveToAprilTagCommand.java:71-121 | after a sighting during the search, the command finishes exactly when its path does |
| DriveToAprilTag.SearchingDoesNotFinish | src/main/java/frc/robot/commands/DriveToAprilTagCommand.java:111-121 | the command does not finish while it is still searching within the timeout |
| RobotContainer.ApplyDeadband | src/main/frc/robot/RobotContainer.java:117-127 | zero inside the deadband; outside it the value is shifted toward zero by the deadband and rescaled by 1/(1 - deadband) |
| RobotContainer.SignedSquare | src/main/frc/robot/RobotContainer.java:112 | the square of the magnitude, with the sign of the input kept |
| RobotContainer.ModifyAxis | src/main/frc/robot/RobotContainer.java:107-115 | zero inside the 0.1 deadband, and the signed square of the rescaled value outside it, with the input's sign |
| RobotContainer.DeadbandSignAndOddness | src/main/frc/robot/RobotContainer.java:117-127 | the deadband keeps the input's sign outside the band and is an odd function |
| RobotContainer.DeadbandRange | src/main/frc/robot/RobotContainer.java:117-127 | full stick range maps onto full range, with the end points fixed |
| RobotContainer.ModifyAxisOdd | src/main/frc/robot/RobotContainer.java:107-115 | stick shaping is symmetric: reversing the stick reverses the output |
| RobotContainer.ModifyAxisRange | src/main/frc/robot/RobotContainer.java:107-115 | the shaped output stays in [-1, 1] and full deflection gives full output |
| RobotContainer.ModifyAxisHalfDeflection | src/main/frc/robot/RobotContainer.java:107-115 | half deflection gives 16/81 and a 0.05 input gives nothing |
| RobotContainer.AprilTagBindings | src/main/frc/robot/RobotContainer.java:77-96 | button i of the list drives to tag i + 1 at the approach distance with the front camera |
| RobotContainer.ConfiguredBindings | src/main/java/frc/robot/Constants.java:170 | with the configured buttons 1..8, button n drives to tag n |
| BodyConstants.WristSlot | src/main/java/frc/robot/subsystems/body/BodyConstants.java:75-91 | the wrist slot is 0, 1 or 2; 0 exactly for the scoring, algae-pickup, climb-start and test setpoints, and 1 exactly for the high idle and human-player setpoints |
| BodyConstants.ElevatorSlot | src/main/java/frc/robot/subsystems/body/BodyConstants.java:75-91 | the elevator slot is 0 exactly for Idle, IdleHigh and L1, and 2 exactly for AlgaeIdle, HumanPlayer and ClimberEnd |
| BodyConstants.Load | src/main/java/frc/robot/subsystems/body/BodyConstants.java:73-107 | every setpoint starts at the position its tunable constants name, and the limits are built from them |
| BodyConstants.SetWristPosition | src/main/java/frc/robot/subsystems/body/BodyConstants.java:109-111 | only that setpoint's wrist angle changes |
| BodyConstants.SetElevatorPosition | src/main/java/frc/robot/subsystems/body/BodyConstants.java:113-115 | only that setpoint's elevator height changes |
| BodyConstants.Reconfigure | src/main/java/frc/robot/subsystems/body/BodyConstants.java:166-190 | wrist limits are rebuilt from the tunables; the ten refreshed setpoints take their tunable positions; every other setpoint and the elevator limits are kept |
| BodyConstants.NotRefreshedEntries | src/main/java/frc/robot/subsystems/body/BodyConstants.java:166-190 | exactly AlgaeIdle, IdleHigh, L1, GroundAlgae, BargeBack, ClimberStart and ClimberEnd are not refreshed |
| BodyConstants.ReconfigureIdempotent | src/main/java/frc/robot/subsystems/body/BodyConstants.java:166-190 | reconfiguring twice equals reconfiguring once |
| BodyConstants.ReconfigureAfterLoad | src/main/java/frc/robot/subsystems/body/BodyConstants.java:166-190 | reconfiguring right after loading changes no position and no wrist limit |
| BodyConstants.AlgaeIdleNotRetuned | src/main/java/frc/robot/subsystems/body/BodyConstants.java:166-190 | retuning the idle position moves Idle but leaves AlgaeIdle at the old idle position, although both were built from the same constants |
| BodyConstants.ElevatorLimitsNotRebuilt | src/main/java/frc/robot/subsystems/body/BodyConstants.java:169 | changing the elevator forward limit constant does not change the limits after reconfigure |
| Elevator.NewElevator | src/main/java/frc/robot/subsystems/body/Elevator.java:94 | the elevator starts at IdleHigh |
| Elevator.UpdateSetpoint | src/main/java/frc/robot/subsystems/body/Elevator.java:207-209 | the new setpoint is recorded |
| Elevator.ConversionRoundTrip | src/main/java/frc/robot/subsystems/body/Elevator.java:211-227 | over exact reals, converting inches to rotations (divide by 4.25) and back is the identity in both directions |
| Elevator.MoveToSetpoint | src/main/java/frc/robot/subsystems/body/Elevator.java:211-219 | the commanded rotations read back as the setpoint's height, with the setpoint's slot and zero feed-forward |
| Elevator.GetError | src/main/java/frc/robot/subsystems/body/Elevator.java:226-231 | the error is the measured height minus the height of the commanded position; zero iff the encoder is at that position, and positive iff above it |
| Elevator.Schedule | src/main/java/frc/robot/subsystems/body/Elevator.java:103-114 | at or below 9 in the drive limits are the full 4.74 m/s and 0.75 rot/s; above 9 in each is its full value divided by 0.55 times the height, so strictly smaller and positive; the Limelight speed is 0.65 at L4 and 1 otherwise |
| Elevator.ScheduleDecreasing | src/main/java/frc/robot/subsystems/body/Elevator.java:103-106 | above 9 in, a higher carriage strictly lowers both speed limits |
| Elevator.LevelTestsNest | src/main/java/frc/robot/subsystems/body/Elevator.java:248-268 | with level heights in order, being at L4 implies being at L3, and L3 implies L2 |
| Elevator.DefaultLevelTests | src/main/java/frc/robot/subsystems/body/Elevator.java:248-275 | with the shipped heights the level tests nest, and no height is both idle and at L2 |
| Elevator.LevelTestsAtNamedHeights | src/main/java/frc/robot/subsystems/body/Elevator.java:248-289 | isL4, isL3 and isL2 hold at or above their level height and fail one inch or more below it; isIdle holds at or below idle height and fails 1.5 in above; isIdleHigh likewise with 3 in; isClimbHigh holds from the climb start height and fails more than 1.17 in below it |
| Elevator.HeldSetpointPassesTest | src/main/java/frc/robot/subsystems/body/Elevator.java:226-289 | an elevator holding L4, L3, L2, Idle, IdleHigh or ClimberStart with zero error, on positions loaded from the same constants, passes that setpoint's test |
| UpdateSetpoints.NewCommand | src/main/java/frc/robot/commands/UpdateSetpoints.java:22-24 | the one-argument constructor has zero delays |
| UpdateSetpoints.Initialize | src/main/java/frc/robot/commands/UpdateSetpoints.java:38-40 | the timer restarts at the current time and nothing else changes |
| UpdateSetpoints.Execute | src/main/java/frc/robot/commands/UpdateSetpoints.java:43-51 | each mechanism takes the command's setpoint exactly when its delay is non-positive or has elapsed, and otherwise keeps its own |
| UpdateSetpoints.IsFinished | src/main/java/frc/robot/commands/UpdateSetpoints.java:60-66 | with two positive delays the command is finished exactly when the longer delay has elapsed since the timer restart; a non-positive delay drops out of the test, and with both non-positive it is finished at once |
| UpdateSetpoints.ReleasedStays | src/main/java/frc/robot/commands/UpdateSetpoints.java:44-50 | once a mechanism is released it stays released as time advances |
| UpdateSetpoints.UndelayedFinishesImmediately | src/main/java/frc/robot/commands/UpdateSetpoints.java:22-66 | a command without delays is finished at any time after it starts |
| UpdateSetpoints.FinishedMeansBothAtSetpoint | src/main/java/frc/robot/commands/UpdateSetpoints.java:43-66 | when the command reports finished, its execute has sent the setpoint to both mechanisms |
| UpdateSetpoints.ExecuteIdempotentAfterFinish | src/main/java/frc/robot/commands/UpdateSetpoints.java:43-66 | after finishing, a later execute changes nothing |
| CoralIntake.FirstBelow | src/main/java/frc/robot/subsystems/manipulator/CoralIntake.java:130-154 | the reference step function: the value of the first band whose edge lies above the height, or the top value above every edge |
| CoralIntake.ShotSpeedBottom | src/main/java/frc/robot/subsystems/manipulator/CoralIntake.java:130-141 | the bottom roller speed is 0.6, 0.8 or 1.0, and 1.0 above every band edge |
| CoralIntake.ShotSpeedTop | src/main/java/frc/robot/subsystems/manipulator/CoralIntake.java:143-154 | the top roller speed is 0.41, 0.75 or 1.0, and 1.0 above every band edge |
| CoralIntake.ShotSpeedsAreSteps | src/main/java/frc/robot/subsystems/manipulator/CoralIntake.java:130-154 | both if-chains equal the step function over the band edges L1, L2 and L3 plus 0.25 in |
| CoralIntake.ShotSpeedsMonotone | src/main/java/frc/robot/subsystems/manipulator/CoralIntake.java:130-154 | with the level heights in order, a higher elevator never gives a slower shot |
| CoralIntake.DefaultBandsIncreasing | src/main/java/frc/robot/subsystems/body/BodyConstants.java:58-60 | the shipped L1, L2 and L3 heights are in increasing order, so the monotonicity applies |
| CoralIntake.SetPercent | src/main/java/frc/robot/subsystems/manipulator/CoralIntake.java:89-101 | both rollers take the requested outputs unless either motor is overheated, in which case neither changes |
| CoralIntake.Stop | src/main/java/frc/robot/subsystems/manipulator/CoralIntake.java:116-119 | both rollers are set to 0 |
| CoralIntake.FaultFreezesBoth | src/main/java/frc/robot/subsystems/manipulator/CoralIntake.java:89-101 | one overheated motor freezes both rollers |
| CoralIntake.FaultedRunFreezes | src/main/java/frc/robot/subsystems/manipulator/CoralIntake.java:89-106 | when every tick of the run command sees a temperature fault, the rollers end the run at the outputs they started it with |
| CoralIntake.RunEndsAtLastHealthy | src/main/java/frc/robot/subsystems/manipulator/CoralIntake.java:89-106 | after any run the rollers hold the outputs of the last fault-free request, whatever faulted requests follow it |
| CoralIntake.StopHoldsUnderFault | src/main/java/frc/robot/subsystems/manipulator/CoralIntake.java:89-119 | stop zeroes the rollers without the fault check, and a run of faulted requests afterwards leaves them at zero |
| Alert.NewAlert | src/main/java/frc/robot/shared/Alert.java:35-80 | a new alert is inactive, not yet notified, has start time 0, and its notification carries its title, message and level |
| Alert.Set | src/main/java/frc/robot/shared/Alert.java:86-106 | a rising edge stamps the start time and reports the message once at the alert's level; the notification is sent iff it was not yet displayed; the alert becomes the requested activity |
| Alert.SetText | src/main/java/frc/robot/shared/Alert.java:109-124 | the message is replaced, and the new text is reported only when the alert is active and the text differs |
| Alert.CountNotifiesAppend | src/main/java/frc/robot/shared/Alert.java:102-105 | notification counts add up over concatenated effect lists |
| Alert.NoNotifyOnceDisplayed | src/main/java/frc/robot/shared/Alert.java:102-105 | once displayed, no further call sends a notification |
| Alert.NotificationSentOnce | src/main/java/frc/robot/shared/Alert.java:102-105 | over any sequence of set calls, an alert's notification is sent exactly once, on the first call |
| Alert.StartTimeKeptWhileActive | src/main/java/frc/robot/shared/Alert.java:87-88 | setting an active alert active again keeps its start time |
| Alert.Construct | src/main/java/frc/robot/shared/Alert.java:61-80 | the group is created when missing, the new alert is appended to that group only, and other groups are untouched |
| Alert.ConstructDefault | src/main/java/frc/robot/shared/Alert.java:46-48 | the one-group constructor files the alert under "Alerts" |
| Alert.ConstructPreservesWellFormed | src/main/java/frc/robot/shared/Alert.java:27-80 | group membership keeps referring to distinct, existing alerts |
| Alert.Shown | src/main/java/frc/robot/shared/Alert.java:130 | an alert is listed iff it has the requested level and is active |
| Alert.CompareWithinASecondIsZero | src/main/java/frc/robot/shared/Alert.java:131-132 | the comparator truncates to int, so alerts started less than a second apart compare equal |
| Alert.CompareNotTransitive | src/main/java/frc/robot/shared/Alert.java:131-132 | start times 0, 0.6 and 1.2 make the comparator intransitive |
| Alert.GetStrings | src/main/java/frc/robot/shared/Alert.java:129-138 | one string per shown alert, each the message of an active alert of that level, and the list is a permutation of the shown alerts' messages: every message occurs as often as it is shown |
| Alert.GetStringsListsEveryShown | src/main/java/frc/robot/shared/Alert.java:129-138 | whatever the sort produces, every active alert of the level has its message listed |
| JoystickStatus.UpdateStatus | src/main/java/frc/robot/commands/JoystickStatusCommand.java:43-53 | the connection flag is published first along with the status text; name and button count are published iff the joystick is connected |
| JoystickStatus.StatusTextDistinguishes | src/main/java/frc/robot/commands/JoystickStatusCommand.java:46-51 | the status texts "Connected" and "Disconnected" tell the two connection states apart |
| JoystickStatus.Initialize | src/main/java/frc/robot/commands/JoystickStatusCommand.java:23-27 | the current connection is recorded and the status is published |
| JoystickStatus.Execute | src/main/java/frc/robot/commands/JoystickStatusCommand.java:29-38 | the dashboard is written iff the connection state changed |
| JoystickStatus.IsFinished | src/main/java/frc/robot/commands/JoystickStatusCommand.java:55-59 | the command never finishes |
| JoystickStatus.UpdateStatusShows | src/main/java/frc/robot/commands/JoystickStatusCommand.java:43-53 | after an update the dashboard shows that connection state and the matching text |
| JoystickStatus.RunTicksShows | src/main/java/frc/robot/commands/JoystickStatusCommand.java:29-38 | writing only on change keeps a correct dashboard correct |
| JoystickStatus.DashboardTracksConnection | src/main/java/frc/robot/commands/JoystickStatusCommand.java:23-38 | after initialize and any run of executes, the dashboard shows the latest connection state |
| DeadpoolPanel.And | src/main/java/frc/robot/controllers/DeadpoolPanel.java:49 | a combined trigger fires iff both parts fire |
| DeadpoolPanel.StaticButtonsCoverPanel | src/main/java/frc/robot/controllers/DeadpoolPanel.java:11-41 | the eighteen named triggers use buttons 1..18, each exactly once |
| DeadpoolPanel.ButtonPressFromInteger | src/main/java/frc/robot/controllers/DeadpoolPanel.java:43-53 | below 12 the trigger is that one button; from 12 on it is button b mod 12 together with the shift button 1 |
| DeadpoolPanel.TriggerBinaryInteger | src/main/java/frc/robot/controllers/DeadpoolPanel.java:54-64 | the trigger always holds button 1, and for values above 1 adds button 2 for bit 1 and button 3 for bit 2 |
| DeadpoolPanel.OnlyBitsOneAndTwoMatter | src/main/java/frc/robot/controllers/DeadpoolPanel.java:54-64 | values that differ by a multiple of 8, or only in bit 0, select the same extra buttons |
| ReconfigurableConfig.AddReconfigs | src/main/java/frc/robot/subsystems/ReconfigurableConfig.java:18-27 | an empty registry is filled with the six classes; a non-empty one is left alone |
| ReconfigurableConfig.AddReconfigsIdempotent | src/main/java/frc/robot/subsystems/ReconfigurableConfig.java:18-27 | registering twice equals registering once |
| ReconfigurableConfig.RegisteredDistinct | src/main/java/frc/robot/subsystems/ReconfigurableConfig.java:19-25 | the six registered class names are distinct |
| ReconfigurableConfig.FindReconfigurableConfigs | src/main/java/frc/robot/subsystems/ReconfigurableConfig.java:29-32 | the returned list is the registry after registration, and never empty |
| ReconfigurableConfig.IsContainReconfig | src/main/java/frc/robot/subsystems/ReconfigurableConfig.java:34-43 | true iff the class name occurs in the registry after registration |
| ReconfigurableConfig.FreshRegistryHoldsTheSix | src/main/java/frc/robot/subsystems/ReconfigurableConfig.java:18-43 | on a fresh registry exactly the six classes are found, the climber among them |
| PidTuner.ParseValue | src/main/frc/robot/web/PIDTunerServer.java:352-365 | a quoted value of two or more characters is the string between the quotes; an unquoted value is a number when parseDouble accepts it and the raw text when it does not; only the lone quote `"` throws, because its substring(1, 0) is out of range |
| PidTuner.ParsePair | src/main/frc/robot/web/PIDTunerServer.java:347-366 | a piece that does not split into exactly two at ':' is skipped, and keys lose every quote |
| PidTuner.ParsePairs | src/main/frc/robot/web/PIDTunerServer.java:345-367 | parsing only adds keys, every key it adds is free of `"`, and the only fault is the lone-quote value |
| PidTuner.ParsePairsKeepsKey | src/main/frc/robot/web/PIDTunerServer.java:345-367 | pieces that never set a key leave its presence and value as they were |
| PidTuner.ParsePairsLastWins | src/main/frc/robot/web/PIDTunerServer.java:345-367 | a later piece overwrites an earlier one: each key ends with the value of the last piece that sets it |
| PidTuner.StripBracesShape | src/main/frc/robot/web/PIDTunerServer.java:337-343 | the trimmed text loses at most one leading `{` and one trailing `}`, so the result is a slice of it at most two characters shorter, starting after the `{` when there is one, and equal to it when there is neither brace |
| PidTuner.StripWrapped | src/main/frc/robot/web/PIDTunerServer.java:337-343 | text wrapped in one pair of braces gives back exactly what was wrapped |
| PidTuner.ParseJson | src/main/frc/robot/web/PIDTunerServer.java:331-370 | no key of a parsed object holds a `"`, and the only fault is the lone-quote value |
| PidTuner.EmptyObject | src/main/frc/robot/web/PIDTunerServer.java:331-370 | `{}` and the empty body both parse to an empty map |
| PidTuner.ParsePairRendered | src/main/frc/robot/web/PIDTunerServer.java:347-366 | one field as `Render` writes it (quoted key, colon, unescaped value) parses back to its key and value |
| PidTuner.ParseJsonRoundTrip | src/main/frc/robot/web/PIDTunerServer.java:331-370 | the reader inverts the writer `Render` (a flat object with quoted keys and no escaping) for fields whose keys have no quote, comma or colon, whose strings have no comma or colon, and whose numbers read back through parseDouble; later duplicate keys win |
| PidTuner.NewTuner | src/main/frc/robot/web/PIDTunerServer.java:20-35 | the server starts with the default drive and turn PIDs and no pending update |
| PidTuner.StatusCode | src/main/frc/robot/web/PIDTunerServer.java:284-320 | 200 only for an update, and 405 only for a non-POST method |
| PidTuner.GetNumber | src/main/frc/robot/web/PIDTunerServer.java:297-300 | a number is read iff the key holds a number; otherwise the cast fails |
| PidTuner.ReadRequest | src/main/frc/robot/web/PIDTunerServer.java:296-300 | a request reads successfully only if p, i, d and f are all numbers |
| PidTuner.Handle | src/main/frc/robot/web/PIDTunerServer.java:284-320 | non-POST is refused without change; any failure leaves the state alone; a success sets the update flag and replaces only the configuration of the named type |
| PidTuner.HasUpdates | src/main/frc/robot/web/PIDTunerServer.java:61-63 | reports the flag and clears it, leaving both configurations |
| PidTuner.UpdateSeenOnce | src/main/frc/robot/web/PIDTunerServer.java:61-63 | a successful update is reported by the next poll and not by the one after |
| PidTuner.PageRequestUpdates | src/main/frc/robot/web/PIDTunerServer.java:284-320 | the page's own request for drive or turn installs exactly the submitted gains for that type and keeps the other type |
| PidTuner.InvalidTypeChangesNothing | src/main/frc/robot/web/PIDTunerServer.java:303-310 | a well-formed request with an unknown type is answered "invalid type" and changes nothing |
| PropertiesHttp.Dispatch | src/main/java/frc/robot/shared/PropertiesHttpService.java:62-69 | GET in any letter case serves the form, POST the update, and anything else is refused |
| PropertiesHttp.DispatchIgnoresCase | src/main/java/frc/robot/shared/PropertiesHttpService.java:62-69 | "get", "Get" and "GET" are all the form; PUT and DELETE get 405 |
| PropertiesHttp.FirstClassNameParam | src/main/java/frc/robot/shared/PropertiesHttpService.java:75-84 | no selection means no parameter splits into exactly className and a value |
| PropertiesHttp.ClassNameFromQuery | src/main/java/frc/robot/shared/PropertiesHttpService.java:72-89 | the class is always registered or the climber default, and a missing query gives the default |
| PropertiesHttp.QuerySelectsRegisteredClass | src/main/java/frc/robot/shared/PropertiesHttpService.java:72-89 | `className=x` selects the decoded class when it is registered |
| PropertiesHttp.OnlyFirstParameterCounts | src/main/java/frc/robot/shared/PropertiesHttpService.java:79-82 | the loop stops at the first className, so an unregistered first value falls back to the default even if a later one is registered |
| PropertiesHttp.IsEditableType | src/main/java/frc/robot/shared/PropertiesHttpService.java:176-190 | an editable type is named int, double, boolean or java.lang.String, and among types whose names Java reserves for those four classes, exactly those names are editable |
| PropertiesHttp.TypeName | src/main/java/frc/robot/shared/PropertiesHttpService.java:169 | the four editable types have the names int, double, boolean and java.lang.String; every other class keeps its own name |
| PropertiesHttp.EditableNamesDistinct | src/main/java/frc/robot/shared/PropertiesHttpService.java:169-190 | two editable types with the same name are the same type, so the log line's type name identifies the type |
| PropertiesHttp.LogField | src/main/java/frc/robot/shared/PropertiesHttpService.java:167-173 | the line is "public static ", then the type name, a space, the field name, " = ", the value and "; \n", each slice at the offset the lengths before it give |
| PropertiesHttp.FormPairs | src/main/java/frc/robot/shared/PropertiesHttpService.java:229-234 | the pieces read as pairs iff every piece decodes, one pair per piece in body order, each the decoded text before the first `=` and the decoded rest or "" |
| PropertiesHttp.FormData | src/main/java/frc/robot/shared/PropertiesHttpService.java:229-234 | an undecodable piece fails the form; a parsed form maps every piece's key to its value and holds no other key |
| PropertiesHttp.CollectToMap | src/main/java/frc/robot/shared/PropertiesHttpService.java:231-234 | without a duplicate, every pair is in the map with its value and no other key is; a failure is a duplicate key |
| PropertiesHttp.RepeatedKeyFails | src/main/java/frc/robot/shared/PropertiesHttpService.java:231-234 | a key that occurs twice makes Collectors.toMap throw |
| PropertiesHttp.CollectErrHasRepeat | src/main/java/frc/robot/shared/PropertiesHttpService.java:231-234 | collection fails only when some key occurs twice |
| PropertiesHttp.FormPairsOfEntries | src/main/java/frc/robot/shared/PropertiesHttpService.java:229-234 | splitting each encoded `key=value` at the first '=' and decoding gives back the decoded pairs |
| PropertiesHttp.FormDataRoundTrip | src/main/java/frc/robot/shared/PropertiesHttpService.java:229-234 | a form body joined from encoded pairs with distinct keys parses to exactly the map of the decoded pairs |
| PropertiesHttp.ApplyKeys | src/main/java/frc/robot/shared/PropertiesHttpService.java:236-260 | a class that is not reconfigurable never fails and only has fields set; a reconfigurable, constructible class never fails; a reconfigurable class without a usable constructor fails with NoDefaultConstructor at the first key, after at most that key's field write; every field write sets a listed key other than className to its form value; and when the loop completes every listed key other than className was written with its form value |
| PropertiesHttp.ReconfigureOncePerKey | src/main/java/frc/robot/shared/PropertiesHttpService.java:236-260 | reconfigure runs once per form key, the className key included, not once per request |
| PropertiesHttp.ApplyKeysReturnsClassName | src/main/java/frc/robot/shared/PropertiesHttpService.java:236-261 | the method returns the className field when present, and the initial value otherwise |
| PropertiesHttp.UpdateConfigFromFormData | src/main/java/frc/robot/shared/PropertiesHttpService.java:227-262 | a malformed form changes nothing and fails; a form without className, or naming a class that cannot be loaded, changes nothing and fails with that fault; for a loadable class the update succeeds exactly when the class is not reconfigurable or has a usable constructor, and a reconfigurable class without one (the code's Elevator and Climber, whose constructors are private) fails after at most one field write; a success has written every other form field with its value |
| PropertiesHttp.HandlePost | src/main/java/frc/robot/shared/PropertiesHttpService.java:193-225 | the reply is always 200, with an empty back link when the update failed |
| PropertiesHttp.PostLinksBackToFormClass | src/main/java/frc/robot/shared/PropertiesHttpService.java:198-207 | after a successful update the page links back to the class named in the form |
| AutoDuplicator.OutputNameAsWritten | src/main/java/frc/robot/scripts/autoduplicator/main.js:29-40 | kept as written; its contract lives in DottedPathNameBreaksReference |
| AutoDuplicator.DottedPathNameBreaksReference | src/main/java/frc/robot/scripts/autoduplicator/main.js:25-40 | for path "a.b" the file written is "a - RED.path", while the copied auto refers to "a.b - RED" |
| AutoDuplicator.NamingAgreesWithoutDots | src/main/java/frc/robot/scripts/autoduplicator/main.js:29-40 | for names without a dot, the written naming and the corrected naming agree |
| AutoDuplicator.StripExtension | src/main/java/frc/robot/scripts/autoduplicator/main.js:29-40 | removing up to the last dot strips exactly a one-dot extension |
| AutoDuplicator.CopiedPathIsTheReferencedOne | src/main/java/frc/robot/scripts/autoduplicator/main.js:25-40 | with the corrected naming, the copied path file is the one the renamed auto command refers to |
| AutoDuplicator.RenameWaypoints | src/main/java/frc/robot/scripts/autoduplicator/main.js:35-39 | linked waypoints get the suffix, unlinked ones are untouched, and nothing else changes |
| AutoDuplicator.DuplicatePath | src/main/java/frc/robot/scripts/autoduplicator/main.js:32-41 | a path file that exists is written under its suffixed name, its waypoints renamed by `RenameWaypoints` (each linked name suffixed, everything else kept) and the rest of its content unchanged; a missing file is an error |
| AutoDuplicator.RenameCommands | src/main/java/frc/robot/scripts/autoduplicator/main.js:23-28 | path commands get the suffix on their path name and every other command is untouched |
| AutoDuplicator.OneCopyPerPathCommand | src/main/java/frc/robot/scripts/autoduplicator/main.js:23-28 | a completed pass writes exactly one path copy per path command, in command order: copy i is the write `duplicatePath` makes for the i-th path command, and each copy's name is one a renamed command refers to |
| AutoDuplicator.DuplicateAuto | src/main/java/frc/robot/scripts/autoduplicator/main.js:20-30 | a missing auto writes nothing; the run completes exactly when its pass over the commands does; a completed run issues the pass's path copies and then the renamed auto's write, under its suffixed name; an incomplete run issues only the copies made before the missing path; `fs.writeFile` is asynchronous, so "last" is the order the writes are issued in |
| AutoDuplicator.DuplicateAutoCopiesEachPath | src/main/java/frc/robot/scripts/autoduplicator/main.js:20-41 | a completed run issues one more write than the routine has path commands, and write i is `duplicatePath`'s write for the i-th path command |
| AutoDuplicator.DuplicateChosen | src/main/java/frc/robot/scripts/autoduplicator/main.js:57-58 | an index outside the list writes nothing; otherwise the chosen auto is duplicated with " - RED" |
| JavaText.JavaSplit | src/main/frc/robot/web/PIDTunerServer.java:345-347 | Java split: the pieces between separators, with trailing empty pieces dropped |
| JavaText.JavaSplitJoin | src/main/java/frc/robot/shared/PropertiesHttpService.java:229 | splitting a join of separator-free pieces with a non-empty last piece gives the pieces back |
| JavaText.JavaSplitFirst | src/main/java/frc/robot/shared/PropertiesHttpService.java:230 | split with limit 2: the text before the first separator and everything after it |
| JavaText.Trim | src/main/frc/robot/web/PIDTunerServer.java:337-352 | the result is a slice of the input with no character at or below U+0020 at either end |
| JavaText.IntCast | src/main/java/frc/robot/shared/Alert.java:132 | the cast truncates toward zero, stays within the 32-bit bounds, and gives exactly the bound for any value at or beyond one past it |
| JavaText.IntCastOfInt | src/main/java/frc/robot/shared/Alert.java:132 | a whole number within the 32-bit range casts to itself |
| JavaText.IntCastMonotone | src/main/java/frc/robot/shared/Alert.java:132 | the cast never reverses the order of two values |

## Left out

- RobotContainer.ApplyDeadband: requires a deadband other than 1, because Java divides by zero there and yields an infinity, which reals cannot express.
- SwerveDrive.Drive: swerve kinematics and wheel-speed desaturation are a parameter, because they are library code.
- SwerveDrive.Periodic: the module positions passed to the odometry update are not recorded, because only the gyro heading is under this code's control. The field widget update (`field2d.setRobotPose`) and the eleven dashboard numbers (pose X, Y and heading, and each module's speed and angle) are left out, because they only publish values.
- SwerveDrive.SetVisionEnabled: the dashboard put of the "Drive/Vision Enabled" flag is left out; only the flag itself is modelled.
- SwerveDrive.UpdatePidValues: the console line reporting the new drive and turn PIDs is left out; only the module configurations are modelled.
- DriveToAprilTag.Initialize: the "Status" dashboard text announcing the search is left out.
- DriveToAprilTag.Execute: the "Status" dashboard text announcing that the tag was found is left out.
- DriveToAprilTag.End: the "Status" dashboard text reporting completion or interruption is left out.
- DriveToAprilTag.IsFinished: the "Status" dashboard text announcing the timeout is left out; only the verdict is modelled.
- Java doubles are modelled as exact reals: rounding, NaN, the infinities and -0.0 are not represented, so every arithmetic identity here holds of the real numbers and may be off by a rounding error in Java.
- Elevator.ConversionRoundTrip: holds over reals; in doubles, dividing by 4.25 and multiplying back can differ from the input in the last bit.
- PidTuner.ParseJsonRoundTrip: states the round trip through the model's writer `Render`, which does not escape. JSON.stringify escapes backslashes, control characters and unpaired surrogates, and writes a NaN as `null` (what the page sends for an empty field, since parseFloat("") is NaN); the reader does not undo those, so such bodies are outside the lemma.
- Limelight.Periodic: the Y PID controller is a parameter. Its internal state belongs to WPILib.
- Limelight.CenterTy: the side effect of calling setSetpoint on that controller is not modelled.
- Elevator.Schedule: MaxAngularRate is kept in rotations per second, without the conversion to radians.
- PropertiesHttp.Dispatch: equalsIgnoreCase is modelled with ASCII case folding only.
- PidTuner.ParseValue: Double.parseDouble is a parameter, so NaN and infinities are not represented.
- PropertiesHttp.FormData: URL decoding is a parameter.
- Alert.GetStrings: the order of the returned strings is a parameter, a permutation. The comparator is not a consistent ordering (Alert.CompareNotTransitive), so the order TimSort produces is not specified. With 32 or more alerts TimSort may detect the inconsistency and throw IllegalArgumentException; the model always returns a list.
- Alert.Set: the notification's display time (5 s) and height (0.5) are not modelled, because they only affect the dashboard pop-up.
- Alert: the SmartDashboard publication of a group and its Sendable properties are left out, because they are I/O.
- UpdateSetpoints: the wrist subsystem is only a recorded setpoint, and `end` is left out because it only stops the timer.
- PidTuner: the HTML page is left out, except for the JSON body its script sends. The server start and stop and the response body text are left out too.
- PropertiesHttp: the GET form HTML is left out. The 500 reply when Class.forName fails is left out as well, because only registered classes or the default reach it.
- PropertiesHttp.UpdateConfigFromFormData: reflection is replaced by a `ClassEnv` with three sets: loadable, reconfigurable and constructible. Parsing field values (Integer.parseInt and the others) is reduced to a SetField effect.
- AutoDuplicator: file reading, JSON parsing, directory listing and the console prompt are left out. Files are maps from name to parsed content, and writes are returned effects.
- Vision.Periodic: the dashboard puts of each camera's has-target flag and of the target tag's visibility and ID are left out; only the estimates and tag maps it derives are modelled.
- Vision.SetTargetAprilTag: the dashboard put of the target tag ID is left out; only the recorded target is modelled.
- Vision.ClearTargetAprilTag: the dashboard put of -1 as the target tag ID is left out, as for SetTargetAprilTag.
- Limelight.Periodic: the DriverStation warning for a short target-pose array and the debug dashboard puts are left out; the rotation value falls back to 0 as in the code.
- Elevator.Schedule: the dashboard puts of the two speed limits in `periodic` are left out, because they only publish the computed values.
- CoralIntake.SetPercent: the overheat message printed to the console is left out; only the frozen outputs are modelled.
- Limelight.GetTx: uses the corrected index check. At index 4 the code throws ArrayIndexOutOfBoundsException and the model returns 0; the code's callers only pass 0 to 3 (src/main/java/frc/robot/bindings/AbstractOperator.java:119-143, and `periodic` loops below the array length).
- Limelight.GetTa: uses the corrected index check, as GetTx does; index 4 throws in the code and gives 0 here.
- Limelight.GetId: uses the corrected index check, as GetTx does; index 4 throws in the code and keeps the latched ID here.
- Limelight.CenterRotationRate: reads the camera through the corrected check, so index 4 gives 0 here where the code throws; its callers pass only 0 to 3.
- Limelight.CenterTx: reads the camera through the corrected check, so index 4 gives 0 here where the code throws; its callers pass only 0 to 3.
- Limelight.CenterTy: reads the camera through the corrected check, so index 4 gives 0 here where the code throws; its callers pass only 0 to 3.
- AutoDuplicator.DuplicatePath: names the copy with the corrected OutputName, which cuts at the last '.'; the script cuts at the first '.', which differs only for path names with a '.' in them (see Findings).
- AutoDuplicator.DuplicateAuto: names the auto copy with the corrected OutputName as DuplicatePath does; auto file names with a second '.' are named differently by the script.
- AutoDuplicator.OneCopyPerPathCommand: holds of the corrected naming; with the script's first-'.' naming a dotted path name's copy is not the file the renamed auto refers to (AutoDuplicator.DottedPathNameBreaksReference).
- DeadpoolPanel.ButtonPressFromInteger: like the code, b = 12 or b = 24 yields button 0 (and-ed with button 1), a button the panel does not have; the model does not reject it.
- Singletons (`getInstance`), motor configuration, CAN device setup, `initSendable` and the pipeline selection calls are left out, because they only talk to hardware or the dashboard.

## Findings

| source | as written | input that shows it | evidently intended | confidence | as-written member | corrected member |
|---|---|---|---|---|---|---|
| src/main/java/frc/robot/shared/Limelight.java:71 | the bound check is `limelight_Number <= staticLimelights.length` | index 4 passes the check and then indexes past the four-camera array, throwing ArrayIndexOutOfBoundsException | `<` so that index 4 is rejected | not executed | Limelight.ValidateLimelightOffByOne | Limelight.ValidateLimelightCorrected |
| src/main/java/frc/robot/scripts/autoduplicator/main.js:25-40 | the copied path file is named from `path.split(".")[0]`, while the auto command refers to the full path name plus suffix | path name "a.b": the file written is "a - RED.path" but the auto refers to "a.b - RED" | strip only the extension, so the copy is "a.b - RED.path" | not executed | AutoDuplicator.DottedPathNameBreaksReference | AutoDuplicator.CopiedPathIsTheReferencedOne |
