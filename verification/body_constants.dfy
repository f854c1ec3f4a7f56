/** The body (wrist and elevator) constants: tunable named positions and
    current/soft limits, and the `Setpoints` table whose positions are
    mutable and refreshed by `reconfigure`. */
module BodyConstants {

  /** The entries of the `Setpoints` enum. */
  datatype Setpoint =
    | Idle | AlgaeIdle | IdleHigh | L1Setpoint | L2Setpoint | L3Setpoint | L4Setpoint
    | HumanPlayerSetpoint | HighAlgaeSetpoint | LowAlgaeSetpoint | GroundAlgaeSetpoint
    | Barge | BargeBack | Processor | ClimberStart | ClimberEnd | ElevatorTest

  /** A wrist angle in degrees and an elevator height in inches. */
  datatype Position = Position(wristDegrees: real, elevatorInches: real)

  /** Current and soft limits of one mechanism. */
  datatype Limits = Limits(statorLimit: real, supplyLimit: real, forwardLimit: real, reverseLimit: real)

  /** The public static tunables: limit scalars and the named position
      constants (`IDLE_WRIST_POSITION` with `IDLE_ELEVATOR_INCHES`, and so on). */
  datatype Tunables = Tunables(
    wristStator: real, wristSupply: real, wristForward: real, wristReverse: real,
    elevatorForward: real, elevatorReverse: real,
    idle: Position, idleHigh: Position, l1: Position, l2: Position, l3: Position, l4: Position,
    humanPlayer: Position, highAlgae: Position, lowAlgae: Position, groundAlgae: Position,
    barge: Position, bargeBack: Position, processor: Position, elevatorTest: Position,
    climberStart: Position, climberEnd: Position)

  const DefaultTunables: Tunables := Tunables(
    80.0, 45.0, 10.0, -130.0, 23.0, 0.0,
    Position(10.0, 2.165), Position(97.0, 6.645), Position(70.0, 1.215),
    Position(110.0, 6.794), Position(110.0, 11.165), Position(121.0, 19.028),
    Position(39.0, 2.935), Position(107.0, 12.392), Position(107.0, 8.115),
    Position(110.0, -0.08), Position(35.0, 18.945), Position(-20.0, 18.945),
    Position(100.0, 2.765), Position(0.0, 2.845), Position(10.0, 8.515),
    Position(105.0, 0.265))

  /** The named constants an enum entry is built from: `AlgaeIdle` shares
      the idle constants, every other entry has its own. */
  function NamedPosition(t: Tunables, s: Setpoint): Position
  {
    match s
    case Idle => t.idle
    case AlgaeIdle => t.idle
    case IdleHigh => t.idleHigh
    case L1Setpoint => t.l1
    case L2Setpoint => t.l2
    case L3Setpoint => t.l3
    case L4Setpoint => t.l4
    case HumanPlayerSetpoint => t.humanPlayer
    case HighAlgaeSetpoint => t.highAlgae
    case LowAlgaeSetpoint => t.lowAlgae
    case GroundAlgaeSetpoint => t.groundAlgae
    case Barge => t.barge
    case BargeBack => t.bargeBack
    case Processor => t.processor
    case ClimberStart => t.climberStart
    case ClimberEnd => t.climberEnd
    case ElevatorTest => t.elevatorTest
  }

  /** The final wrist slot of an entry. */
  function WristSlot(s: Setpoint): (r: int)
    ensures 0 <= r <= 2
    ensures r == 0 <==> s in {L1Setpoint, L2Setpoint, L3Setpoint, L4Setpoint, HighAlgaeSetpoint, LowAlgaeSetpoint, GroundAlgaeSetpoint, ClimberStart, ElevatorTest}
    ensures r == 1 <==> s in {IdleHigh, HumanPlayerSetpoint}
  {
    match s
    case Idle | AlgaeIdle | Barge | BargeBack | Processor | ClimberEnd => 2
    case IdleHigh | HumanPlayerSetpoint => 1
    case _ => 0
  }

  /** The final elevator slot of an entry. */
  function ElevatorSlot(s: Setpoint): (r: int)
    ensures 0 <= r <= 2
    ensures r == 0 <==> s in {Idle, IdleHigh, L1Setpoint}
    ensures r == 2 <==> s in {AlgaeIdle, HumanPlayerSetpoint, ClimberEnd}
  {
    match s
    case Idle | IdleHigh | L1Setpoint => 0
    case AlgaeIdle | HumanPlayerSetpoint | ClimberEnd => 2
    case _ => 1
  }

  /** `getWristFeed` and `getElevatorFeed`: every entry is built with zero
      feed forward for both mechanisms, and the fields are final. */
  function Feed(s: Setpoint): real
  {
    0.0
  }

  /** The class state: the tunables, the two limit records and the current
      position of every enum entry. */
  datatype Body = Body(tunables: Tunables, wristLimits: Limits, elevatorLimits: Limits, positions: Setpoint -> Position)

  /** `kWristLimits`, built from the four wrist scalars. */
  function WristLimitsOf(t: Tunables): Limits
  {
    Limits(t.wristStator, t.wristSupply, t.wristForward, t.wristReverse)
  }

  /** `kElevatorLimits`: the wrist's current limits with the elevator's soft
      limits. */
  function ElevatorLimitsOf(t: Tunables): Limits
  {
    Limits(t.wristStator, t.wristSupply, t.elevatorForward, t.elevatorReverse)
  }

  /** Class initialisation with the given tunables. */
  function Load(t: Tunables): (b: Body)
    ensures b.tunables == t
    ensures b.wristLimits == WristLimitsOf(t) && b.elevatorLimits == ElevatorLimitsOf(t)
    ensures forall s :: b.positions(s) == NamedPosition(t, s)
  {
    Body(t, WristLimitsOf(t), ElevatorLimitsOf(t), s => NamedPosition(t, s))
  }

  /** `getInches`. */
  function GetInches(b: Body, s: Setpoint): real
  {
    b.positions(s).elevatorInches
  }

  /** `getDegrees`. */
  function GetDegrees(b: Body, s: Setpoint): real
  {
    b.positions(s).wristDegrees
  }

  /** `setWristPosition`: changes one entry's wrist angle only. */
  function SetWristPosition(b: Body, s: Setpoint, degrees: real): (r: Body)
    ensures GetDegrees(r, s) == degrees && GetInches(r, s) == GetInches(b, s)
    ensures forall o :: o != s ==> r.positions(o) == b.positions(o)
    ensures r.tunables == b.tunables && r.wristLimits == b.wristLimits && r.elevatorLimits == b.elevatorLimits
  {
    b.(positions := o => if o == s then Position(degrees, b.positions(s).elevatorInches) else b.positions(o))
  }

  /** `setElevatorPosition`: changes one entry's height only. */
  function SetElevatorPosition(b: Body, s: Setpoint, inches: real): (r: Body)
    ensures GetInches(r, s) == inches && GetDegrees(r, s) == GetDegrees(b, s)
    ensures forall o :: o != s ==> r.positions(o) == b.positions(o)
    ensures r.tunables == b.tunables && r.wristLimits == b.wristLimits && r.elevatorLimits == b.elevatorLimits
  {
    b.(positions := o => if o == s then Position(b.positions(s).wristDegrees, inches) else b.positions(o))
  }

  /** Changing a tunable (as the properties service does) touches nothing
      derived from it until `reconfigure`. */
  function SetTunables(b: Body, t: Tunables): (r: Body)
    ensures r.tunables == t && r.wristLimits == b.wristLimits && r.elevatorLimits == b.elevatorLimits
    ensures forall s :: r.positions(s) == b.positions(s)
  {
    b.(tunables := t)
  }

  /** The entries `reconfigure` refreshes. */
  predicate Refreshed(s: Setpoint)
  {
    s in {Idle, L2Setpoint, L3Setpoint, L4Setpoint, HumanPlayerSetpoint, HighAlgaeSetpoint,
          LowAlgaeSetpoint, Barge, Processor, ElevatorTest}
  }

  /** `reconfigure`: rebuild the wrist limits (the elevator limits are left
      as they are) and copy the named constants into the refreshed entries;
      the other seven entries keep their current positions. */
  function Reconfigure(b: Body): (r: Body)
    ensures r.tunables == b.tunables
    ensures r.wristLimits == WristLimitsOf(b.tunables)
    ensures r.elevatorLimits == b.elevatorLimits
    ensures forall s :: Refreshed(s) ==> r.positions(s) == NamedPosition(b.tunables, s)
    ensures forall s :: !Refreshed(s) ==> r.positions(s) == b.positions(s)
  {
    Body(b.tunables, WristLimitsOf(b.tunables), b.elevatorLimits,
         s => if Refreshed(s) then NamedPosition(b.tunables, s) else b.positions(s))
  }

  /** Exactly seven entries are left alone by `reconfigure`. */
  lemma NotRefreshedEntries(s: Setpoint)
    ensures !Refreshed(s) <==> s in {AlgaeIdle, IdleHigh, L1Setpoint, GroundAlgaeSetpoint, BargeBack, ClimberStart, ClimberEnd}
  {
  }

  /** A second `reconfigure` changes nothing further. */
  lemma ReconfigureIdempotent(b: Body)
    ensures Reconfigure(Reconfigure(b)).wristLimits == Reconfigure(b).wristLimits
    ensures Reconfigure(Reconfigure(b)).elevatorLimits == Reconfigure(b).elevatorLimits
    ensures forall s :: Reconfigure(Reconfigure(b)).positions(s) == Reconfigure(b).positions(s)
  {
  }

  /** Untuned, `reconfigure` reproduces the table as loaded. */
  lemma ReconfigureAfterLoad(t: Tunables)
    ensures Reconfigure(Load(t)).wristLimits == Load(t).wristLimits
    ensures forall s :: Reconfigure(Load(t)).positions(s) == Load(t).positions(s)
  {
  }

  /** Retuning the idle constants moves `Idle` on `reconfigure` but not
      `AlgaeIdle`, although both were built from the same constants. */
  lemma AlgaeIdleNotRetuned(p: Position)
    requires p != DefaultTunables.idle
    ensures var b := Reconfigure(SetTunables(Load(DefaultTunables), DefaultTunables.(idle := p)));
      b.positions(Idle) == p && b.positions(AlgaeIdle) == DefaultTunables.idle
  {
  }

  /** Retuning an elevator soft limit is never picked up by `reconfigure`. */
  lemma ElevatorLimitsNotRebuilt(forward: real)
    ensures var t := DefaultTunables.(elevatorForward := forward);
      Reconfigure(SetTunables(Load(DefaultTunables), t)).elevatorLimits.forwardLimit == 23.0
  {
  }
}
