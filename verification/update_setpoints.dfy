/** The command that moves the wrist and the elevator to one named setpoint,
    each after its own delay measured from when the command was scheduled. */
module UpdateSetpoints {
  import opened BodyConstants
  import Elevator
  import opened RealArith

  /** The command: the setpoint, both delays in seconds, and the time the
      timer was last restarted. */
  datatype Command = Command(setpoint: Setpoint, wristDelay: real, elevatorDelay: real, timerStart: real)

  /** The one-argument constructor: no delay on either mechanism. */
  function NewCommand(setpoint: Setpoint, now: real): (c: Command)
    ensures c.setpoint == setpoint && c.wristDelay == 0.0 && c.elevatorDelay == 0.0
  {
    Command(setpoint, 0.0, 0.0, now)
  }

  /** `initialize`: restart the timer. */
  function Initialize(c: Command, now: real): (r: Command)
    ensures r.timerStart == now
    ensures r.setpoint == c.setpoint && r.wristDelay == c.wristDelay && r.elevatorDelay == c.elevatorDelay
  {
    c.(timerStart := now)
  }

  /** `Timer.hasElapsed` on a running timer: at least `seconds` since the start. */
  predicate HasElapsed(c: Command, now: real, seconds: real)
  {
    now - c.timerStart >= seconds
  }

  /** A mechanism is released when its delay is non-positive or has elapsed. */
  predicate Released(c: Command, now: real, delay: real)
  {
    delay <= 0.0 || HasElapsed(c, now, delay)
  }

  /** The last setpoint given to each mechanism; the wrist subsystem itself
      is not part of this model, only the setpoint it was given. */
  datatype Targets = Targets(wrist: Setpoint, elevator: Elevator.ElevatorState)

  /** `execute`: each released mechanism is sent the command's setpoint;
      an unreleased one keeps whatever it had. */
  function Execute(c: Command, m: Targets, now: real): (r: Targets)
    ensures r.wrist == (if Released(c, now, c.wristDelay) then c.setpoint else m.wrist)
    ensures r.elevator.setpoint == (if Released(c, now, c.elevatorDelay) then c.setpoint else m.elevator.setpoint)
  {
    var w := if Released(c, now, c.wristDelay) then c.setpoint else m.wrist;
    var e := if Released(c, now, c.elevatorDelay) then Elevator.UpdateSetpoint(m.elevator, c.setpoint) else m.elevator;
    Targets(w, e)
  }

  /** `isFinished`: both mechanisms released. In time: with two positive
      delays the command is done exactly when the longer one has elapsed;
      a non-positive delay drops out, and with both non-positive the command
      is done at once. */
  function IsFinished(c: Command, now: real): (done: bool)
    ensures c.wristDelay > 0.0 && c.elevatorDelay > 0.0 ==>
      (done <==> now - c.timerStart >= Max(c.wristDelay, c.elevatorDelay))
    ensures c.wristDelay <= 0.0 && c.elevatorDelay > 0.0 ==>
      (done <==> now - c.timerStart >= c.elevatorDelay)
    ensures c.wristDelay > 0.0 && c.elevatorDelay <= 0.0 ==>
      (done <==> now - c.timerStart >= c.wristDelay)
    ensures c.wristDelay <= 0.0 && c.elevatorDelay <= 0.0 ==> done
  {
    Released(c, now, c.wristDelay) && Released(c, now, c.elevatorDelay)
  }

  /** Release is permanent: once a delay has passed it stays passed. */
  lemma ReleasedStays(c: Command, t1: real, t2: real, delay: real)
    requires t1 <= t2
    requires Released(c, t1, delay)
    ensures Released(c, t2, delay)
  {
  }

  /** The one-argument command finishes on its first check after scheduling. */
  lemma UndelayedFinishesImmediately(setpoint: Setpoint, now: real, later: real)
    requires now <= later
    ensures IsFinished(Initialize(NewCommand(setpoint, now), now), later)
  {
  }

  /** Once the command has finished, an execute leaves both mechanisms at the
      command's one setpoint — the wrist and the elevator agree. */
  lemma FinishedMeansBothAtSetpoint(c: Command, m: Targets, now: real)
    requires IsFinished(c, now)
    ensures Execute(c, m, now).wrist == c.setpoint
    ensures Execute(c, m, now).elevator.setpoint == c.setpoint
  {
  }

  /** Executing again at a later time changes nothing once finished. */
  lemma ExecuteIdempotentAfterFinish(c: Command, m: Targets, t1: real, t2: real)
    requires t1 <= t2 && IsFinished(c, t1)
    ensures Execute(c, Execute(c, m, t1), t2) == Execute(c, m, t1)
  {
  }
}
