/** The registry of classes whose static fields the properties page may
    edit and whose `reconfigure` it calls. A class is named by its fully
    qualified Java name. */
module ReconfigurableConfig {

  /** The classes registered on first use, in registration order. */
  const Registered: seq<string> := [
    "frc.robot.subsystems.body.BodyConstants",
    "frc.robot.subsystems.manipulator.ManipulatorConstants",
    "frc.robot.subsystems.swerve.TunerConstants",
    "frc.robot.shared.Limelight",
    "frc.robot.subsystems.climber.Climber",
    "frc.robot.subsystems.body.Elevator"]

  /** `addReconfigs`: fill the list only if it is empty. */
  function AddReconfigs(list: seq<string>): (r: seq<string>)
    ensures |list| == 0 ==> r == Registered
    ensures |list| > 0 ==> r == list
    ensures |r| > 0
  {
    if |list| == 0 then Registered else list
  }

  /** Filling is idempotent. */
  lemma AddReconfigsIdempotent(list: seq<string>)
    ensures AddReconfigs(AddReconfigs(list)) == AddReconfigs(list)
  {
  }

  /** The six registered classes are distinct. */
  lemma RegisteredDistinct()
    ensures |Registered| == 6
    ensures forall i, j :: 0 <= i < j < |Registered| ==> Registered[i] != Registered[j]
  {
  }

  /** `findReconfigurableConfigs`: fill, then hand out the list. */
  function FindReconfigurableConfigs(list: seq<string>): (r: (seq<string>, seq<string>))
    ensures r.0 == r.1 == AddReconfigs(list) && |r.1| > 0
  {
    var l := AddReconfigs(list);
    (l, l)
  }

  /** `isContainReconfig`: fill, then look for an equal name. */
  method IsContainReconfig(list: seq<string>, className: string) returns (list': seq<string>, found: bool)
    ensures list' == AddReconfigs(list)
    ensures found <==> className in list'
  {
    list' := AddReconfigs(list);
    found := false;
    var i := 0;
    while i < |list'|
      invariant 0 <= i <= |list'|
      invariant !found && className !in list'[..i]
    {
      if list'[i] == className {
        assert className in list';
        return list', true;
      }
      assert list'[..i + 1] == list'[..i] + [list'[i]];
      i := i + 1;
    }
    assert list'[..i] == list';
  }

  /** Membership as the rest of the model asks it, on the filled list. */
  predicate IsRegistered(list: seq<string>, className: string)
  {
    className in AddReconfigs(list)
  }

  /** On a fresh registry the climber is registered, and so is each of the
      six classes. */
  lemma FreshRegistryHoldsTheSix(className: string)
    ensures IsRegistered([], className) <==> className in Registered
    ensures IsRegistered([], "frc.robot.subsystems.climber.Climber")
  {
  }
}
