/** The coral intake's own logic: height-dependent shot speeds, the
    over-temperature guard on roller output, and the brake sensors. */
module CoralIntake {
  import opened BodyConstants

  /** Offset above each level height at which the next speed band starts. */
  const BandMargin: real := 0.25

  /** The first value whose threshold the height is below, or `otherwise`
      when it is below none: a chain of early returns. */
  function FirstBelow(height: real, thresholds: seq<real>, values: seq<real>, otherwise: real): (r: real)
    requires |thresholds| == |values|
    ensures r in values || r == otherwise
    ensures forall i :: (0 <= i < |thresholds| && height < thresholds[i] &&
      (forall j :: 0 <= j < i ==> height >= thresholds[j])) ==> r == values[i]
    ensures (forall j :: 0 <= j < |thresholds| ==> height >= thresholds[j]) ==> r == otherwise
    decreases |thresholds|
  {
    if |thresholds| == 0 then otherwise
    else if height < thresholds[0] then values[0]
    else
      var r := FirstBelow(height, thresholds[1..], values[1..], otherwise);
      assert forall i :: (1 <= i < |thresholds| && height < thresholds[i] &&
        (forall j :: 0 <= j < i ==> height >= thresholds[j])) ==> r == values[i] by {
        forall i | 1 <= i < |thresholds| && height < thresholds[i] && (forall j :: 0 <= j < i ==> height >= thresholds[j])
          ensures r == values[i]
        {
          assert thresholds[1..][i - 1] == thresholds[i];
          assert forall j :: 0 <= j < i - 1 ==> height >= thresholds[1..][j] by {
            forall j | 0 <= j < i - 1 ensures height >= thresholds[1..][j] {
              assert thresholds[1..][j] == thresholds[j + 1];
            }
          }
        }
      }
      assert (forall j :: 0 <= j < |thresholds| ==> height >= thresholds[j]) ==>
        (forall j :: 0 <= j < |thresholds[1..]| ==> height >= thresholds[1..][j]);
      r
  }

  /** The three band edges: each level height plus the margin. */
  function BandEdges(t: Tunables): seq<real>
  {
    [t.l1.elevatorInches + BandMargin, t.l2.elevatorInches + BandMargin, t.l3.elevatorInches + BandMargin]
  }

  /** `getShotSpeedBottom`. */
  function ShotSpeedBottom(t: Tunables, height: real): (r: real)
    ensures r in {0.6, 0.8, 1.0}
    ensures (height >= t.l3.elevatorInches + BandMargin && height >= t.l2.elevatorInches + BandMargin
      && height >= t.l1.elevatorInches + BandMargin) ==> r == 1.0
  {
    if height < t.l1.elevatorInches + BandMargin then 0.6
    else if height < t.l2.elevatorInches + BandMargin then 0.8
    else if height < t.l3.elevatorInches + BandMargin then 0.8
    else 1.0
  }

  /** `getShotSpeedTop`. */
  function ShotSpeedTop(t: Tunables, height: real): (r: real)
    ensures r in {0.41, 0.75, 1.0}
    ensures (height >= t.l3.elevatorInches + BandMargin && height >= t.l2.elevatorInches + BandMargin
      && height >= t.l1.elevatorInches + BandMargin) ==> r == 1.0
  {
    if height < t.l1.elevatorInches + BandMargin then 0.41
    else if height < t.l2.elevatorInches + BandMargin then 0.75
    else if height < t.l3.elevatorInches + BandMargin then 0.75
    else 1.0
  }

  /** Both shot speeds are the first-matching-band step function over the
      same band edges. */
  lemma ShotSpeedsAreSteps(t: Tunables, height: real)
    ensures ShotSpeedBottom(t, height) == FirstBelow(height, BandEdges(t), [0.6, 0.8, 0.8], 1.0)
    ensures ShotSpeedTop(t, height) == FirstBelow(height, BandEdges(t), [0.41, 0.75, 0.75], 1.0)
  {
    var e := BandEdges(t);
    var vb: seq<real>, vt: seq<real> := [0.6, 0.8, 0.8], [0.41, 0.75, 0.75];
    var b, u := FirstBelow(height, e, vb, 1.0), FirstBelow(height, e, vt, 1.0);
    if height < e[0] {
      assert b == vb[0] && u == vt[0];
    } else if height < e[1] {
      assert b == vb[1] && u == vt[1];
    } else if height < e[2] {
      assert b == vb[2] && u == vt[2];
    } else {
      assert b == 1.0 && u == 1.0;
    }
  }

  /** With increasing level heights both speeds are non-decreasing in height. */
  lemma ShotSpeedsMonotone(t: Tunables, h1: real, h2: real)
    requires t.l1.elevatorInches <= t.l2.elevatorInches <= t.l3.elevatorInches
    requires h1 <= h2
    ensures ShotSpeedBottom(t, h1) <= ShotSpeedBottom(t, h2)
    ensures ShotSpeedTop(t, h1) <= ShotSpeedTop(t, h2)
  {
  }

  /** The default level heights are increasing. */
  lemma DefaultBandsIncreasing()
    ensures DefaultTunables.l1.elevatorInches <= DefaultTunables.l2.elevatorInches <= DefaultTunables.l3.elevatorInches
  {
  }

  // ------------------------------------------------------------ rollers

  /** The last output written to each roller. */
  datatype Rollers = Rollers(top: real, bottom: real)

  /** `setPercent`: both rollers are written only if neither motor reports
      a temperature fault; otherwise neither is. */
  function SetPercent(r: Rollers, bottomPercent: real, topPercent: real, topOverheated: bool, bottomOverheated: bool): (r': Rollers)
    ensures !topOverheated && !bottomOverheated ==> r' == Rollers(topPercent, bottomPercent)
    ensures topOverheated || bottomOverheated ==> r' == r
  {
    if !topOverheated && !bottomOverheated then Rollers(topPercent, bottomPercent) else r
  }

  /** `stop`: both rollers to zero, without the fault check. */
  function Stop(r: Rollers): (r': Rollers)
    ensures r'.top == 0.0 && r'.bottom == 0.0
  {
    Rollers(0.0, 0.0)
  }

  /** A fault on either motor freezes both outputs, whatever is requested. */
  lemma FaultFreezesBoth(r: Rollers, b: real, t: real, topOverheated: bool, bottomOverheated: bool)
    requires topOverheated || bottomOverheated
    ensures SetPercent(r, b, t, topOverheated, bottomOverheated).top == r.top
    ensures SetPercent(r, b, t, topOverheated, bottomOverheated).bottom == r.bottom
  {
  }

  /** One `setPercent` call: the requested outputs and the two motors'
      temperature-fault flags read at that moment. */
  datatype Request = Request(bottom: real, top: real, topOverheated: bool, bottomOverheated: bool)

  predicate Faulted(q: Request)
  {
    q.topOverheated || q.bottomOverheated
  }

  /** `runCoralIntake`: the same `setPercent` call issued once per scheduler
      tick, here with the fault flags of each tick given in order. */
  function Run(r: Rollers, qs: seq<Request>): (r': Rollers)
    decreases |qs|
  {
    if |qs| == 0 then r
    else Run(SetPercent(r, qs[0].bottom, qs[0].top, qs[0].topOverheated, qs[0].bottomOverheated), qs[1..])
  }

  /** Under a fault at every tick, any run of requests leaves both rollers
      at the outputs they had before it. */
  lemma {:induction false} FaultedRunFreezes(r: Rollers, qs: seq<Request>)
    requires forall i :: 0 <= i < |qs| ==> Faulted(qs[i])
    ensures Run(r, qs) == r
    decreases |qs|
  {
    if |qs| > 0 {
      FaultFreezesBoth(r, qs[0].bottom, qs[0].top, qs[0].topOverheated, qs[0].bottomOverheated);
      FaultedRunFreezes(r, qs[1..]);
    }
  }

  /** After a run the rollers hold the outputs of the last fault-free
      request; the faulted requests after it change nothing. */
  lemma {:induction false} RunEndsAtLastHealthy(r: Rollers, qs: seq<Request>, k: nat)
    requires k < |qs| && !Faulted(qs[k])
    requires forall i :: k < i < |qs| ==> Faulted(qs[i])
    ensures Run(r, qs) == Rollers(qs[k].top, qs[k].bottom)
    decreases |qs|
  {
    if k == 0 {
      var r1 := SetPercent(r, qs[0].bottom, qs[0].top, qs[0].topOverheated, qs[0].bottomOverheated);
      assert forall i :: 0 <= i < |qs[1..]| ==> Faulted(qs[1..][i]) by {
        forall i | 0 <= i < |qs[1..]| ensures Faulted(qs[1..][i]) {
          assert qs[1..][i] == qs[i + 1];
        }
      }
      FaultedRunFreezes(r1, qs[1..]);
    } else {
      var r1 := SetPercent(r, qs[0].bottom, qs[0].top, qs[0].topOverheated, qs[0].bottomOverheated);
      assert qs[1..][k - 1] == qs[k];
      assert forall i :: k - 1 < i < |qs[1..]| ==> Faulted(qs[1..][i]) by {
        forall i | k - 1 < i < |qs[1..]| ensures Faulted(qs[1..][i]) {
          assert qs[1..][i] == qs[i + 1];
        }
      }
      RunEndsAtLastHealthy(r1, qs[1..], k - 1);
    }
  }

  /** `stop` is the one way to zero the rollers under a fault: it skips the
      fault check, and an all-faulted run afterwards keeps them at zero. */
  lemma StopHoldsUnderFault(r: Rollers, qs: seq<Request>)
    requires forall i :: 0 <= i < |qs| ==> Faulted(qs[i])
    ensures Run(Stop(r), qs) == Rollers(0.0, 0.0)
  {
    FaultedRunFreezes(Stop(r), qs);
  }

  /** The brake triggers: the sensors read true when clear, so a trigger
      is the negated raw input. */
  function BrakeTrigger(rawInput: bool): bool
  {
    !rawInput
  }
}
