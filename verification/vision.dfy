/** The four-camera vision subsystem: per-camera pose measurements, per-camera
    maps of detected AprilTags, and the queries the commands make on them. */
module Vision {
  import opened Wrappers
  import opened Geometry
  import JavaText

  // ------------------------------------------------------------ NetworkTables

  /** A NetworkTables entry value: a double, a double array, or anything else. */
  datatype NTValue = NDouble(d: real) | NArray(a: seq<real>) | NOther

  /** One Limelight's table: entry name to current value. */
  type Table = map<string, NTValue>

  /** `entry.getDouble(default)`: the default when the entry is absent or is
      not a double. */
  function GetDouble(t: Table, key: string, default: real): (r: real)
    ensures key in t && t[key].NDouble? ==> r == t[key].d
    ensures !(key in t && t[key].NDouble?) ==> r == default
  {
    if key in t && t[key].NDouble? then t[key].d else default
  }

  /** `entry.getDoubleArray(default)`, with the same fallback rule. */
  function GetDoubleArray(t: Table, key: string, default: seq<real>): (r: seq<real>)
    ensures key in t && t[key].NArray? ==> r == t[key].a
    ensures !(key in t && t[key].NArray?) ==> r == default
  {
    if key in t && t[key].NArray? then t[key].a else default
  }

  /** `new double[6]`. */
  const Zeros6: seq<real> := [0.0, 0.0, 0.0, 0.0, 0.0, 0.0]

  // ------------------------------------------------------------ cameras

  const FrontName: string := "limelight-front"
  const RightName: string := "limelight-right"
  const BackName: string := "limelight-back"
  const LeftName: string := "limelight-left"

  /** The cameras in the order the measurement list is assembled. */
  const CameraNames: seq<string> := [FrontName, RightName, BackName, LeftName]

  /** Index of a camera name in `CameraNames`, if it is one of them. */
  function CameraIndex(name: string): (r: Option<nat>)
    ensures r.None? <==> name !in CameraNames
    ensures r.Some? ==> r.value < 4 && CameraNames[r.value] == name
  {
    if name == FrontName then Some(0)
    else if name == RightName then Some(1)
    else if name == BackName then Some(2)
    else if name == LeftName then Some(3)
    else None
  }

  /** `LimelightMeasurement`. */
  datatype Measurement = Measurement(pose: Pose2d, timestamp: real, ambiguity: real, tagCount: real, targetArea: real)

  type Tables = s: seq<Table> | |s| == 4 witness [map[], map[], map[], map[]]
  type Estimates = s: seq<Option<Measurement>> | |s| == 4 witness [None, None, None, None]
  type TagMaps = s: seq<map<int, Pose2d>> | |s| == 4 witness [map[], map[], map[], map[]]

  /** Subsystem state: the latest estimate and tag map of each camera (in
      `CameraNames` order) and the tag being targeted (-1 for none). */
  datatype VisionState = VisionState(estimates: Estimates, tagPoses: TagMaps, targetTagId: int)

  function NewVision(): (v: VisionState)
    ensures v.targetTagId == -1
    ensures forall i :: 0 <= i < 4 ==> v.estimates[i].None? && v.tagPoses[i] == map[]
  {
    VisionState([None, None, None, None], [map[], map[], map[], map[]], -1)
  }

  // ------------------------------------------------------------ measurements

  /** `getLimelightPoseEstimate`: no measurement unless `tv` is at least 0.5
      and the `botpose` array has six entries; the pose is built from
      entries 0, 1 and 5 (degrees); ambiguity and area both come from `ta`,
      with defaults 1.0 and 0.0; the timestamp is the clock reading `now`. */
  function PoseEstimate(t: Table, now: real): (r: Option<Measurement>)
    ensures GetDouble(t, "tv", 0.0) < 0.5 ==> r.None?
    ensures r.Some? <==> GetDouble(t, "tv", 0.0) >= 0.5 && |GetDoubleArray(t, "botpose", Zeros6)| >= 6
    ensures r.Some? ==>
      var bp := GetDoubleArray(t, "botpose", Zeros6);
      && r.value.pose == Pose2d(bp[0], bp[1], bp[5])
      && r.value.timestamp == now
      && r.value.ambiguity == GetDouble(t, "ta", 1.0)
      && r.value.targetArea == GetDouble(t, "ta", 0.0)
      && r.value.tagCount == GetDouble(t, "tid", -1.0)
  {
    if GetDouble(t, "tv", 0.0) < 0.5 then None
    else
      var botpose := GetDoubleArray(t, "botpose", Zeros6);
      if |botpose| < 6 then None
      else
        var ta := GetDouble(t, "ta", 0.0);
        var tagCount := GetDouble(t, "tid", -1.0);
        var ambiguity := GetDouble(t, "ta", 1.0);
        Some(Measurement(Pose2d(botpose[0], botpose[1], botpose[5]), now, ambiguity, tagCount, ta))
  }

  /** The validity gate alone decides absence: with `tv` below 0.5 nothing
      else in the table matters. */
  lemma InvalidFrameIgnoresContents(t: Table, u: Table, now: real)
    requires "tv" in t && t["tv"] == NDouble(0.0)
    requires "tv" in u && u["tv"] == t["tv"]
    ensures PoseEstimate(t, now) == PoseEstimate(u, now) == None
  {
  }

  /** Ambiguity and target area are the same number whenever `ta` is
      published; they differ (1.0 against 0.0) only when it is not. */
  lemma AmbiguityIsTargetArea(t: Table, now: real)
    requires PoseEstimate(t, now).Some?
    ensures "ta" in t && t["ta"].NDouble? ==> PoseEstimate(t, now).value.ambiguity == PoseEstimate(t, now).value.targetArea
    ensures !("ta" in t && t["ta"].NDouble?) ==>
      PoseEstimate(t, now).value.ambiguity == 1.0 && PoseEstimate(t, now).value.targetArea == 0.0
  {
  }

  /** A valid frame with no `botpose` entry at all still yields a
      measurement, at the origin: the read falls back to six zeros. */
  lemma MissingBotposeGivesOrigin(t: Table, now: real)
    requires GetDouble(t, "tv", 0.0) >= 0.5 && "botpose" !in t
    ensures PoseEstimate(t, now).Some?
    ensures PoseEstimate(t, now).value.pose == Pose2d(0.0, 0.0, 0.0)
  {
  }

  // ------------------------------------------------------------ tag maps

  /** The `put` calls of the tag loop: every listed ID (cast to `int`)
      is stored with the same pose, later IDs overwriting earlier ones. */
  function PutTags(m: map<int, Pose2d>, ids: seq<real>, pose: Pose2d): (r: map<int, Pose2d>)
    ensures r.Keys == m.Keys + (set i | 0 <= i < |ids| :: JavaText.IntCast(ids[i]))
    ensures forall k :: k in r ==> r[k] == (if k in m.Keys - (set i | 0 <= i < |ids| :: JavaText.IntCast(ids[i])) then m[k] else pose)
    decreases |ids|
  {
    if |ids| == 0 then m
    else
      var r := PutTags(m[JavaText.IntCast(ids[0]) := pose], ids[1..], pose);
      assert (set i | 0 <= i < |ids| :: JavaText.IntCast(ids[i]))
        == {JavaText.IntCast(ids[0])} + (set i | 0 <= i < |ids[1..]| :: JavaText.IntCast(ids[1..][i]));
      r
  }

  /** One camera's part of `updateAprilTagPoses`: the map is cleared, then
      refilled only if `targetpose_cameraspace` has at least six entries. */
  function CameraTags(t: Table): (r: map<int, Pose2d>)
    ensures var cam := GetDoubleArray(t, "targetpose_cameraspace", Zeros6);
      && (|cam| < 6 ==> r == map[])
      && (|cam| >= 6 ==> r.Keys == set i | 0 <= i < |GetDoubleArray(t, "tid", [])| :: JavaText.IntCast(GetDoubleArray(t, "tid", [])[i]))
      && (forall k :: k in r ==> r[k] == Pose2d(cam[0], cam[1], cam[5]))
  {
    var ids := GetDoubleArray(t, "tid", []);
    var cam := GetDoubleArray(t, "targetpose_cameraspace", Zeros6);
    if |cam| >= 6 then PutTags(map[], ids, Pose2d(cam[0], cam[1], cam[5])) else map[]
  }

  /** `periodic`: refresh every camera's estimate, then every camera's tag map. */
  function Periodic(v: VisionState, tables: Tables, now: real): (r: VisionState)
    ensures r.targetTagId == v.targetTagId
    ensures forall i :: 0 <= i < 4 ==> r.estimates[i] == PoseEstimate(tables[i], now)
    ensures forall i :: 0 <= i < 4 ==> r.tagPoses[i] == CameraTags(tables[i])
  {
    VisionState(
      seq(4, i requires 0 <= i < 4 => PoseEstimate(tables[i], now)),
      seq(4, i requires 0 <= i < 4 => CameraTags(tables[i])),
      v.targetTagId)
  }

  function SetTargetAprilTag(v: VisionState, tagId: int): (r: VisionState)
    ensures r.targetTagId == tagId && r.estimates == v.estimates && r.tagPoses == v.tagPoses
  {
    v.(targetTagId := tagId)
  }

  function ClearTargetAprilTag(v: VisionState): (r: VisionState)
    ensures r.targetTagId == -1 && r.estimates == v.estimates && r.tagPoses == v.tagPoses
  {
    v.(targetTagId := -1)
  }

  // ------------------------------------------------------------ queries

  /** `isAprilTagVisible`: a search through the cameras' maps. */
  method IsAprilTagVisible(v: VisionState, tagId: int) returns (r: bool)
    ensures r <==> exists i :: 0 <= i < 4 && tagId in v.tagPoses[i]
  {
    var i := 0;
    while i < |v.tagPoses|
      invariant 0 <= i <= 4
      invariant forall j :: 0 <= j < i ==> tagId !in v.tagPoses[j]
    {
      if tagId in v.tagPoses[i] {
        return true;
      }
      i := i + 1;
    }
    return false;
  }

  /** `getAprilTagPose`: empty for an unknown camera name or a tag that
      camera does not see. */
  function GetAprilTagPose(v: VisionState, tagId: int, cameraName: string): (r: Option<Pose2d>)
    ensures r.Some? <==> cameraName in CameraNames && tagId in v.tagPoses[CameraIndex(cameraName).value]
    ensures r.Some? ==> r.value == v.tagPoses[CameraIndex(cameraName).value][tagId]
  {
    match CameraIndex(cameraName)
    case None => None
    case Some(i) => if tagId in v.tagPoses[i] then Some(v.tagPoses[i][tagId]) else None
  }

  /** The `putAll` loop of `getAllVisibleAprilTags` over the cameras in
      `order`, the hash map's iteration order: later maps overwrite earlier. */
  function MergeTags(maps: TagMaps, order: seq<nat>): (r: map<int, Pose2d>)
    requires forall j :: 0 <= j < |order| ==> order[j] < 4
    ensures forall k :: k in r <==> exists j :: 0 <= j < |order| && k in maps[order[j]]
    ensures forall k :: k in r ==> exists j :: 0 <= j < |order| && k in maps[order[j]] && r[k] == maps[order[j]][k]
    decreases |order|
  {
    if |order| == 0 then map[]
    else
      var n := |order| - 1;
      var prefix := MergeTags(maps, order[..n]);
      var r := prefix + maps[order[n]];
      MergeStep(maps, order, order[..n], prefix, r);
      r
  }

  lemma MergeStep(maps: TagMaps, order: seq<nat>, front: seq<nat>, prefix: map<int, Pose2d>, r: map<int, Pose2d>)
    requires |order| > 0 && forall j :: 0 <= j < |order| ==> order[j] < 4
    requires front == order[..|order| - 1]
    requires forall k :: k in prefix <==> exists j :: 0 <= j < |front| && k in maps[front[j]]
    requires forall k :: k in prefix ==> exists j :: 0 <= j < |front| && k in maps[front[j]] && prefix[k] == maps[front[j]][k]
    requires r == prefix + maps[order[|order| - 1]]
    ensures forall k :: k in r <==> exists j :: 0 <= j < |order| && k in maps[order[j]]
    ensures forall k :: k in r ==> exists j :: 0 <= j < |order| && k in maps[order[j]] && r[k] == maps[order[j]][k]
  {
    var n := |order| - 1;
    forall k
      ensures k in r <==> exists j :: 0 <= j < |order| && k in maps[order[j]]
      ensures k in r ==> exists j :: 0 <= j < |order| && k in maps[order[j]] && r[k] == maps[order[j]][k]
    {
      if k in maps[order[n]] {
        assert r[k] == maps[order[n]][k];
      } else if k in prefix {
        var j :| 0 <= j < n && k in maps[front[j]] && prefix[k] == maps[front[j]][k];
        assert front[j] == order[j];
      } else {
        forall j | 0 <= j < |order| ensures k !in maps[order[j]] {
          if j < n {
            assert front[j] == order[j];
          }
        }
      }
    }
  }

  /** `getAllVisibleAprilTags`: the union of the four cameras' maps; for a
      tag two cameras see, the pose of whichever comes later in `order`. */
  function GetAllVisibleAprilTags(v: VisionState, order: seq<nat>): (r: map<int, Pose2d>)
    requires forall j :: 0 <= j < |order| ==> order[j] < 4
    requires forall i :: 0 <= i < 4 ==> i in order
    ensures forall k :: k in r <==> exists i :: 0 <= i < 4 && k in v.tagPoses[i]
    ensures forall k :: k in r ==> exists i :: 0 <= i < 4 && k in v.tagPoses[i] && r[k] == v.tagPoses[i][k]
  {
    var r := MergeTags(v.tagPoses, order);
    assert forall k :: (exists i :: 0 <= i < 4 && k in v.tagPoses[i]) ==> k in r by {
      forall k | exists i :: 0 <= i < 4 && k in v.tagPoses[i]
        ensures k in r
      {
        var i :| 0 <= i < 4 && k in v.tagPoses[i];
        assert i in order;
        var j :| 0 <= j < |order| && order[j] == i;
      }
    }
    r
  }

  /** The present values of a list of optionals, in order. */
  function Somes<T>(s: seq<Option<T>>): seq<T>
    decreases |s|
  {
    if |s| == 0 then [] else (if s[0].Some? then [s[0].value] else []) + Somes(s[1..])
  }

  /** How many entries of a list of optionals are present. */
  function CountSome<T>(s: seq<Option<T>>): nat
    decreases |s|
  {
    if |s| == 0 then 0 else (if s[0].Some? then 1 else 0) + CountSome(s[1..])
  }

  /** `Somes` keeps exactly the present values, each at the position given by
      the number of present values before it, so nothing is dropped,
      duplicated or reordered. */
  lemma {:induction false} SomesPositions<T>(s: seq<Option<T>>)
    ensures |Somes(s)| == CountSome(s)
    ensures forall j :: 0 <= j < |s| && s[j].Some? ==>
      CountSome(s[..j]) < |Somes(s)| && Somes(s)[CountSome(s[..j])] == s[j].value
    decreases |s|
  {
    if |s| > 0 {
      SomesPositions(s[1..]);
      forall j | 0 <= j < |s| && s[j].Some?
        ensures CountSome(s[..j]) < |Somes(s)| && Somes(s)[CountSome(s[..j])] == s[j].value
      {
        if j > 0 {
          assert s[..j][1..] == s[1..][..j - 1];
          assert s[1..][j - 1] == s[j];
        }
      }
    }
  }

  /** `getAllVisionMeasurements`: the present estimates, in the order front,
      right, back, left. */
  function GetAllVisionMeasurements(v: VisionState): (r: seq<Measurement>)
    ensures |r| == CountSome(v.estimates) <= 4
    ensures forall i :: 0 <= i < 4 && v.estimates[i].Some? ==>
      CountSome(v.estimates[..i]) < |r| && r[CountSome(v.estimates[..i])] == v.estimates[i].value
    ensures forall m :: m in r <==> exists i :: 0 <= i < 4 && v.estimates[i] == Some(m)
  {
    SomesPositions(v.estimates);
    SomesMembers(v.estimates);
    Somes(v.estimates)
  }

  lemma {:induction false} SomesMembers<T>(s: seq<Option<T>>)
    ensures |Somes(s)| <= |s|
    ensures forall m :: m in Somes(s) <==> exists i :: 0 <= i < |s| && s[i] == Some(m)
    decreases |s|
  {
    if |s| > 0 {
      SomesMembers(s[1..]);
      forall m
        ensures m in Somes(s) <==> exists i :: 0 <= i < |s| && s[i] == Some(m)
      {
        if m in Somes(s[1..]) {
          var i :| 0 <= i < |s[1..]| && s[1..][i] == Some(m);
          assert s[i + 1] == Some(m);
        }
        if exists i :: 0 <= i < |s| && s[i] == Some(m) {
          var i :| 0 <= i < |s| && s[i] == Some(m);
          if i > 0 {
            assert s[1..][i - 1] == Some(m);
          }
        }
      }
    }
  }

  /** `Stream.min` with `Double.compare` on ambiguity: the first measurement
      whose ambiguity is minimal; empty only when there are none. */
  method LowestAmbiguity(ms: seq<Measurement>) returns (r: Option<Measurement>)
    ensures r.None? <==> |ms| == 0
    ensures r.Some? ==> exists k :: (0 <= k < |ms| && ms[k] == r.value
      && (forall j :: 0 <= j < k ==> ms[j].ambiguity > r.value.ambiguity)
      && (forall j :: k <= j < |ms| ==> ms[j].ambiguity >= r.value.ambiguity))
  {
    if |ms| == 0 {
      return None;
    }
    var best := 0;
    var i := 1;
    while i < |ms|
      invariant 0 <= best < i <= |ms|
      invariant forall j :: 0 <= j < best ==> ms[j].ambiguity > ms[best].ambiguity
      invariant forall j :: best <= j < i ==> ms[j].ambiguity >= ms[best].ambiguity
    {
      if ms[i].ambiguity < ms[best].ambiguity {
        best := i;
      }
      i := i + 1;
    }
    return Some(ms[best]);
  }

  /** Slot `i` of `s` holds `m`, and every earlier present value is above `a`. */
  predicate FirstAbove(s: seq<Option<Measurement>>, i: int, m: Measurement, a: real)
  {
    0 <= i < |s| && s[i] == Some(m)
    && forall j :: 0 <= j < i && s[j].Some? ==> s[j].value.ambiguity > a
  }

  /** Putting an empty slot, or a value above `a`, in front keeps `FirstAbove`. */
  lemma ShiftFirstAbove(s: seq<Option<Measurement>>, i: int, m: Measurement, a: real)
    requires |s| > 0 && FirstAbove(s[1..], i, m, a)
    requires s[0].None? || s[0].value.ambiguity > a
    ensures FirstAbove(s, i + 1, m, a)
  {
    forall j | 0 <= j < i + 1 && s[j].Some? ensures s[j].value.ambiguity > a {
      if j > 0 { assert s[j] == s[1..][j - 1]; }
    }
  }

  /** A present value preceded in `Somes(s)` only by values above `a` comes
      from a slot preceded only by empty slots and values above `a`. */
  lemma {:induction false} FirstInSomes(s: seq<Option<Measurement>>, k: nat, a: real)
    requires k < |Somes(s)|
    requires forall j :: 0 <= j < k ==> Somes(s)[j].ambiguity > a
    ensures exists i :: FirstAbove(s, i, Somes(s)[k], a)
    decreases |s|
  {
    var rest := Somes(s[1..]);
    if s[0].None? {
      assert Somes(s) == rest;
      FirstInSomes(s[1..], k, a);
      var i :| FirstAbove(s[1..], i, rest[k], a);
      ShiftFirstAbove(s, i, rest[k], a);
    } else if k == 0 {
      assert FirstAbove(s, 0, Somes(s)[k], a);
    } else {
      assert Somes(s) == [s[0].value] + rest;
      forall j | 0 <= j < k - 1 ensures rest[j].ambiguity > a {
        assert rest[j] == Somes(s)[j + 1];
      }
      FirstInSomes(s[1..], k - 1, a);
      var i :| FirstAbove(s[1..], i, rest[k - 1], a);
      assert Somes(s)[0] == s[0].value && Somes(s)[k] == rest[k - 1];
      ShiftFirstAbove(s, i, rest[k - 1], a);
    }
  }

  /** `getBestVisionMeasurement`: the least ambiguous estimate; on a tie,
      the first camera in the order front, right, back, left. */
  method GetBestVisionMeasurement(v: VisionState) returns (r: Option<Measurement>)
    ensures r.None? <==> forall i :: 0 <= i < 4 ==> v.estimates[i].None?
    ensures r.Some? ==> exists i :: 0 <= i < 4 && v.estimates[i] == r
    ensures r.Some? ==> forall i :: 0 <= i < 4 && v.estimates[i].Some? ==> v.estimates[i].value.ambiguity >= r.value.ambiguity
    ensures r.Some? ==> exists i :: (0 <= i < 4 && v.estimates[i] == r
      && forall j :: 0 <= j < i && v.estimates[j].Some? ==> v.estimates[j].value.ambiguity > r.value.ambiguity)
  {
    var ms := GetAllVisionMeasurements(v);
    r := LowestAmbiguity(ms);
    if r.Some? {
      var k :| 0 <= k < |ms| && ms[k] == r.value
        && (forall j :: 0 <= j < k ==> ms[j].ambiguity > r.value.ambiguity);
      FirstInSomes(v.estimates, k, r.value.ambiguity);
      forall i | 0 <= i < 4 && v.estimates[i].Some?
        ensures v.estimates[i].value.ambiguity >= r.value.ambiguity
      {
        assert v.estimates[i].value in ms;
      }
    }
  }
}
