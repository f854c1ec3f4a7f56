/** The slice of WPILib's planar geometry the model needs. */
module Geometry {

  /** A field pose: translation in metres and the rotation in degrees, kept
      as the value it was created from (`Rotation2d.fromDegrees`). */
  datatype Pose2d = Pose2d(x: real, y: real, degrees: real)

  /** Cosine and sine of an angle in degrees. Trigonometry is not modelled:
      the functions are parameters, constrained only by `Standard`. */
  datatype Trig = Trig(cos: real -> real, sin: real -> real)

  /** The facts about cosine and sine the model relies on. */
  ghost predicate Standard(t: Trig) {
    && t.cos(0.0) == 1.0 && t.sin(0.0) == 0.0
    && t.cos(90.0) == 0.0 && t.sin(90.0) == 1.0
  }

  /** `pose.plus(new Transform2d(new Translation2d(dx, dy), new Rotation2d()))`:
      the offset is expressed in the pose's own frame and rotated into the
      field frame; the rotation is unchanged. */
  function PlusTranslation(t: Trig, p: Pose2d, dx: real, dy: real): (r: Pose2d)
    ensures r.degrees == p.degrees
    ensures dx == 0.0 && dy == 0.0 ==> r == p
  {
    var c := t.cos(p.degrees);
    var s := t.sin(p.degrees);
    Pose2d(p.x + dx * c - dy * s, p.y + dx * s + dy * c, p.degrees)
  }
}
