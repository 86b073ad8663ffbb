/**
 * The camera rig's per-frame step: interpolate the five-waypoint camera table
 * at the scroll value, add a pointer parallax offset to x and y, move the
 * camera the fraction `2 * delta` of the way to that target (unclamped), and
 * re-aim it at the origin.
 *
 * `interpolate` returns a fresh vector for an in-range value but the table's
 * own last vector otherwise, and the parallax is then added to that vector in
 * place. The rig therefore owns its table as state: an out-of-range frame
 * writes the shifted vector back into the last waypoint.
 */
module Camera {
  import opened Wrappers
  import opened Vectors
  import opened Keyframes

  /** Hero, about, projects, skills and contact poses. */
  const CameraKeyframes: seq<Keyframe> := [
    Keyframe(0.0, Vec3(-3.0, 0.0, 6.0)),
    Keyframe(0.25, Vec3(-4.0, 2.0, 5.0)),
    Keyframe(0.5, Vec3(0.0, 0.0, 9.0)),
    Keyframe(0.75, Vec3(4.0, -2.0, 5.0)),
    Keyframe(1.0, Vec3(0.0, 0.0, 3.0))
  ]

  /** Normalised pointer coordinates. */
  datatype Pointer = Pointer(x: real, y: real)

  const ParallaxFactor: real := 0.2

  /** The mouse parallax: x and y shifted by a fifth of the pointer, z untouched. */
  function Parallax(v: Vec3, pointer: Pointer): (r: Vec3)
    ensures r.z == v.z
    ensures -1.0 <= pointer.x <= 1.0 ==> Abs(r.x - v.x) <= ParallaxFactor
    ensures -1.0 <= pointer.y <= 1.0 ==> Abs(r.y - v.y) <= ParallaxFactor
  {
    Vec3(v.x + pointer.x * ParallaxFactor, v.y + pointer.y * ParallaxFactor, v.z)
  }

  /** The position the camera is pulled toward this frame. */
  function CameraTarget(kf: seq<Keyframe>, scroll: real, pointer: Pointer): Vec3
    requires WellFormed(kf)
  {
    Parallax(Interpolate(scroll, kf), pointer)
  }

  /** The table after a frame: unchanged in range, last vector shifted by the parallax otherwise. */
  function KeyframesAfter(kf: seq<Keyframe>, scroll: real, pointer: Pointer): (r: seq<Keyframe>)
    requires WellFormed(kf)
    ensures WellFormed(r) && |r| == |kf|
    ensures forall i :: 0 <= i < |kf| ==> r[i].t == kf[i].t
  {
    if Segment(scroll, kf).Some? then kf
    else kf[|kf| - 1 := Keyframe(Last(kf).t, CameraTarget(kf, scroll, pointer))]
  }

  class CameraRig {
    /** The memoised `posKeyframes`, whose last vector the out-of-range frames mutate. */
    var keyframes: seq<Keyframe>
    var position: Vec3
    /** The point the camera was last aimed at. */
    var lookTarget: Vec3

    ghost predicate Valid()
      reads this
    {
      WellFormed(keyframes)
    }

    /** Mounting: the default camera is placed at (0, 0, 6); its initial aim is the camera library's default. */
    constructor (lookTarget0: Vec3)
      ensures Valid()
      ensures keyframes == CameraKeyframes && position == Vec3(0.0, 0.0, 6.0) && lookTarget == lookTarget0
    {
      keyframes := CameraKeyframes;
      position := Vec3(0.0, 0.0, 6.0);
      lookTarget := lookTarget0;
    }

    /** One `useFrame` callback of `CameraRig`. */
    method Step(scroll: real, pointer: Pointer, delta: real)
      requires Valid()
      modifies this
      ensures Valid()
      ensures keyframes == KeyframesAfter(old(keyframes), scroll, pointer)
      ensures position == old(position).Lerp(CameraTarget(old(keyframes), scroll, pointer), delta * 2.0)
      ensures lookTarget == Origin
    {
      var aliased := Segment(scroll, keyframes).None?;
      var targetPos := Interpolate(scroll, keyframes);

      targetPos := targetPos.(x := targetPos.x + pointer.x * 0.2);
      targetPos := targetPos.(y := targetPos.y + pointer.y * 0.2);
      if aliased {
        // targetPos is the table's own last vector: the parallax lands in the table too
        keyframes := keyframes[|keyframes| - 1 := Keyframe(Last(keyframes).t, targetPos)];
      }

      position := position.Lerp(targetPos, delta * 2.0);
      lookTarget := Origin;
    }
  }

  /** Every waypoint of the camera table is hit exactly at its time; below its range the contact pose is used. */
  lemma CameraPoses(scroll: real)
    ensures WellFormed(CameraKeyframes)
    ensures Interpolate(0.0, CameraKeyframes) == Vec3(-3.0, 0.0, 6.0)
    ensures Interpolate(0.25, CameraKeyframes) == Vec3(-4.0, 2.0, 5.0)
    ensures Interpolate(0.5, CameraKeyframes) == Vec3(0.0, 0.0, 9.0)
    ensures Interpolate(0.75, CameraKeyframes) == Vec3(4.0, -2.0, 5.0)
    ensures Interpolate(1.0, CameraKeyframes) == Vec3(0.0, 0.0, 3.0)
    ensures scroll < 0.0 || scroll > 1.0 ==> Interpolate(scroll, CameraKeyframes) == Vec3(0.0, 0.0, 3.0)
  {
    var kf := CameraKeyframes;
    assert WellFormed(kf);
    InterpolateAtWaypoint(kf, 0);
    InterpolateAtWaypoint(kf, 1);
    InterpolateAtWaypoint(kf, 2);
    InterpolateAtWaypoint(kf, 3);
    InterpolateAtWaypoint(kf, 4);
    if scroll < 0.0 || scroll > 1.0 {
      InterpolateOutOfRange(kf, scroll);
    }
  }

  /**
   * With `delta <= 0.5` each coordinate of the camera moves toward the target
   * without passing it; the remaining gap is exactly `1 - 2 * delta` of the old one.
   */
  lemma StepApproaches(p: Vec3, target: Vec3, delta: real)
    requires 0.0 <= delta <= 0.5
    ensures BetweenVec(p.Lerp(target, delta * 2.0), p, target)
    ensures p.Lerp(target, delta * 2.0).x - target.x == (1.0 - 2.0 * delta) * (p.x - target.x)
    ensures p.Lerp(target, delta * 2.0).y - target.y == (1.0 - 2.0 * delta) * (p.y - target.y)
    ensures p.Lerp(target, delta * 2.0).z - target.z == (1.0 - 2.0 * delta) * (p.z - target.z)
  {
    LerpBetween(p.x, target.x, delta * 2.0);
    LerpBetween(p.y, target.y, delta * 2.0);
    LerpBetween(p.z, target.z, delta * 2.0);
    LerpGap(p.x, target.x, delta * 2.0);
    LerpGap(p.y, target.y, delta * 2.0);
    LerpGap(p.z, target.z, delta * 2.0);
  }

  /** A jump in the target never teleports the camera: a frame shorter than half a second does not reach a distinct target. */
  lemma StepNoTeleport(p: Vec3, target: Vec3, delta: real)
    requires delta < 0.5 && p != target
    ensures p.Lerp(target, delta * 2.0) != target
  {
    if p.x != target.x {
      LerpNoSnap(p.x, target.x, delta * 2.0);
    } else if p.y != target.y {
      LerpNoSnap(p.y, target.y, delta * 2.0);
    } else {
      LerpNoSnap(p.z, target.z, delta * 2.0);
    }
  }

  /**
   * The fraction is not clamped: in a coordinate where the camera differs from
   * the target, a frame longer than half a second passes the target, and one
   * longer than a second leaves the camera further from it.
   */
  lemma CoordinateUnclamped(a: real, b: real, delta: real)
    requires a != b
    ensures delta > 0.5 ==> !Between(Mix(a, b, delta * 2.0), a, b)
    ensures delta > 1.0 ==> Abs(Mix(a, b, delta * 2.0) - b) > Abs(a - b)
  {
    var g, k := a - b, 2.0 * delta - 1.0;
    var n := Mix(a, b, delta * 2.0);
    LerpGap(a, b, delta * 2.0);
    assert n - b == -(k * g);
    if delta > 0.5 {
      if g > 0.0 {
        MulPositive(k, g);
        assert n < b < a;
      } else {
        MulPositive(k, -g);
        assert k * -g == -(k * g);
        assert a < b < n;
      }
    }
    if delta > 1.0 {
      LerpDiverges(a, b, delta * 2.0);
    }
  }

  /** `CoordinateUnclamped` for each coordinate of the camera step. */
  lemma StepUnclamped(p: Vec3, target: Vec3, delta: real)
    ensures p.x != target.x && delta > 0.5 ==> !Between(p.Lerp(target, delta * 2.0).x, p.x, target.x)
    ensures p.y != target.y && delta > 0.5 ==> !Between(p.Lerp(target, delta * 2.0).y, p.y, target.y)
    ensures p.z != target.z && delta > 0.5 ==> !Between(p.Lerp(target, delta * 2.0).z, p.z, target.z)
    ensures p.x != target.x && delta > 1.0 ==> Abs(p.Lerp(target, delta * 2.0).x - target.x) > Abs(p.x - target.x)
    ensures p.y != target.y && delta > 1.0 ==> Abs(p.Lerp(target, delta * 2.0).y - target.y) > Abs(p.y - target.y)
    ensures p.z != target.z && delta > 1.0 ==> Abs(p.Lerp(target, delta * 2.0).z - target.z) > Abs(p.z - target.z)
  {
    if p.x != target.x { CoordinateUnclamped(p.x, target.x, delta); }
    if p.y != target.y { CoordinateUnclamped(p.y, target.y, delta); }
    if p.z != target.z { CoordinateUnclamped(p.z, target.z, delta); }
  }

  /** For a scroll value inside the table's range the frame leaves the table as it was. */
  lemma InRangeKeepsTable(kf: seq<Keyframe>, scroll: real, pointer: Pointer)
    requires WellFormed(kf) && kf[0].t <= scroll <= Last(kf).t && |kf| > 1
    ensures KeyframesAfter(kf, scroll, pointer) == kf
  {
    InterpolateNoOvershoot(kf, scroll);
  }

  /** The table after `n` frames at the same out-of-range scroll value and pointer. */
  function StaleFrames(kf: seq<Keyframe>, scroll: real, pointer: Pointer, n: nat): (r: seq<Keyframe>)
    requires WellFormed(kf)
    ensures WellFormed(r) && |r| == |kf| && Last(r).t == Last(kf).t
    decreases n
  {
    if n == 0 then kf else StaleFrames(KeyframesAfter(kf, scroll, pointer), scroll, pointer, n - 1)
  }

  /**
   * Out-of-range frames drift the last waypoint: after `n` of them it has moved
   * by `n` parallax offsets, and the table's other entries are untouched.
   */
  lemma {:induction false} StaleFramesDrift(kf: seq<Keyframe>, scroll: real, pointer: Pointer, n: nat)
    requires WellFormed(kf) && (scroll < kf[0].t || scroll > Last(kf).t)
    ensures var r := StaleFrames(kf, scroll, pointer, n);
      Last(r).v == Vec3(Last(kf).v.x + n as real * pointer.x * ParallaxFactor,
                        Last(kf).v.y + n as real * pointer.y * ParallaxFactor,
                        Last(kf).v.z)
      && r[..|kf| - 1] == kf[..|kf| - 1]
    decreases n
  {
    if n > 0 {
      InterpolateOutOfRange(kf, scroll);
      var kf' := KeyframesAfter(kf, scroll, pointer);
      assert kf'[0].t == kf[0].t;
      StaleFramesDrift(kf', scroll, pointer, n - 1);
      assert kf'[..|kf| - 1] == kf[..|kf| - 1];
    }
  }
}
