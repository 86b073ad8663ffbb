/**
 * The two consumers of `config.current`: the core geometry (whose
 * transmission material blends colour and distortion toward the
 * configuration at fraction `2 * delta`, and whose mesh spins at fixed
 * rates) and a data ribbon (which spins about one axis at its speed times the
 * configuration's raw ring speed, and blends its emissive colour and
 * intensity at fraction `delta`). None of the fractions is clamped to 1.
 */
module Materials {
  import opened Vectors
  import opened Artifact

  datatype Axis = X | Y | Z

  /** The rotation with the component for `axis` advanced by `amount`. */
  function Turn(r: Vec3, axis: Axis, amount: real): Vec3
  {
    match axis
    case X => r.(x := r.x + amount)
    case Y => r.(y := r.y + amount)
    case Z => r.(z := r.z + amount)
  }

  class CoreGeometry {
    var color: Vec3
    var distortion: real
    var rotation: Vec3

    /** Mounting: the material is created white; its distortion is the material library's default. */
    constructor (distortion0: real)
      ensures color == ColorOf("#ffffff") && distortion == distortion0 && rotation == Origin
    {
      color := ColorOf("#ffffff");
      distortion := distortion0;
      rotation := Origin;
    }

    /** One `useFrame` callback of `CoreGeometry`, reading the configuration of this frame. */
    method Frame(target: ArtifactConfig, delta: real)
      requires IsHexColor(target.color)
      modifies this
      ensures color == old(color).Lerp(ColorOf(target.color), delta * 2.0)
      ensures distortion == MathLerp(old(distortion), target.distortion, delta * 2.0)
      ensures rotation == Vec3(old(rotation).x + delta * 0.2, old(rotation).y + delta * 0.3, old(rotation).z)
    {
      color := color.Lerp(ColorOf(target.color), delta * 2.0);
      distortion := MathLerp(distortion, target.distortion, delta * 2.0);

      rotation := rotation.(x := rotation.x + delta * 0.2);
      rotation := rotation.(y := rotation.y + delta * 0.3);
    }
  }

  class DataRibbon {
    const speed: real
    const axis: Axis
    var rotation: Vec3
    var emissive: Vec3
    var emissiveIntensity: real

    /** Mounting: the emissive colour is created white; its intensity is the material library's default. */
    constructor (speed: real, axis: Axis, intensity0: real)
      ensures this.speed == speed && this.axis == axis
      ensures rotation == Origin && emissive == ColorOf("#ffffff") && emissiveIntensity == intensity0
    {
      this.speed := speed;
      this.axis := axis;
      rotation := Origin;
      emissive := ColorOf("#ffffff");
      emissiveIntensity := intensity0;
    }

    /** One `useFrame` callback of `DataRibbon`. */
    method Frame(target: ArtifactConfig, delta: real)
      requires IsHexColor(target.color)
      modifies this
      ensures rotation == Turn(old(rotation), axis, delta * (speed * target.ringSpeed))
      ensures emissive == old(emissive).Lerp(ColorOf(target.color), delta)
      ensures emissiveIntensity == MathLerp(old(emissiveIntensity), target.emissiveIntensity, delta)
    {
      var currentSpeed := speed * target.ringSpeed;
      if axis == X { rotation := rotation.(x := rotation.x + delta * currentSpeed); }
      if axis == Y { rotation := rotation.(y := rotation.y + delta * currentSpeed); }
      if axis == Z { rotation := rotation.(z := rotation.z + delta * currentSpeed); }

      emissive := emissive.Lerp(ColorOf(target.color), delta);
      emissiveIntensity := MathLerp(emissiveIntensity, target.emissiveIntensity, delta);
    }
  }

  function Sum(ds: seq<real>): real
  {
    if ds == [] then 0.0 else ds[0] + Sum(ds[1..])
  }

  /** A rotation angle after frames of the given durations, each adding `delta * rate`. */
  function Accumulate(angle: real, rate: real, deltas: seq<real>): real
    decreases |deltas|
  {
    if deltas == [] then angle else Accumulate(angle + deltas[0] * rate, rate, deltas[1..])
  }

  /**
   * The accumulated rotations are frame-rate independent: the angle after a run
   * of frames depends only on their total duration, not on how it was split.
   */
  lemma {:induction false} AccumulateTotal(angle: real, rate: real, deltas: seq<real>)
    ensures Accumulate(angle, rate, deltas) == angle + rate * Sum(deltas)
    decreases |deltas|
  {
    if deltas != [] {
      AccumulateTotal(angle + deltas[0] * rate, rate, deltas[1..]);
      assert rate * Sum(deltas) == deltas[0] * rate + rate * Sum(deltas[1..]);
    }
  }

  lemma AccumulateSplitFree(angle: real, rate: real, d1: seq<real>, d2: seq<real>)
    requires Sum(d1) == Sum(d2)
    ensures Accumulate(angle, rate, d1) == Accumulate(angle, rate, d2)
  {
    AccumulateTotal(angle, rate, d1);
    AccumulateTotal(angle, rate, d2);
  }

  /** A ribbon turns only about its own axis. */
  lemma TurnOnlyAxis(r: Vec3, axis: Axis, amount: real)
    ensures axis != X ==> Turn(r, axis, amount).x == r.x
    ensures axis != Y ==> Turn(r, axis, amount).y == r.y
    ensures axis != Z ==> Turn(r, axis, amount).z == r.z
  {
  }

  /**
   * The ring speed is used raw, so a ribbon's direction is that of its own speed
   * for every selection: the configured ring speeds are all positive.
   */
  lemma RibbonDirection(speed: real, p: ProjectId, delta: real)
    requires delta > 0.0 && speed != 0.0
    ensures (delta * (speed * ConfigFor(p).ringSpeed) > 0.0) == (speed > 0.0)
  {
    var rs := ConfigFor(p).ringSpeed;
    if speed > 0.0 {
      MulPositive(speed, rs);
      MulPositive(delta, speed * rs);
    } else {
      MulPositive(-speed, rs);
      MulPositive(delta, -speed * rs);
    }
  }

  /** A colour blend by a fraction below 1 never lands on a target colour it did not start at. */
  lemma ColorNoSnap(c: Vec3, target: Vec3, alpha: real)
    requires alpha < 1.0 && c != target
    ensures c.Lerp(target, alpha) != target
  {
    if c.x != target.x {
      LerpNoSnap(c.x, target.x, alpha);
    } else if c.y != target.y {
      LerpNoSnap(c.y, target.y, alpha);
    } else {
      LerpNoSnap(c.z, target.z, alpha);
    }
  }

  /**
   * The selector toggles from none to `qs` and back within two frames shorter
   * than half a second: the core's colour, starting from the default white,
   * never equals the `qs` colour, in either frame.
   */
  lemma QsToggleNeverSnaps(d1: real, d2: real)
    requires 0.0 <= d1 < 0.5 && 0.0 <= d2 <= 0.5
    ensures var white, qs := ColorOf(DefaultConfig.color), ColorOf(ConfigFor(Qs).color);
      var c1 := white.Lerp(qs, d1 * 2.0);
      c1 != qs && c1.Lerp(white, d2 * 2.0) != qs
  {
    var white, qs := ColorOf(DefaultConfig.color), ColorOf(ConfigFor(Qs).color);
    KnownColors();
    var c1 := white.Lerp(qs, d1 * 2.0);
    assert c1.y == 1.0 - d1 * 2.0;
    var c2 := c1.Lerp(white, d2 * 2.0);
    LerpBetween(c1.y, 1.0, d2 * 2.0);
    assert c2.y >= c1.y > 0.0;
  }

  /** The core's colour after frames of the given durations, all blending toward one target colour. */
  function ColorRun(c: Vec3, target: Vec3, deltas: seq<real>): Vec3
    decreases |deltas|
  {
    if deltas == [] then c else ColorRun(c.Lerp(target, deltas[0] * 2.0), target, deltas[1..])
  }

  /**
   * However many frames run, each shorter than half a second, the core's colour
   * never reaches a target colour it did not start at.
   */
  lemma {:induction false} ColorRunNoSnap(c: Vec3, target: Vec3, deltas: seq<real>)
    requires c != target
    requires forall k :: 0 <= k < |deltas| ==> deltas[k] < 0.5
    ensures ColorRun(c, target, deltas) != target
    decreases |deltas|
  {
    if deltas != [] {
      ColorNoSnap(c, target, deltas[0] * 2.0);
      var rest := deltas[1..];
      assert forall k :: 0 <= k < |rest| ==> rest[k] == deltas[k + 1];
      ColorRunNoSnap(c.Lerp(target, deltas[0] * 2.0), target, rest);
    }
  }

  /** With `delta <= 0.5` the distortion moves toward the configured value without passing it. */
  lemma DistortionApproaches(d: real, target: real, delta: real)
    requires 0.0 <= delta <= 0.5
    ensures Between(MathLerp(d, target, delta * 2.0), d, target)
    ensures Abs(MathLerp(d, target, delta * 2.0) - target) <= Abs(d - target)
  {
    MathLerpIsMix(d, target, delta * 2.0);
    LerpBetween(d, target, delta * 2.0);
  }
}
