/**
 * The per-frame step of the `CyberCore` group: it re-selects the artifact
 * configuration, sets the turntable rotation and tilt from the scroll value,
 * and moves the group's scale a fixed tenth of the way toward a target made
 * of the configuration's scale times an idle breathing factor plus a
 * scroll-windowed "explosion" term.
 */
module CyberCore {
  import opened Wrappers
  import opened Vectors
  import opened Trig
  import opened Artifact

  /** Turntable rotation about the vertical axis: one full turn across the scroll range. */
  function Turntable(scroll: real): (r: real)
    ensures 0.0 <= scroll <= 1.0 ==> 0.0 <= r <= 2.0 * Pi
    ensures scroll == 0.5 ==> r == Pi
    ensures scroll == 1.0 ==> r == 2.0 * Pi
  {
    scroll * Pi * 2.0
  }

  /** Tilt about z: `sin(scroll * PI) * 0.5`. */
  function Tilt(sin: real -> real, scroll: real): real
  {
    sin(scroll * Pi) * 0.5
  }

  /** Idle breathing factor driven by the wall clock. */
  function Breath(sin: real -> real, elapsed: real): real
  {
    1.0 + sin(elapsed) * 0.05
  }

  /** The open scroll window in which the explosion term is added. */
  predicate InExplosionWindow(scroll: real)
  {
    scroll > 0.3 && scroll < 0.7
  }

  /** The extra expansion added inside the window, zero outside it. */
  function Explosion(sin: real -> real, scroll: real): real
  {
    if InExplosionWindow(scroll) then sin((scroll - 0.3) / 0.4 * Pi) * 0.5 else 0.0
  }

  function Expansion(sin: real -> real, scroll: real, elapsed: real): real
  {
    Breath(sin, elapsed) + Explosion(sin, scroll)
  }

  /** The uniform scale the group is pulled toward this frame. */
  function TargetScale(config: ArtifactConfig, sin: real -> real, scroll: real, elapsed: real): real
  {
    config.scale * Expansion(sin, scroll, elapsed)
  }

  /** The group's share of the gap to the target scale that is closed each frame. */
  const ScaleFraction: real := 0.1

  class CyberCore {
    /** `config.current`, read by the core geometry and the ribbons in the same frame. */
    var config: ArtifactConfig
    /** The group's Euler rotation; this step writes y and z only. */
    var rotation: Vec3
    var scale: Vec3

    /** Mounting: `config` starts as the default; the group's transform is whatever it was created with. */
    constructor (rotation0: Vec3, scale0: Vec3)
      ensures config == DefaultConfig && rotation == rotation0 && scale == scale0
    {
      config := DefaultConfig;
      rotation := rotation0;
      scale := scale0;
    }

    /** One `useFrame` callback of the CyberCore component. */
    method Frame(active: Option<string>, scroll: real, elapsed: real, sin: real -> real)
      modifies this
      ensures config == ConfigFor(Selected(active))
      ensures rotation == Vec3(old(rotation).x, Turntable(scroll), Tilt(sin, scroll))
      ensures scale == old(scale).Lerp(Uniform(TargetScale(config, sin, scroll, elapsed)), ScaleFraction)
    {
      var target := ConfigFor(Selected(active));
      config := target;

      rotation := rotation.(y := scroll * Pi * 2.0);
      rotation := rotation.(z := sin(scroll * Pi) * 0.5);

      var expansion := 1.0 + sin(elapsed) * 0.05;
      if scroll > 0.3 && scroll < 0.7 {
        var projectIntensity := sin((scroll - 0.3) / 0.4 * Pi);
        expansion := expansion + projectIntensity * 0.5;
      }

      var targetScale := target.scale * expansion;
      scale := scale.Lerp(Uniform(targetScale), 0.1);
    }
  }

  /** The tilt stays within half a radian, is non-negative over the scroll range and vanishes at both ends. */
  lemma TiltRange(sin: real -> real, scroll: real)
    requires SineLaws(sin)
    ensures -0.5 <= Tilt(sin, scroll) <= 0.5
    ensures 0.0 <= scroll <= 1.0 ==> Tilt(sin, scroll) >= 0.0
    ensures scroll == 0.0 ==> Tilt(sin, scroll) == 0.0
    ensures scroll == 1.0 ==> 0.0 <= Tilt(sin, scroll) == sin(Pi) * 0.5
  {
    assert -1.0 <= sin(scroll * Pi) <= 1.0;
    if 0.0 <= scroll <= 1.0 {
      assert 0.0 <= scroll * Pi <= Pi;
    }
  }

  /** The breathing factor stays within five percent of 1. */
  lemma BreathRange(sin: real -> real, elapsed: real)
    requires SineLaws(sin)
    ensures 0.95 <= Breath(sin, elapsed) <= 1.05
  {
    assert -1.0 <= sin(elapsed) <= 1.0;
  }

  /**
   * The explosion term is exactly zero outside the open window (0.3, 0.7), so in
   * particular at both of its edges, and lies in [0, 0.5] inside it.
   */
  lemma ExplosionWindow(sin: real -> real, scroll: real)
    requires SineLaws(sin)
    ensures !InExplosionWindow(scroll) ==> Explosion(sin, scroll) == 0.0
    ensures 0.0 <= Explosion(sin, scroll) <= 0.5
    ensures scroll == 0.3 || scroll == 0.7 ==> Explosion(sin, scroll) == 0.0
  {
    if InExplosionWindow(scroll) {
      var u := (scroll - 0.3) / 0.4;
      assert 0.0 <= u <= 1.0;
      assert 0.0 <= u * Pi <= Pi;
      assert 0.0 <= sin(u * Pi) <= 1.0;
    }
  }

  /** The target scale is the configuration's scale times a factor in [0.95, 1.55]; outside the window only breathing acts. */
  lemma TargetScaleRange(config: ArtifactConfig, sin: real -> real, scroll: real, elapsed: real)
    requires SineLaws(sin) && config.scale >= 0.0
    ensures 0.95 * config.scale <= TargetScale(config, sin, scroll, elapsed) <= 1.55 * config.scale
    ensures !InExplosionWindow(scroll) ==>
      TargetScale(config, sin, scroll, elapsed) == config.scale * Breath(sin, elapsed)
  {
    BreathRange(sin, elapsed);
    ExplosionWindow(sin, scroll);
    var e := Expansion(sin, scroll, elapsed);
    assert 0.95 <= e <= 1.55;
    NonNegProduct(config.scale, e - 0.95);
    NonNegProduct(config.scale, 1.55 - e);
  }

  /** For every selectable configuration the target scale stays within [0.95, 2.015]. */
  lemma SelectedTargetScaleRange(p: ProjectId, sin: real -> real, scroll: real, elapsed: real)
    requires SineLaws(sin)
    ensures 0.95 <= TargetScale(ConfigFor(p), sin, scroll, elapsed) <= 2.015
  {
    var c := ConfigFor(p);
    TargetScaleRange(c, sin, scroll, elapsed);
  }

  /**
   * The group scale closes a fixed tenth of each component's gap per frame,
   * whatever the frame's duration: after `n` frames toward a fixed target the
   * gap is `0.9^n` of the first, and it never grows.
   */
  lemma ScaleConvergence(s: real, target: real, n: nat)
    ensures LerpRepeat(s, target, ScaleFraction, n) - target == Pow(0.9, n) * (s - target)
    ensures Abs(LerpRepeat(s, target, ScaleFraction, n + 1) - target) <= Abs(LerpRepeat(s, target, ScaleFraction, n) - target)
  {
    LerpRepeatGap(s, target, ScaleFraction, n);
    LerpRepeatApproaches(s, target, ScaleFraction, n);
  }

  /** A uniform group scale stays uniform under the frame step. */
  lemma ScaleStaysUniform(s: real, target: real)
    ensures IsUniform(Uniform(s).Lerp(Uniform(target), ScaleFraction))
  {
    UniformLerp(s, target, ScaleFraction);
  }
}
