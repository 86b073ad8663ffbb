/**
 * Real-valued model of the three.js vector arithmetic the scene uses:
 * `Vector3.lerp`, `Vector3.lerpVectors`, `Color.lerp` (all of the form
 * `a + (b - a) * alpha` per component) and `MathUtils.lerp`
 * (`(1 - t) * x + t * y`). Floating point is replaced by the reals.
 */
module Vectors {

  /** A three.js `Vector3`; also an RGB colour with channels r, g, b in x, y, z. */
  datatype Vec3 = Vec3(x: real, y: real, z: real)
  {
    /** `this.lerp(v, alpha)`: every component moves the fraction `alpha` of its gap to `v`. */
    function Lerp(v: Vec3, alpha: real): Vec3
    {
      Vec3(Mix(x, v.x, alpha), Mix(y, v.y, alpha), Mix(z, v.z, alpha))
    }
  }

  const Origin: Vec3 := Vec3(0.0, 0.0, 0.0)

  /** A uniform scale `(s, s, s)`. */
  function Uniform(s: real): Vec3
  {
    Vec3(s, s, s)
  }

  predicate IsUniform(v: Vec3)
  {
    v.x == v.y == v.z
  }

  /** One component of `Vector3.lerp` / `Color.lerp` / `lerpVectors`: `a + (b - a) * alpha`. */
  function Mix(a: real, b: real, alpha: real): real
  {
    a + (b - a) * alpha
  }

  /** `THREE.MathUtils.lerp(x, y, t)`, written as three.js writes it. */
  function MathLerp(x: real, y: real, t: real): real
  {
    (1.0 - t) * x + t * y
  }

  function Abs(r: real): real
  {
    if r < 0.0 then -r else r
  }

  /** `v` lies on the closed segment between `a` and `b`, in either order. */
  predicate Between(v: real, a: real, b: real)
  {
    (a <= v <= b) || (b <= v <= a)
  }

  predicate BetweenVec(v: Vec3, a: Vec3, b: Vec3)
  {
    Between(v.x, a.x, b.x) && Between(v.y, a.y, b.y) && Between(v.z, a.z, b.z)
  }

  function Pow(q: real, n: nat): real
  {
    if n == 0 then 1.0 else q * Pow(q, n - 1)
  }

  /** The value after `n` frames that each lerp by `alpha` toward the same `target`. */
  function LerpRepeat(a: real, target: real, alpha: real, n: nat): real
    decreases n
  {
    if n == 0 then a else LerpRepeat(Mix(a, target, alpha), target, alpha, n - 1)
  }

  /** The remaining gap after one lerp step is the old gap scaled by `1 - alpha`. */
  lemma LerpGap(a: real, b: real, alpha: real)
    ensures Mix(a, b, alpha) - b == (1.0 - alpha) * (a - b)
  {
  }

  /** Both lerp formulas of three.js agree over the reals. */
  lemma MathLerpIsMix(x: real, y: real, t: real)
    ensures MathLerp(x, y, t) == Mix(x, y, t)
  {
  }

  /** With a fraction in [0, 1] a lerp step never overshoots: it lands between start and target. */
  lemma LerpBetween(a: real, b: real, alpha: real)
    requires 0.0 <= alpha <= 1.0
    ensures Between(Mix(a, b, alpha), a, b)
    ensures Abs(Mix(a, b, alpha) - b) <= Abs(a - b)
  {
    var q, g := 1.0 - alpha, a - b;
    LerpGap(a, b, alpha);
    assert Mix(a, b, alpha) == b + q * g;
    if g >= 0.0 {
      MulBounds(g, q);
      assert q * g == g * q;
    } else {
      MulBounds(-g, q);
      assert q * g == -(-g * q);
    }
  }

  /** `0 <= d * alpha <= d` for a non-negative `d` and `alpha` in [0, 1]. */
  lemma MulBounds(d: real, alpha: real)
    requires 0.0 <= d && 0.0 <= alpha <= 1.0
    ensures 0.0 <= d * alpha <= d
  {
    assert d - d * alpha == d * (1.0 - alpha);
  }

  /** A quotient of `0 <= n <= d` by a positive `d` lies in [0, 1]. */
  lemma RatioBounds(n: real, d: real)
    requires 0.0 <= n <= d && d > 0.0
    ensures 0.0 <= n / d <= 1.0
  {
    var q := n / d;
    assert q * d == n;
    if q < 0.0 {
      MulPositive(-q, d);
    }
    if q > 1.0 {
      MulPositive(q - 1.0, d);
    }
  }

  /** A step by a fraction below 1 never lands exactly on a target it did not start at. */
  lemma LerpNoSnap(a: real, b: real, alpha: real)
    requires alpha < 1.0 && a != b
    ensures Mix(a, b, alpha) != b
  {
    LerpGap(a, b, alpha);
    MulNonzero(1.0 - alpha, a - b);
  }

  lemma MulPositive(p: real, q: real)
    requires p > 0.0 && q > 0.0
    ensures p * q > 0.0
  {
  }

  lemma NonNegProduct(p: real, q: real)
    requires p >= 0.0 && q >= 0.0
    ensures p * q >= 0.0
  {
    if p > 0.0 && q > 0.0 { MulPositive(p, q); }
  }

  lemma MulNonzero(p: real, q: real)
    requires p != 0.0 && q != 0.0
    ensures p * q != 0.0
  {
    if p > 0.0 && q > 0.0 {
      assert p * q > 0.0;
    } else if p > 0.0 {
      assert p * -q > 0.0;
    } else if q > 0.0 {
      assert -p * q > 0.0;
    } else {
      assert -p * -q > 0.0;
    }
  }

  /** A step by a fraction above 2 moves the value further from the target than it was. */
  lemma LerpDiverges(a: real, b: real, alpha: real)
    requires alpha > 2.0 && a != b
    ensures Abs(Mix(a, b, alpha) - b) > Abs(a - b)
  {
    var g := a - b;
    LerpGap(a, b, alpha);
    assert Mix(a, b, alpha) - b == -((alpha - 1.0) * g);
    if g > 0.0 {
      MulPositive(alpha - 2.0, g);
      assert (alpha - 1.0) * g == (alpha - 2.0) * g + g;
    } else {
      MulPositive(alpha - 2.0, -g);
      assert (alpha - 1.0) * -g == (alpha - 2.0) * -g + -g;
      assert -((alpha - 1.0) * g) == (alpha - 1.0) * -g;
    }
  }

  /** After `n` frames with a fixed target the gap is `(1 - alpha)^n` times the first gap. */
  lemma {:induction false} LerpRepeatGap(a: real, target: real, alpha: real, n: nat)
    ensures LerpRepeat(a, target, alpha, n) - target == Pow(1.0 - alpha, n) * (a - target)
    decreases n
  {
    if n > 0 {
      var a' := Mix(a, target, alpha);
      LerpRepeatGap(a', target, alpha, n - 1);
      LerpGap(a, target, alpha);
      var q, g := 1.0 - alpha, a - target;
      var p := Pow(q, n - 1);
      assert Pow(q, n) == q * p;
      assert LerpRepeat(a, target, alpha, n) - target == p * (q * g);
      assert p * (q * g) == (q * p) * g;
    }
  }

  /** For a fraction in [0, 1], repeated steps never move away from a fixed target. */
  lemma {:induction false} LerpRepeatApproaches(a: real, target: real, alpha: real, n: nat)
    requires 0.0 <= alpha <= 1.0
    ensures Abs(LerpRepeat(a, target, alpha, n + 1) - target) <= Abs(LerpRepeat(a, target, alpha, n) - target)
    ensures Between(LerpRepeat(a, target, alpha, n), a, target)
    decreases n
  {
    if n == 0 {
      LerpBetween(a, target, alpha);
    } else {
      var a' := Mix(a, target, alpha);
      LerpBetween(a, target, alpha);
      LerpRepeatApproaches(a', target, alpha, n - 1);
    }
  }

  /** The componentwise lerp of a uniform vector toward a uniform vector stays uniform. */
  lemma UniformLerp(s: real, t: real, alpha: real)
    ensures Uniform(s).Lerp(Uniform(t), alpha) == Uniform(Mix(s, t, alpha))
    ensures IsUniform(Uniform(s).Lerp(Uniform(t), alpha))
  {
  }
}
