/**
 * Piecewise smoothstep keyframe interpolation (`interpolate` of the scene's
 * camera system). A table is a sequence of `(t, v)` waypoints; the value at
 * `val` is found by scanning the segments from the first and blending the
 * first segment whose closed interval contains `val`. When no segment
 * contains `val`, the last waypoint's vector is returned (not the nearest
 * endpoint's).
 */
module Keyframes {
  import opened Wrappers
  import opened Vectors

  datatype Keyframe = Keyframe(t: real, v: Vec3)

  /** What `interpolate` needs of its table: an entry to fall back to, and strictly increasing times. */
  predicate WellFormed(kf: seq<Keyframe>)
  {
    |kf| >= 1 && forall i :: 0 <= i < |kf| - 1 ==> kf[i].t < kf[i + 1].t
  }

  /** Segment `i` (from waypoint `i` to waypoint `i + 1`) contains `val`. */
  predicate Brackets(kf: seq<Keyframe>, i: nat, val: real)
    requires i + 1 < |kf|
  {
    kf[i].t <= val <= kf[i + 1].t
  }

  /** The loop of `interpolate` from index `i` on: the first bracketing segment, if any. */
  function SegmentFrom(val: real, kf: seq<Keyframe>, i: nat): (r: Option<nat>)
    ensures r.Some? ==> i <= r.value && r.value + 1 < |kf| && Brackets(kf, r.value, val)
    ensures r.Some? ==> forall j :: i <= j < r.value ==> !Brackets(kf, j, val)
    ensures r.None? ==> forall j :: i <= j && j + 1 < |kf| ==> !Brackets(kf, j, val)
    decreases |kf| - i
  {
    if i + 1 >= |kf| then None
    else if kf[i].t <= val <= kf[i + 1].t then Some(i)
    else SegmentFrom(val, kf, i + 1)
  }

  function Segment(val: real, kf: seq<Keyframe>): Option<nat>
  {
    SegmentFrom(val, kf, 0)
  }

  /** The smoothstep ease `p^2 (3 - 2p)`; it maps [0, 1] onto [0, 1] and fixes both ends. */
  function Ease(p: real): (e: real)
    ensures 0.0 <= p <= 1.0 ==> 0.0 <= e <= 1.0
    ensures p == 0.0 ==> e == 0.0
    ensures p == 1.0 ==> e == 1.0
  {
    EaseBounds(p);
    p * p * (3.0 - 2.0 * p)
  }

  lemma EaseBounds(p: real)
    ensures 0.0 <= p <= 1.0 ==> 0.0 <= p * p * (3.0 - 2.0 * p) <= 1.0
  {
    if 0.0 <= p <= 1.0 {
      var sq, c := p * p, (1.0 - p) * (1.0 - p);
      NonNegProduct(p, p);
      NonNegProduct(sq, 3.0 - 2.0 * p);
      NonNegProduct(1.0 - p, 1.0 - p);
      NonNegProduct(c, 1.0 + 2.0 * p);
      assert 1.0 - sq * (3.0 - 2.0 * p) == c * (1.0 + 2.0 * p);
    }
  }

  /** Local progress through a segment from time `a` to time `b`. */
  function Progress(val: real, a: real, b: real): (p: real)
    requires a < b
    ensures a <= val <= b ==> 0.0 <= p <= 1.0
    ensures val == a ==> p == 0.0
    ensures val == b ==> p == 1.0
  {
    ProgressFacts(val, a, b);
    (val - a) / (b - a)
  }

  lemma ProgressFacts(val: real, a: real, b: real)
    requires a < b
    ensures a <= val <= b ==> 0.0 <= (val - a) / (b - a) <= 1.0
    ensures val == a ==> (val - a) / (b - a) == 0.0
  {
    if a <= val <= b {
      RatioBounds(val - a, b - a);
    }
  }

  /** The blend of segment `i` evaluated at `val`, as `lerpVectors(start.v, end.v, ease)` computes it. */
  function SegmentValue(kf: seq<Keyframe>, i: nat, val: real): Vec3
    requires WellFormed(kf) && i + 1 < |kf|
  {
    kf[i].v.Lerp(kf[i + 1].v, Ease(Progress(val, kf[i].t, kf[i + 1].t)))
  }

  function Last(kf: seq<Keyframe>): Keyframe
    requires |kf| >= 1
  {
    kf[|kf| - 1]
  }

  /** `interpolate(val, keyframes)`. */
  function Interpolate(val: real, kf: seq<Keyframe>): Vec3
    requires WellFormed(kf)
  {
    match Segment(val, kf)
    case Some(i) => SegmentValue(kf, i, val)
    case None => Last(kf).v
  }

  /** Adjacent increase gives increase between any two waypoints. */
  lemma {:induction false} TimesIncreasing(kf: seq<Keyframe>, i: nat, j: nat)
    requires WellFormed(kf) && i < j < |kf|
    ensures kf[i].t < kf[j].t
    decreases j - i
  {
    if i + 1 < j {
      TimesIncreasing(kf, i + 1, j);
    }
  }

  /** Evaluated at a waypoint's own time, `interpolate` returns exactly that waypoint's vector. */
  lemma InterpolateAtWaypoint(kf: seq<Keyframe>, k: nat)
    requires WellFormed(kf) && k < |kf|
    ensures Interpolate(kf[k].t, kf) == kf[k].v
  {
    var val := kf[k].t;
    if k == 0 {
      if |kf| > 1 {
        assert Brackets(kf, 0, val);
        assert Segment(val, kf) == Some(0);
        assert Progress(val, kf[0].t, kf[1].t) == 0.0;
      }
    } else {
      assert Brackets(kf, k - 1, val);
      forall j | 0 <= j < k - 1
        ensures !Brackets(kf, j, val)
      {
        TimesIncreasing(kf, j + 1, k);
      }
      assert Segment(val, kf) == Some(k - 1);
      assert Progress(val, kf[k - 1].t, kf[k].t) == 1.0;
    }
  }

  /**
   * Inside the table's time range a bracketing segment always exists, and the
   * result lies between that segment's two waypoints in every coordinate (the
   * ease never overshoots). A one-entry table has no segment and returns its entry.
   */
  lemma InterpolateNoOvershoot(kf: seq<Keyframe>, val: real)
    requires WellFormed(kf) && kf[0].t <= val <= Last(kf).t
    ensures |kf| == 1 ==> Interpolate(val, kf) == kf[0].v
    ensures |kf| > 1 ==> Segment(val, kf).Some?
    ensures Segment(val, kf).Some? ==>
      var i := Segment(val, kf).value;
      BetweenVec(Interpolate(val, kf), kf[i].v, kf[i + 1].v)
  {
    if |kf| > 1 {
      SegmentCovers(kf, val, 0);
      var i := Segment(val, kf).value;
      var e := Ease(Progress(val, kf[i].t, kf[i + 1].t));
      LerpBetween(kf[i].v.x, kf[i + 1].v.x, e);
      LerpBetween(kf[i].v.y, kf[i + 1].v.y, e);
      LerpBetween(kf[i].v.z, kf[i + 1].v.z, e);
    }
  }

  /** Scanning from segment `i`, whose start is at or before `val`, finds a segment when `val` is within range. */
  lemma {:induction false} SegmentCovers(kf: seq<Keyframe>, val: real, i: nat)
    requires WellFormed(kf) && i + 1 < |kf| && kf[i].t <= val <= Last(kf).t
    ensures SegmentFrom(val, kf, i).Some?
    decreases |kf| - i
  {
    if !(val <= kf[i + 1].t) && i + 2 < |kf| {
      SegmentCovers(kf, val, i + 1);
    }
  }

  /** Outside the table's time range, on either side, `interpolate` returns the last waypoint's vector. */
  lemma InterpolateOutOfRange(kf: seq<Keyframe>, val: real)
    requires WellFormed(kf) && (val < kf[0].t || val > Last(kf).t)
    ensures Segment(val, kf).None?
    ensures Interpolate(val, kf) == Last(kf).v
  {
    if Segment(val, kf).Some? {
      var i := Segment(val, kf).value;
      if val < kf[0].t {
        if i > 0 { TimesIncreasing(kf, 0, i); }
      } else {
        if i + 1 < |kf| - 1 { TimesIncreasing(kf, i + 1, |kf| - 1); }
      }
    }
  }

  /** At an interior waypoint the two segments that meet there agree, so the curve has no jump. */
  lemma InterpolateContinuous(kf: seq<Keyframe>, k: nat)
    requires WellFormed(kf) && 0 < k < |kf| - 1
    ensures SegmentValue(kf, k - 1, kf[k].t) == kf[k].v
    ensures SegmentValue(kf, k, kf[k].t) == kf[k].v
  {
  }
}
