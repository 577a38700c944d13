/** The scale policy of a collision part: which uniform scale the part's
    bounding sphere is taken to have, given the three axis scale factors of
    its transform (`makeEqualScale` and `getAvgScale`). */
module ScalePolicy {
  import opened Vectors

  /** `CollisionScaleType`. */
  datatype ScaleType = AutoEqualScale | NotUsingScale | AutoScale

  /** The tolerance `makeEqualScale` allows between axis scales. */
  const ScaleTolerance := 0.001

  /** `getAvgScale`: the mean of the three axis scales. */
  function AvgScale(v: Vec3): (r: real)
    ensures Min(v.x, Min(v.y, v.z)) <= r <= Max(v.x, Max(v.y, v.z))
    ensures v == Splat(v.x) ==> r == v.x
  {
    (v.x + v.y + v.z) / 3.0
  }

  /** The three pairwise differences of the axis scales are all near zero. */
  predicate AxesNearlyEqual(s: Vec3)
  {
    IsNearZero(s.x - s.y, ScaleTolerance) &&
    IsNearZero(s.z - s.x, ScaleTolerance) &&
    IsNearZero(s.y - s.z, ScaleTolerance)
  }

  /** Whether `makeEqualScale` rescales the matrix it is given. */
  predicate Rescales(t: ScaleType, s: Vec3)
  {
    t != AutoScale && !AxesNearlyEqual(s)
  }

  /** The value `makeEqualScale` returns for a matrix with axis scales `s`.
      The source's third branch (`throw "whoops"`) is unreachable: the
      three policies are the only values of `ScaleType`. */
  function EqualScale(t: ScaleType, s: Vec3): (r: real)
    ensures t == AutoScale ==> r == 1.0
    ensures t != AutoScale && AxesNearlyEqual(s) ==> r == s.x
    ensures t == NotUsingScale && !AxesNearlyEqual(s) ==> r == 1.0
    ensures t == AutoEqualScale && !AxesNearlyEqual(s) ==> r == AvgScale(s)
  {
    if t == AutoScale then 1.0
    else if AxesNearlyEqual(s) then s.x
    else if t == NotUsingScale then 1.0
    else AvgScale(s)
  }

  /** `makeEqualScale(mtx)`: the scale it returns and the new content of
      `mtx`, which is rescaled to the uniform scale exactly when the policy
      is not `AutoScale` and the axes differ. */
  function MakeEqualScale(nm: Numerics, t: ScaleType, m: Mat4): (r: (real, Mat4))
    ensures r.0 == EqualScale(t, nm.getScaling(m))
    ensures !Rescales(t, nm.getScaling(m)) ==> r.1 == m
    ensures Rescales(t, nm.getScaling(m)) ==> r.1 == nm.equalizeScale(m, r.0)
  {
    var s := nm.getScaling(m);
    var scale := EqualScale(t, s);
    (scale, if Rescales(t, s) then nm.equalizeScale(m, scale) else m)
  }

  /** A uniformly scaled transform keeps its scale under every policy that
      looks at the scale. */
  lemma UniformScaleIsKept(t: ScaleType, k: real)
    requires t != AutoScale
    ensures EqualScale(t, Splat(k)) == k
    ensures !Rescales(t, Splat(k))
  {
    assert AxesNearlyEqual(Splat(k));
  }

  /** Under `AutoEqualScale` the result is always within the tolerance of the
      mean scale: exactly the mean when the axes differ, and the x-scale,
      which then lies within 0.002/3 of the mean, when they nearly agree. */
  lemma AutoEqualScaleNearMean(s: Vec3)
    ensures -ScaleTolerance < EqualScale(AutoEqualScale, s) - AvgScale(s) < ScaleTolerance
  {
    if AxesNearlyEqual(s) {
      assert s.x - AvgScale(s) == ((s.x - s.y) - (s.z - s.x)) / 3.0;
    }
  }

  /** Under `AutoEqualScale` the result never leaves the range of the axis
      scales. */
  lemma AutoEqualScaleBetweenAxes(s: Vec3)
    ensures Min(s.x, Min(s.y, s.z)) <= EqualScale(AutoEqualScale, s) <= Max(s.x, Max(s.y, s.z))
  {
  }

  /** Equalising is a fixed point for every policy that looks at the scale:
      a transform already scaled uniformly by the chosen scale gets the same
      scale back and is not rescaled a second time. */
  lemma EqualScaleIsFixedPoint(t: ScaleType, s: Vec3)
    requires t != AutoScale
    ensures EqualScale(t, Splat(EqualScale(t, s))) == EqualScale(t, s)
    ensures !Rescales(t, Splat(EqualScale(t, s)))
  {
    UniformScaleIsKept(t, EqualScale(t, s));
  }
}
