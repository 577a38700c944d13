/** `checkHitSegmentSphere`: does the segment from `p0` to `p0 + dir` meet
    the ball around `center` with radius `radius`? The boolean is computed
    from exact comparisons, which the model states over the reals. The unit
    direction the routine can also write into `dstDirection` is a normalised
    floating-point vector and is not modelled. */
module SegmentSphere {
  import opened Vectors

  /** The boolean result of `checkHitSegmentSphere(null, p0, dir, center, radius)`.
      Three cases, by where the centre projects onto the line of the segment:
      inside the segment (compare the distance from the projected point, `<=`),
      beyond the far end (compare the distance from the far end, strictly),
      behind the start (compare the distance from the start, strictly). With
      `dir` the zero vector the source divides 0 by 0; the NaN makes the
      projected point NaN and its comparison false, so the result is false. */
  function CheckHitSegmentSphere(p0: Vec3, dir: Vec3, center: Vec3, radius: real): bool
  {
    var c := Sub(center, p0);
    var dot := Dot(c, dir);
    var sqRadius := radius * radius;
    if dot >= 0.0 then
      var sqSegLength := SqLength(dir);
      if sqSegLength >= dot then
        if sqSegLength == 0.0 then false
        else SqDistance(Scale(dir, dot / sqSegLength), c) <= sqRadius
      else
        SqDistance(dir, c) < sqRadius
    else
      SqLength(c) < sqRadius
  }

  /** Some point of the closed segment lies in the closed ball. */
  ghost predicate TouchesClosedBall(p0: Vec3, dir: Vec3, center: Vec3, radius: real)
  {
    exists t :: 0.0 <= t <= 1.0 && SqDistance(PointAt(p0, dir, t), center) <= radius * radius
  }

  /** Some point of the closed segment lies in the open ball. */
  ghost predicate EntersOpenBall(p0: Vec3, dir: Vec3, center: Vec3, radius: real)
  {
    exists t :: 0.0 <= t <= 1.0 && SqDistance(PointAt(p0, dir, t), center) < radius * radius
  }

  /** Soundness: a reported hit is a real contact between the segment and the
      closed ball; the witness is the point each branch tests. */
  lemma HitIsContact(p0: Vec3, dir: Vec3, center: Vec3, radius: real)
    requires CheckHitSegmentSphere(p0, dir, center, radius)
    ensures TouchesClosedBall(p0, dir, center, radius)
  {
    var c := Sub(center, p0);
    var dot := Dot(c, dir);
    var len := SqLength(dir);
    var t: real;
    if dot >= 0.0 && len >= dot {
      t := dot / len;
      DivisionBounds(dot, len);
    } else if dot >= 0.0 {
      t := 1.0;
      assert Scale(dir, t) == dir;
    } else {
      t := 0.0;
      Expand(dir, c, t);
    }
    ShiftToStart(p0, dir, center, t);
    assert 0.0 <= t <= 1.0 && SqDistance(PointAt(p0, dir, t), center) <= radius * radius;
  }

  /** Completeness for the open ball: when the segment has a point strictly
      inside the ball and a non-zero direction, a hit is reported. Points on
      the sphere itself can be missed (see FarEndTangentIsMissed). */
  lemma OpenContactIsHit(p0: Vec3, dir: Vec3, center: Vec3, radius: real)
    requires dir != Zero
    requires EntersOpenBall(p0, dir, center, radius)
    ensures CheckHitSegmentSphere(p0, dir, center, radius)
  {
    var t :| 0.0 <= t <= 1.0 && SqDistance(PointAt(p0, dir, t), center) < radius * radius;
    var c := Sub(center, p0);
    var dot := Dot(c, dir);
    var len := SqLength(dir);
    SqLengthPositive(dir);
    ShiftToStart(p0, dir, center, t);
    Expand(dir, c, t);
    if dot >= 0.0 && len >= dot {
      var s := dot / len;
      Expand(dir, c, s);
      ProjectionIsNearest(len, dot, s, t);
      assert SqDistance(Scale(dir, s), c) <= SqDistance(Scale(dir, t), c);
      assert SqDistance(Scale(dir, s), c) < radius * radius;
    } else if dot >= 0.0 {
      Expand(dir, c, 1.0);
      assert Scale(dir, 1.0) == dir;
      FarEndIsNearest(len, dot, t);
    } else {
      Expand(dir, c, 0.0);
      StartIsNearest(len, dot, t);
    }
  }

  /** With a zero direction the source's 0/0 yields NaN and the test is
      false, even when `p0` is the centre of the ball. */
  lemma ZeroDirectionNeverHits(p0: Vec3, center: Vec3, radius: real)
    ensures !CheckHitSegmentSphere(p0, Zero, center, radius)
  {
  }

  /** The far-end branch compares strictly: when the centre projects beyond
      the far end and the far end lies on the sphere, the segment touches the
      closed ball but no hit is reported. */
  lemma FarEndTangentIsMissed(p0: Vec3, dir: Vec3, center: Vec3, radius: real)
    requires Dot(Sub(center, p0), dir) > SqLength(dir)
    requires SqDistance(PointAt(p0, dir, 1.0), center) == radius * radius
    ensures TouchesClosedBall(p0, dir, center, radius)
    ensures !CheckHitSegmentSphere(p0, dir, center, radius)
  {
    ShiftToStart(p0, dir, center, 1.0);
    assert Scale(dir, 1.0) == dir;
    SqLengthNonNegative(dir);
  }

  /** Likewise behind the start: when the centre projects before `p0` and
      `p0` lies on the sphere, no hit is reported. */
  lemma StartTangentIsMissed(p0: Vec3, dir: Vec3, center: Vec3, radius: real)
    requires Dot(Sub(center, p0), dir) < 0.0
    requires SqDistance(p0, center) == radius * radius
    ensures TouchesClosedBall(p0, dir, center, radius)
    ensures !CheckHitSegmentSphere(p0, dir, center, radius)
  {
    ShiftToStart(p0, dir, center, 0.0);
    Expand(dir, Sub(center, p0), 0.0);
    assert PointAt(p0, dir, 0.0) == p0;
    assert SqDistance(p0, center) == SqLength(Sub(center, p0));
  }

  // ---- arithmetic helpers ----

  lemma DivisionBounds(d: real, l: real)
    requires 0.0 <= d <= l && l != 0.0
    ensures 0.0 <= d / l <= 1.0
    ensures d / l * l == d
  {
  }

  /** Measuring from `p0` or from the origin of the segment gives the same
      squared distance. */
  lemma ShiftToStart(p0: Vec3, dir: Vec3, center: Vec3, t: real)
    ensures SqDistance(PointAt(p0, dir, t), center) == SqDistance(Scale(dir, t), Sub(center, p0))
  {
  }

  /** The squared distance from `t * d` to `c` as a quadratic in `t`. */
  lemma Expand(d: Vec3, c: Vec3, t: real)
    ensures SqDistance(Scale(d, t), c) == Quad(SqLength(d), Dot(c, d), t) + SqLength(c)
  {
  }

  /** The part of the squared distance from `t * d` to `c` that depends on `t`. */
  function Quad(len: real, dot: real, t: real): real
  {
    t * t * len - 2.0 * t * dot
  }

  lemma ProjectionIsNearest(len: real, dot: real, s: real, t: real)
    requires len > 0.0 && s == dot / len
    ensures Quad(len, dot, t) >= Quad(len, dot, s)
  {
    assert dot == s * len;
    assert t * t * len - 2.0 * t * dot - (s * s * len - 2.0 * s * dot) == Mul(len, Mul(t - s, t - s));
    SquareNonNegative(t - s);
    ProductNonNegative(len, Mul(t - s, t - s));
  }

  lemma FarEndIsNearest(len: real, dot: real, t: real)
    requires 0.0 <= len < dot && 0.0 <= t <= 1.0
    ensures Quad(len, dot, t) >= Quad(len, dot, 1.0)
  {
    assert t * t * len - 2.0 * t * dot - (len - 2.0 * dot) == Mul(1.0 - t, 2.0 * dot - (1.0 + t) * len);
    assert (1.0 + t) * len <= 2.0 * len by {
      ProductNonNegative(1.0 - t, len);
      assert Mul(1.0 - t, len) == len - t * len;
    }
    ProductNonNegative(1.0 - t, 2.0 * dot - (1.0 + t) * len);
  }

  lemma StartIsNearest(len: real, dot: real, t: real)
    requires 0.0 <= len && dot < 0.0 && 0.0 <= t
    ensures Quad(len, dot, t) >= Quad(len, dot, 0.0)
  {
    ProductNonNegative(t, len);
    assert Mul(t, len) == t * len;
    ProductNonNegative(t, t * len - 2.0 * dot);
    assert Mul(t, t * len - 2.0 * dot) == t * t * len - 2.0 * t * dot;
  }
}
