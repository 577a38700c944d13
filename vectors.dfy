/** Three-vectors over the reals, the axis-aligned box the collision code
    builds out of them, and the floating-point matrix and box routines the
    collision code calls but does not define (gl-matrix and the AABB class),
    bundled as a record of functions that every caller receives as a
    parameter. */
module Vectors {

  datatype Option<T> = None | Some(value: T)

  datatype Vec3 = Vec3(x: real, y: real, z: real)

  const Zero := Vec3(0.0, 0.0, 0.0)

  function Add(a: Vec3, b: Vec3): Vec3 { Vec3(a.x + b.x, a.y + b.y, a.z + b.z) }

  function Sub(a: Vec3, b: Vec3): Vec3 { Vec3(a.x - b.x, a.y - b.y, a.z - b.z) }

  function Scale(a: Vec3, s: real): Vec3 { Vec3(a.x * s, a.y * s, a.z * s) }

  /** The vector with all three components equal to `s`. */
  function Splat(s: real): Vec3 { Vec3(s, s, s) }

  function Dot(a: Vec3, b: Vec3): real { a.x * b.x + a.y * b.y + a.z * b.z }

  function SqLength(a: Vec3): real { Dot(a, a) }

  function SqDistance(a: Vec3, b: Vec3): real { SqLength(Sub(a, b)) }

  /** The point `p0 + t * dir` of the segment that starts at `p0`. */
  function PointAt(p0: Vec3, dir: Vec3, t: real): Vec3 { Add(p0, Scale(dir, t)) }

  lemma SqLengthNonNegative(a: Vec3)
    ensures SqLength(a) >= 0.0
  {
    SquareNonNegative(a.x);
    SquareNonNegative(a.y);
    SquareNonNegative(a.z);
  }

  /** Only the zero vector has squared length zero. */
  lemma SqLengthPositive(a: Vec3)
    requires a != Zero
    ensures SqLength(a) > 0.0
  {
    assert SqLength(a) == Mul(a.x, a.x) + Mul(a.y, a.y) + Mul(a.z, a.z);
    SquareNonNegative(a.x);
    SquareNonNegative(a.y);
    SquareNonNegative(a.z);
    if a.x != 0.0 {
      SquarePositive(a.x);
    } else if a.y != 0.0 {
      SquarePositive(a.y);
    } else {
      SquarePositive(a.z);
    }
  }

  /** A product kept behind a function name, so that facts about squares
      reach the solver as stated. */
  function Mul(a: real, b: real): real { a * b }

  lemma ProductPositive(a: real, b: real)
    requires a > 0.0 && b > 0.0
    ensures Mul(a, b) > 0.0
  {
  }

  lemma ProductNonNegative(a: real, b: real)
    requires a >= 0.0 && b >= 0.0
    ensures Mul(a, b) >= 0.0
  {
  }

  lemma SquarePositive(v: real)
    requires v != 0.0
    ensures Mul(v, v) > 0.0
  {
    if v > 0.0 {
      ProductPositive(v, v);
    } else {
      ProductPositive(-v, -v);
      assert Mul(-v, -v) == Mul(v, v);
    }
  }

  lemma SquareNonNegative(v: real)
    ensures Mul(v, v) >= 0.0
  {
    if v >= 0.0 {
      ProductNonNegative(v, v);
    } else {
      ProductNonNegative(-v, -v);
      assert Mul(-v, -v) == Mul(v, v);
    }
  }

  /** `isNearZero(v, eps)` of the math helpers: `v` lies strictly inside
      `(-eps, eps)`. */
  predicate IsNearZero(v: real, eps: real)
  {
    -eps < v < eps
  }

  /** A 4x4 transform. Its entries are only ever handled by the foreign
      matrix routines in `Numerics`; the collision code itself only copies
      and compares matrices. */
  datatype Mat4 = Mat4(entries: seq<real>)

  /** `mat4.create()`: the identity. */
  const Identity := Mat4([1.0, 0.0, 0.0, 0.0, 0.0, 1.0, 0.0, 0.0, 0.0, 0.0, 1.0, 0.0, 0.0, 0.0, 0.0, 1.0])

  /** The axis-aligned box of the AABB class: `Empty` is the box that
      `reset()` (and the constructor) leaves, with every minimum at +Infinity
      and every maximum at -Infinity; `Bounds` is a box with finite corners. */
  datatype Box = Empty | Bounds(lo: Vec3, hi: Vec3)

  predicate Contains(b: Box, p: Vec3)
  {
    b.Bounds? &&
    b.lo.x <= p.x <= b.hi.x && b.lo.y <= p.y <= b.hi.y && b.lo.z <= p.z <= b.hi.z
  }

  function Min(a: real, b: real): real { if a <= b then a else b }

  function Max(a: real, b: real): real { if a <= b then b else a }

  /** `AABB.unionPoint`: grow the box to hold `p`; the flag says whether any
      of the six bounds moved (each bound is compared strictly). */
  function UnionPoint(b: Box, p: Vec3): (r: (Box, bool))
    ensures Contains(r.0, p)
    ensures forall q :: Contains(b, q) ==> Contains(r.0, q)
    ensures r.1 <==> r.0 != b
    ensures r.1 <==> !Contains(b, p)
  {
    match b
    case Empty => (Bounds(p, p), true)
    case Bounds(lo, hi) =>
      var changed :=
        p.x < lo.x || p.y < lo.y || p.z < lo.z || p.x > hi.x || p.y > hi.y || p.z > hi.z;
      (Bounds(Vec3(Min(lo.x, p.x), Min(lo.y, p.y), Min(lo.z, p.z)),
              Vec3(Max(hi.x, p.x), Max(hi.y, p.y), Max(hi.z, p.z))),
       changed)
  }

  /** The matrix and box routines the collision code borrows from elsewhere.
      They compute in floating point and their bodies are not part of this
      model, so every operation that needs them receives them as a value.
      - equals: `mat4.equals` (an approximate comparison);
      - invert: `mat4.invert`, `None` when the matrix is singular, in which
        case the destination matrix is left as it was;
      - getScaling: `mat4.getScaling`, the three axis scale factors;
      - equalizeScale: the rescale `mat4.scale(m, m, [s/sx, s/sy, s/sz])`
        that gives every axis of `m` the scale `s`;
      - transformPoint / transformDir: `transformVec3Mat4w1` / `w0`;
      - translation: `getMatrixTranslation`;
      - containsSphere: `AABB.containsSphere`;
      - centerPoint: `AABB.centerPoint`;
      - diagonalLength: the square root of `AABB.diagonalLengthSquared`. */
  datatype Numerics = Numerics(
    equals: (Mat4, Mat4) -> bool,
    invert: Mat4 -> Option<Mat4>,
    getScaling: Mat4 -> Vec3,
    equalizeScale: (Mat4, real) -> Mat4,
    transformPoint: (Mat4, Vec3) -> Vec3,
    transformDir: (Mat4, Vec3) -> Vec3,
    translation: Mat4 -> Vec3,
    containsSphere: (Box, Vec3, real) -> bool,
    centerPoint: Box -> Vec3,
    diagonalLength: Box -> real)

  /** `mat4.invert(dst, m)`: the new content of `dst`. */
  function InvertInto(nm: Numerics, m: Mat4, dst: Mat4): Mat4
  {
    match nm.invert(m)
    case Some(inv) => inv
    case None => dst
  }
}
