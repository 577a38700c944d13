/** Collision zones: the parts registered under one zone id, and the
    bounding volume a zone keeps so that line queries can skip it whole. */
module Zones {
  import opened Vectors
  import opened Parts

  /** The bounding volume of a zone. Zones with an id above 0 have a centre,
      a radius and a box; the global zone 0 has none and is never pruned. */
  datatype Volume = Unbounded | Bounded(center: Vec3, radius: real, box: Box)

  /** `isInRange`: `v` lies between the two bounds, whichever is smaller. */
  function IsInRange(v: real, v0: real, v1: real): (r: bool)
    ensures r <==> (v0 <= v <= v1 || v1 <= v <= v0)
  {
    var lo := Min(v0, v1);
    var hi := Max(v0, v1);
    v >= lo && v <= hi
  }

  /** The two opposite corners of a part's bounding cube. */
  function HighCorner(c: Vec3, r: real): Vec3 { Add(c, Splat(r)) }

  function LowCorner(c: Vec3, r: real): Vec3 { Sub(c, Splat(r)) }

  /** The box after `calcMinMaxAddParts` has added the cube of centre `c` and
      half-width `r`, and whether either of its two `unionPoint` calls moved
      a bound. */
  function AddCorners(b: Box, c: Vec3, r: real): (res: (Box, bool))
    ensures Contains(res.0, HighCorner(c, r)) && Contains(res.0, LowCorner(c, r))
    ensures forall q :: Contains(b, q) ==> Contains(res.0, q)
    ensures res.1 <==> !(Contains(b, HighCorner(c, r)) && Contains(b, LowCorner(c, r)))
    ensures !res.1 ==> res.0 == b
  {
    var u1 := UnionPoint(b, HighCorner(c, r));
    var u2 := UnionPoint(u1.0, LowCorner(c, r));
    (u2.0, u1.1 || u2.1)
  }

  /** The box `calcMinMaxAndRadius` builds: the reset box grown by each
      part's cube in turn. It holds every part's cube, and it is the empty
      box exactly when there are no parts. */
  function PartsBox(nm: Numerics, ps: seq<CollisionParts>): (b: Box)
    reads ps
    ensures forall p :: p in ps ==>
      Contains(b, HighCorner(p.Translation(nm), p.boundingSphereRadius)) &&
      Contains(b, LowCorner(p.Translation(nm), p.boundingSphereRadius))
    ensures b == Empty <==> |ps| == 0
    decreases |ps|
  {
    if |ps| == 0 then Empty
    else
      var last := ps[|ps| - 1];
      AddCorners(PartsBox(nm, ps[..|ps| - 1]), last.Translation(nm), last.boundingSphereRadius).0
  }

  /** Growing the box over one more part of a list. */
  lemma PartsBoxStep(nm: Numerics, ps: seq<CollisionParts>, i: nat)
    requires i < |ps|
    ensures PartsBox(nm, ps[..i + 1]) == AddCorners(PartsBox(nm, ps[..i]), ps[i].Translation(nm), ps[i].boundingSphereRadius).0
  {
    assert ps[..i + 1][..i] == ps[..i];
  }

  /** `calcCenterAndRadius` applied to a box. */
  function VolumeOf(nm: Numerics, b: Box): Volume
  {
    Bounded(nm.centerPoint(b), nm.diagonalLength(b), b)
  }

  /** The volume `addParts` leaves: the box grows by the new part's cube,
      and the centre and radius are recomputed only when the box changed. */
  function AddedVolume(nm: Numerics, v: Volume, c: Vec3, r: real): (res: Volume)
    ensures res.Bounded? == v.Bounded?
    ensures res.Bounded? ==>
      Contains(res.box, HighCorner(c, r)) && Contains(res.box, LowCorner(c, r)) &&
      (forall q :: Contains(v.box, q) ==> Contains(res.box, q))
    ensures v.Bounded? && Contains(v.box, HighCorner(c, r)) && Contains(v.box, LowCorner(c, r)) ==> res == v
  {
    match v
    case Unbounded => Unbounded
    case Bounded(_, _, box) =>
      var added := AddCorners(box, c, r);
      if added.1 then VolumeOf(nm, added.0) else v
  }

  /** The cheap test of `calcMinMaxAndRadiusIfMoveOuter`: on every axis the
      part's position lies between the box's minimum plus the radius and its
      maximum minus the radius. The reset box has infinite bounds, for which
      the test always passes. */
  predicate StillInside(b: Box, t: Vec3, r: real)
  {
    match b
    case Empty => true
    case Bounds(lo, hi) =>
      IsInRange(t.x, lo.x + r, hi.x - r) && IsInRange(t.y, lo.y + r, hi.y - r) && IsInRange(t.z, lo.z + r, hi.z - r)
  }

  /** When the radius is not negative and the box is at least `2 r` wide on
      every axis, the cheap test passes exactly when the part's cube lies in
      the box. */
  lemma StillInsideIffCubeInside(b: Box, t: Vec3, r: real)
    requires b.Bounds? && r >= 0.0
    requires b.lo.x + r <= b.hi.x - r && b.lo.y + r <= b.hi.y - r && b.lo.z + r <= b.hi.z - r
    ensures StillInside(b, t, r) <==> Contains(b, HighCorner(t, r)) && Contains(b, LowCorner(t, r))
  {
  }

  /** A witness, for one concrete box narrower than the cube: the test
      passes although the cube sticks out of the box. */
  lemma NarrowBoxPassesTest()
    ensures var b := Bounds(Zero, Vec3(1.0, 1.0, 1.0));
      var t := Vec3(0.5, 0.5, 0.5);
      StillInside(b, t, 1.0) && !Contains(b, HighCorner(t, 1.0))
  {
  }

  /** The first position of `x` in `s`. */
  function FirstIndex<T(==)>(s: seq<T>, x: T): (i: nat)
    requires x in s
    ensures i < |s| && s[i] == x && x !in s[..i]
  {
    if s[0] == x then 0
    else
      assert s[1..][..FirstIndex(s[1..], x)] == s[1..FirstIndex(s[1..], x) + 1];
      FirstIndex(s[1..], x) + 1
  }

  /** `arrayRemoveIfExist`: drop the first occurrence of `x`, if any. */
  function RemoveFirst<T(==)>(s: seq<T>, x: T): (r: seq<T>)
    ensures x !in s ==> r == s
    ensures x in s ==> r == s[..FirstIndex(s, x)] + s[FirstIndex(s, x) + 1..]
    ensures multiset(r) == multiset(s) - multiset{x}
  {
    if x in s then
      var i := FirstIndex(s, x);
      assert s == s[..i] + [x] + s[i + 1..];
      s[..i] + s[i + 1..]
    else s
  }

  /** The first occurrence is the one with no occurrence before it. */
  lemma FirstIndexIs<T>(t: seq<T>, x: T, j: nat)
    requires j < |t| && t[j] == x && x !in t[..j]
    ensures FirstIndex(t, x) == j
  {
    var k := FirstIndex(t, x);
    assert t[..j] <= t && t[..k] <= t;
  }

  /** Removing what was just appended restores the list when the element
      was not in it before; otherwise the earlier occurrence goes and the
      element moves to the end. */
  lemma RemoveAppended<T>(s: seq<T>, x: T)
    ensures RemoveFirst(s + [x], x) == if x in s then RemoveFirst(s, x) + [x] else s
  {
    var t := s + [x];
    if x in s {
      var i := FirstIndex(s, x);
      assert t[..i] == s[..i];
      FirstIndexIs(t, x, i);
      assert t[i + 1..] == s[i + 1..] + [x];
    } else {
      assert t[..|s|] == s;
      FirstIndexIs(t, x, |s|);
    }
  }

  /** The loop of `calcMinMaxAndRadius`: reset the box, then add each
      part's cube (`calcMinMaxAddParts`) in list order. */
  method BuildPartsBox(nm: Numerics, ps: seq<CollisionParts>) returns (box: Box)
    ensures box == PartsBox(nm, ps)
  {
    box := Empty;
    for i := 0 to |ps|
      invariant box == PartsBox(nm, ps[..i])
    {
      PartsBoxStep(nm, ps, i);
      box := AddCorners(box, ps[i].Translation(nm), ps[i].boundingSphereRadius).0;
    }
    assert ps[..|ps|] == ps;
  }

  /** `CollisionZone`. */
  class CollisionZone {
    const zoneId: nat
    var volume: Volume
    var parts: seq<CollisionParts>

    /** A zone with an id above 0 starts with centre 0, radius -1 and the
        reset box; the global zone 0 has no volume. */
    constructor(zoneId: nat)
      ensures this.zoneId == zoneId && parts == []
      ensures volume == if zoneId > 0 then Bounded(Zero, -1.0, Empty) else Unbounded
    {
      this.zoneId := zoneId;
      parts := [];
      volume := if zoneId > 0 then Bounded(Zero, -1.0, Empty) else Unbounded;
    }

    /** `addParts`: append the part, then grow the box by its cube. */
    method AddParts(nm: Numerics, p: CollisionParts)
      modifies this`parts, this`volume
      ensures parts == old(parts) + [p]
      ensures volume == AddedVolume(nm, old(volume), p.Translation(nm), p.boundingSphereRadius)
    {
      parts := parts + [p];
      if volume.Bounded? {
        var added := AddCorners(volume.box, p.Translation(nm), p.boundingSphereRadius);
        volume := volume.(box := added.0);
        if added.1 {
          volume := VolumeOf(nm, volume.box);
        }
      }
    }

    /** `eraseParts`. */
    method EraseParts(p: CollisionParts)
      modifies this`parts
      ensures parts == RemoveFirst(old(parts), p)
    {
      parts := RemoveFirst(parts, p);
    }

    /** `calcMinMaxAndRadius`: rebuild the box from all parts, then the
        centre and radius. A zone without a volume is left alone. */
    method CalcMinMaxAndRadius(nm: Numerics)
      modifies this`volume
      ensures old(volume).Unbounded? ==> volume == old(volume)
      ensures old(volume).Bounded? ==> volume == VolumeOf(nm, PartsBox(nm, parts))
    {
      if volume.Unbounded? {
        return;
      }
      var box := BuildPartsBox(nm, parts);
      volume := VolumeOf(nm, box);
    }

    /** `calcMinMaxAndRadiusIfMoveOuter`: rebuild the volume when the part's
        position fails the cheap test against the current box. */
    method CalcMinMaxAndRadiusIfMoveOuter(nm: Numerics, p: CollisionParts)
      modifies this`volume
      ensures old(volume).Unbounded? || StillInside(old(volume).box, p.Translation(nm), p.boundingSphereRadius) ==>
        volume == old(volume)
      ensures old(volume).Bounded? && !StillInside(old(volume).box, p.Translation(nm), p.boundingSphereRadius) ==>
        volume == VolumeOf(nm, PartsBox(nm, parts))
    {
      if volume.Unbounded? {
        return;
      }
      if !StillInside(volume.box, p.Translation(nm), p.boundingSphereRadius) {
        CalcMinMaxAndRadius(nm);
      }
    }
  }
}
