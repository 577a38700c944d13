/** `calcMapGround` as written. The routine stores its downward direction in
    the module's scratch vector `scratchVec3c` and hands that vector to the
    map keeper's line query as `dir`. `checkHitSegmentSphere` uses the same
    scratch vector for `center - p0` and writes it before it reads `dir`, so
    the first sphere test of the query overwrites the direction. From then
    on every sphere test is run with `dir == center - p0`, and every part's
    arrow is cast with the `center - p0` its own sphere test just left there.
    This module models that query, shows that it differs from the
    straight-down probe, and shows that its sphere tests ignore the radius. The rest of
    the model keeps the straight-down probe (`Queries.CalcMapGround`). */
module MapGround {
  import opened Vectors
  import opened SegmentSphere
  import opened Parts
  import opened Zones
  import opened LineQuery
  import opened Queries

  /** The direction `calcMapGround` asks for: straight down by `height`. */
  function Down(height: real): Vec3
  {
    Vec3(0.0, -height, 0.0)
  }

  /** The ground query the routine evidently intends: the map keeper's
      query along `Down(height)`, without filters, as `Queries.CalcMapGround`
      states it. */
  function IntendedGround(nm: Numerics, zvs: seq<ZoneView>, slots: seq<HitInfo>, p0: Vec3, height: real): FirstPoly
  {
    var down := Down(height);
    var k := Collect(nm, p0, down, None, slots, SelectZones(nm, QueryBox(p0, down), p0, down, None, zvs));
    CollectedHitsAreSelected(nm, p0, down, None, slots, SelectZones(nm, QueryBox(p0, down), p0, down, None, zvs));
    PolyOutcome(k, None)
  }

  /** The sphere test as the routine runs it: the direction it reads is the
      scratch vector it has just set to `center - p0`. */
  predicate ClobberedSphereTest(p0: Vec3, center: Vec3, radius: real)
  {
    CheckHitSegmentSphere(p0, Sub(center, p0), center, radius)
  }

  /** The overwritten test passes exactly when the centre is not the start
      point, whatever the radius: the projection is the centre itself. */
  lemma ClobberedSphereTestIff(p0: Vec3, center: Vec3, radius: real)
    ensures ClobberedSphereTest(p0, center, radius) <==> center != p0
  {
    var d := Sub(center, p0);
    if center == p0 {
      assert d == Zero;
      ZeroDirectionNeverHits(p0, center, radius);
    } else {
      assert d != Zero by {
        assert center == Add(d, p0);
      }
      ProjectionOntoItself(p0, center, radius);
    }
  }

  /** A non-zero direction that ends at the centre projects the centre onto
      itself, at distance 0. */
  lemma ProjectionOntoItself(p0: Vec3, center: Vec3, radius: real)
    requires Sub(center, p0) != Zero
    ensures CheckHitSegmentSphere(p0, Sub(center, p0), center, radius)
  {
    var d := Sub(center, p0);
    var len := SqLength(d);
    SqLengthPositive(d);
    assert Dot(d, d) == len;
    assert len / len == 1.0;
    assert Scale(d, len / len) == d;
    assert SqDistance(d, d) == 0.0 by {
      assert Sub(d, d) == Zero;
    }
    SquareNonNegative(radius);
  }

  /** The zone-level prune as written: the box test, then the overwritten
      sphere test. */
  predicate ZonePassesAsWritten(nm: Numerics, box: Box, p0: Vec3, v: Volume)
  {
    match v
    case Unbounded => true
    case Bounded(c, r, _) => nm.containsSphere(box, c, r) && ClobberedSphereTest(p0, c, r)
  }

  /** The part-level prune as written; the routine passes no parts filter. */
  predicate PartPassesAsWritten(nm: Numerics, box: Box, p0: Vec3, v: PartView)
  {
    && v.validated
    && nm.containsSphere(box, ViewTranslation(nm, v), v.radius)
    && ClobberedSphereTest(p0, ViewTranslation(nm, v), v.radius)
  }

  /** The parts of one zone that pass as written, in order. */
  function SelectPartsAsWritten(nm: Numerics, box: Box, p0: Vec3, vs: seq<PartView>): seq<PartView>
    decreases |vs|
  {
    if |vs| == 0 then []
    else
      var init := SelectPartsAsWritten(nm, box, p0, vs[..|vs| - 1]);
      var v := vs[|vs| - 1];
      if PartPassesAsWritten(nm, box, p0, v) then init + [v] else init
  }

  /** The parts the query as written visits, zone after zone. */
  function SelectZonesAsWritten(nm: Numerics, box: Box, p0: Vec3, zvs: seq<ZoneView>): seq<PartView>
    decreases |zvs|
  {
    if |zvs| == 0 then []
    else
      var init := SelectZonesAsWritten(nm, box, p0, zvs[..|zvs| - 1]);
      match zvs[|zvs| - 1]
      case Hole => init
      case ZoneView(volume, views) =>
        if ZonePassesAsWritten(nm, box, p0, volume) then init + SelectPartsAsWritten(nm, box, p0, views) else init
  }

  /** The visited parts' turns as written: each part casts its arrow along
      `center - p0`, its own centre as seen from the start point. Without a
      fault the count stays within the buffer. */
  function CollectAsWritten(nm: Numerics, p0: Vec3, slots: seq<HitInfo>, sel: seq<PartView>): (r: Collected)
    ensures |r.slots| == |slots|
    ensures !r.faulted ==> r.count <= |slots|
    decreases |sel|
  {
    if |sel| == 0 then Collected(slots, 0, false)
    else
      var k0 := CollectAsWritten(nm, p0, slots, sel[..|sel| - 1]);
      var v := sel[|sel| - 1];
      var dir := Sub(ViewTranslation(nm, v), p0);
      if Stopped(k0) then k0
      else
        CollectStepHits(nm, p0, dir, None, k0, v);
        CollectStep(nm, p0, dir, None, k0, v)
  }

  /** `calcMapGround` as written: the query box is the straight-down
      segment's, built before any sphere test, and everything after it uses
      the overwritten direction. */
  function GroundAsWritten(nm: Numerics, zvs: seq<ZoneView>, slots: seq<HitInfo>, p0: Vec3, height: real): FirstPoly
  {
    var box := QueryBox(p0, Down(height));
    PolyOutcome(CollectAsWritten(nm, p0, slots, SelectZonesAsWritten(nm, box, p0, zvs)), None)
  }

  /** As written the part-level sphere test no longer prunes: a zone's
      parts are selected exactly when they are validated, pass the box test
      and are not centred at the start point, whatever their radius. */
  lemma {:induction false} SelectPartsAsWrittenIgnoresRadius(nm: Numerics, box: Box, p0: Vec3, vs: seq<PartView>)
    ensures forall v :: v in SelectPartsAsWritten(nm, box, p0, vs) <==>
      v in vs && v.validated && nm.containsSphere(box, ViewTranslation(nm, v), v.radius) && ViewTranslation(nm, v) != p0
    decreases |vs|
  {
    if |vs| > 0 {
      var n := |vs| - 1;
      SelectPartsAsWrittenIgnoresRadius(nm, box, p0, vs[..n]);
      assert vs == vs[..n] + [vs[n]];
      forall v | v in vs
        ensures PartPassesAsWritten(nm, box, p0, v) <==>
          v.validated && nm.containsSphere(box, ViewTranslation(nm, v), v.radius) && ViewTranslation(nm, v) != p0
      {
        ClobberedSphereTestIff(p0, ViewTranslation(nm, v), v.radius);
      }
    }
  }

  /** A ground probe of length 10 over one validated part in the global
      zone, centred 5 below the start with radius 3, whose mesh has a floor
      7 below the start: the arrow reports it only when it reaches that far.
      Transforms are identities and the box test passes. */
  ghost predicate FloorScene(nm: Numerics, v: PartView, slots: seq<HitInfo>, p0: Vec3)
  {
    && |slots| == 32
    && v.validated && v.radius == 3.0
    && nm.translation(v.world) == Vec3(p0.x, p0.y - 5.0, p0.z)
    && (forall b, c, r :: nm.containsSphere(b, c, r))
    && (forall d :: nm.transformDir(v.invWorld, d) == d)
    && (forall n, q, d :: v.parts.server.checkArrow(n, q, d) == if d.y <= -7.0 then [Candidate(0, 0.7)] else [])
  }

  /** In the floor scene the straight-down probe selects the part, casts
      (0, -10, 0) and finds the floor. */
  lemma StraightDownFindsFloor(nm: Numerics, v: PartView, slots: seq<HitInfo>, p0: Vec3)
    requires FloorScene(nm, v, slots, p0)
    ensures IntendedGround(nm, [ZoneView(Unbounded, [v])], slots, p0, 10.0).Hit?
  {
    var zvs := [ZoneView(Unbounded, [v])];
    var down := Down(10.0);
    var centre := ViewTranslation(nm, v);
    var box := QueryBox(p0, down);
    assert CheckHitSegmentSphere(p0, down, centre, 3.0) by {
      assert Sub(centre, p0) == Vec3(0.0, -5.0, 0.0);
      assert Dot(Sub(centre, p0), down) == 50.0;
      assert SqLength(down) == 100.0;
      assert Scale(down, 50.0 / 100.0) == Sub(centre, p0);
    }
    assert [v][..0] == [];
    assert zvs[..0] == [];
    assert SelectParts(nm, box, p0, down, None, [v]) == [v];
    assert SelectZones(nm, box, p0, down, None, zvs) == [v];
    var ctx := ViewContext(v, nm, p0, down, None);
    assert Considered(ctx, 32) == [Candidate(0, 0.7)];
    CollectAppendOne(nm, p0, down, None, slots, [], v);
    assert [] + [v] == [v];
    assert [Candidate(0, 0.7)][..0] == [];
    var k := Collect(nm, p0, down, None, slots, [v]);
    assert k.count == 1 && !k.faulted;
  }

  /** In the floor scene the query as written casts (0, -5, 0) toward the
      part's centre, stops short of the floor and finds nothing. */
  lemma AsWrittenFindsNothing(nm: Numerics, v: PartView, slots: seq<HitInfo>, p0: Vec3)
    requires FloorScene(nm, v, slots, p0)
    ensures GroundAsWritten(nm, [ZoneView(Unbounded, [v])], slots, p0, 10.0) == NoHit
  {
    var zvs := [ZoneView(Unbounded, [v])];
    var centre := ViewTranslation(nm, v);
    var box := QueryBox(p0, Down(10.0));
    assert centre != p0;
    ClobberedSphereTestIff(p0, centre, 3.0);
    assert [v][..0] == [];
    assert zvs[..0] == [];
    assert SelectPartsAsWritten(nm, box, p0, [v]) == [v];
    assert SelectZonesAsWritten(nm, box, p0, zvs) == [v];
    var ctx := ViewContext(v, nm, p0, Sub(centre, p0), None);
    assert Considered(ctx, 32) == [];
    assert CollectAsWritten(nm, p0, slots, [v]).count == 0;
  }

  /** The routine as written and the straight-down probe it evidently
      intends disagree on the floor scene. */
  lemma AsWrittenMissesFloor(nm: Numerics, v: PartView, slots: seq<HitInfo>, p0: Vec3)
    requires FloorScene(nm, v, slots, p0)
    ensures IntendedGround(nm, [ZoneView(Unbounded, [v])], slots, p0, 10.0).Hit?
    ensures GroundAsWritten(nm, [ZoneView(Unbounded, [v])], slots, p0, 10.0) == NoHit
  {
    StraightDownFindsFloor(nm, v, slots, p0);
    AsWrittenFindsNothing(nm, v, slots, p0);
  }
}
