/** The director-level queries and the small operations around them: the
    nearest hit of a line query (`getFirstPolyOnLineCategory` and its three
    wrappers), the floor-angle test, validating and invalidating a part,
    and the binder's bookkeeping. */
module Queries {
  import opened Vectors
  import opened Parts
  import opened Zones
  import opened LineQuery
  import opened Keepers
  import opened ScalePolicy

  /** `Category.Map`, the keeper the wrappers ask. */
  const CategoryMap: KeeperIndex := 0

  /** `cos(70°)`, the bound of the floor-angle test. */
  const FloorAngleCos: real := 0.3420201433256688

  /** `isFloorPolygonAngle`: the cosine is strictly inside the band
      around zero. */
  function IsFloorPolygonAngle(v: real): (r: bool)
    ensures r <==> -FloorAngleCos < v < FloorAngleCos
  {
    (if v < 0.0 then -v else v) < FloorAngleCos
  }

  // ---------------------------------------------------------------------
  // Nearest hit

  /** The triangle filter's `isInvalidTriangle`; no filter accepts all. */
  predicate Invalid(tf: Option<Triangle -> bool>, tri: Triangle)
  {
    tf.Some? && tf.value(tri)
  }

  /** Reference definition of the scan in `getFirstPolyOnLineCategory`:
      the index of the entry kept last when the entries are visited in
      order, an entry replacing the kept one only when valid and strictly
      nearer; `-1` when none is kept. */
  function Nearest(hits: seq<HitInfo>, tf: Option<Triangle -> bool>): (r: int)
    ensures -1 <= r < |hits|
    decreases |hits|
  {
    if |hits| == 0 then -1
    else
      var b := Nearest(hits[..|hits| - 1], tf);
      var h := hits[|hits| - 1];
      if Invalid(tf, h.tri) then b
      else if b == -1 || h.distance < hits[b].distance then |hits| - 1
      else b
  }

  /** The scan finds nothing exactly when every entry is invalid, and
      otherwise the first valid entry of least distance: ties go to the
      earliest index because the comparison is strict. */
  lemma {:induction false} NearestIsFirstMinimum(hits: seq<HitInfo>, tf: Option<Triangle -> bool>)
    ensures var r := Nearest(hits, tf);
      && (r == -1 <==> forall i :: 0 <= i < |hits| ==> Invalid(tf, hits[i].tri))
      && (r >= 0 ==>
            && !Invalid(tf, hits[r].tri)
            && forall i :: 0 <= i < |hits| && !Invalid(tf, hits[i].tri) ==>
                 hits[r].distance <= hits[i].distance && (i < r ==> hits[r].distance < hits[i].distance))
    decreases |hits|
  {
    if |hits| > 0 {
      var init := hits[..|hits| - 1];
      NearestIsFirstMinimum(init, tf);
      assert forall i :: 0 <= i < |init| ==> init[i] == hits[i];
    }
  }

  /** The scan of `getFirstPolyOnLineCategory` over the first `count`
      entries of a hit buffer. The source starts from an infinite best
      distance, which every entry beats; here that start is `bestIdx == -1`. */
  method SelectNearest(buffer: array<HitInfo>, count: nat, tf: Option<Triangle -> bool>) returns (bestIdx: int)
    requires count <= buffer.Length
    ensures bestIdx == Nearest(buffer[..count], tf)
  {
    var bestDist := 0.0;
    bestIdx := -1;
    for i := 0 to count
      invariant bestIdx == Nearest(buffer[..i], tf)
      invariant bestIdx >= 0 ==> bestDist == buffer[bestIdx].distance
    {
      assert buffer[..i + 1][..i] == buffer[..i];
      var h := buffer[i];
      if Invalid(tf, h.tri) {
        continue;
      }
      if bestIdx == -1 || h.distance < bestDist {
        bestDist := h.distance;
        bestIdx := i;
      }
    }
  }

  /** How `getFirstPolyOnLineCategory` ends. `NoHit` and `Hit` are its
      `false` and `true` results (a `Hit` carries what is copied to `dst`
      and `dstTriangle`); `BufferOverrun` is the exception a part's query
      raises when it writes past the hit buffer; `NoValidHit` is the failed
      `assert(bestIdx >= 0)` when the triangle filter rejects every entry. */
  datatype FirstPoly = NoHit | Hit(strikeLoc: Vec3, tri: Triangle) | BufferOverrun | NoValidHit

  /** The outcome for a keeper query that ended at `k`. */
  function PolyOutcome(k: Collected, tf: Option<Triangle -> bool>): FirstPoly
    requires !k.faulted ==> k.count <= |k.slots|
  {
    if k.faulted then BufferOverrun
    else if k.count == 0 then NoHit
    else
      var b := Nearest(k.slots[..k.count], tf);
      if b < 0 then NoValidHit else Hit(k.slots[b].strikeLoc, k.slots[b].tri)
  }

  /** What the outcome means: the query's fault, an empty result, every
      entry rejected, or the strike point and triangle of the first valid
      entry of least distance. */
  lemma PolyOutcomeMeaning(k: Collected, tf: Option<Triangle -> bool>)
    requires !k.faulted ==> k.count <= |k.slots|
    ensures var r := PolyOutcome(k, tf);
      && (r == BufferOverrun <==> k.faulted)
      && (r == NoHit <==> !k.faulted && k.count == 0)
      && (r == NoValidHit <==> !k.faulted && k.count > 0 && forall i :: 0 <= i < k.count ==> Invalid(tf, k.slots[i].tri))
      && (r.Hit? ==> exists b ::
            && 0 <= b < k.count
            && r == Hit(k.slots[b].strikeLoc, k.slots[b].tri)
            && !Invalid(tf, k.slots[b].tri)
            && forall i :: 0 <= i < k.count && !Invalid(tf, k.slots[i].tri) ==>
                 k.slots[b].distance <= k.slots[i].distance && (i < b ==> k.slots[b].distance < k.slots[i].distance))
  {
    if !k.faulted && k.count > 0 {
      var hits := k.slots[..k.count];
      NearestIsFirstMinimum(hits, tf);
      assert forall i :: 0 <= i < k.count ==> hits[i] == k.slots[i];
    }
  }

  /** A reported triangle is one the triangle filter accepts, of a part the
      query selected. */
  lemma HitIsSelected(nm: Numerics, p0: Vec3, dir: Vec3, tf: Option<Triangle -> bool>, slots: seq<HitInfo>, sel: seq<PartView>)
    ensures var k := Collect(nm, p0, dir, None, slots, sel);
      !k.faulted ==> k.count <= |slots|
    ensures var k := Collect(nm, p0, dir, None, slots, sel);
      var r := PolyOutcome(k, tf);
      r.Hit? ==> r.tri.parts in PartsOf(sel) && !Invalid(tf, r.tri)
  {
    var k := Collect(nm, p0, dir, None, slots, sel);
    CollectedHitsAreSelected(nm, p0, dir, None, slots, sel);
    if |sel| == 0 {
      assert k.count == 0;
    }
    if !k.faulted {
      PolyOutcomeMeaning(k, tf);
    }
  }

  /** The keepers a query of `category` may change. */
  function QueryKeeper(d: Director?, category: KeeperIndex): set<Keeper>
    requires d != null ==> |d.keepers| == KeeperCount
  {
    if d == null then {} else {d.keepers[category]}
  }

  /** The hit buffer a query of `category` writes. */
  function QueryBuffer(d: Director?, category: KeeperIndex): set<array<HitInfo>>
    requires d != null ==> |d.keepers| == KeeperCount
  {
    if d == null then {} else {d.keepers[category].strikeInfo}
  }

  /** `getFirstPolyOnLineCategory`: no director, no hit. Otherwise the
      category's keeper answers the line query without a triangle filter,
      and the nearest entry the triangle filter accepts is reported. */
  method FirstPolyOnLineCategory(nm: Numerics, director: Director?, p0: Vec3, dir: Vec3,
                                 tf: Option<Triangle -> bool>, pf: Option<CollisionParts -> bool>,
                                 category: KeeperIndex) returns (r: FirstPoly)
    requires director != null ==> director.Valid()
    modifies QueryKeeper(director, category)`strikeInfoCount, QueryBuffer(director, category)
    ensures director == null ==> r == NoHit
    ensures director != null ==>
      var kp := director.keepers[category];
      var k := Collect(nm, p0, dir, None, old(kp.strikeInfo[..]), old(kp.Selection(nm, p0, dir, pf)));
      (!k.faulted ==> k.count <= |k.slots|) && r == PolyOutcome(k, tf)
    ensures r.Hit? ==> director != null && r.tri.parts in PartsOf(old(director.keepers[category].Selection(nm, p0, dir, pf)))
    ensures r.Hit? ==> !Invalid(tf, r.tri)
  {
    if director == null {
      return NoHit;
    }
    var kp := director.keepers[category];
    ghost var slots := kp.strikeInfo[..];
    ghost var sel := kp.Selection(nm, p0, dir, pf);
    HitIsSelected(nm, p0, dir, tf, slots, sel);
    var res := kp.CheckStrikeLine(nm, p0, dir, pf, None);
    if res.Faulted? {
      return BufferOverrun;
    }
    var count := res.count;
    if count == 0 {
      return NoHit;
    }
    var best := SelectNearest(kp.strikeInfo, count, tf);
    if best < 0 {
      return NoValidHit;
    }
    var h := kp.strikeInfo[best];
    r := Hit(h.strikeLoc, h.tri);
  }

  /** `getFirstPolyOnLineToMap`: the map category, no filters. */
  method FirstPolyOnLineToMap(nm: Numerics, director: Director?, p0: Vec3, dir: Vec3) returns (r: FirstPoly)
    requires director != null ==> director.Valid()
    modifies QueryKeeper(director, CategoryMap)`strikeInfoCount, QueryBuffer(director, CategoryMap)
    ensures director == null ==> r == NoHit
    ensures director != null ==>
      var kp := director.keepers[CategoryMap];
      var k := Collect(nm, p0, dir, None, old(kp.strikeInfo[..]), old(kp.Selection(nm, p0, dir, None)));
      (!k.faulted ==> k.count <= |k.slots|) && r == PolyOutcome(k, None)
  {
    r := FirstPolyOnLineCategory(nm, director, p0, dir, None, None, CategoryMap);
  }

  /** The parts filter of `getFirstPolyOnLineToMapExceptActor`: a part is
      rejected when its sensor belongs to the actor. */
  function ExceptActor(actor: nat): Option<CollisionParts -> bool>
  {
    Some((q: CollisionParts) => q.hitSensor.actor == actor)
  }

  /** `getFirstPolyOnLineToMapExceptActor`: the map category, skipping the
      actor's own parts; a reported triangle never belongs to that actor. */
  method FirstPolyOnLineToMapExceptActor(nm: Numerics, director: Director?, p0: Vec3, dir: Vec3, actor: nat)
    returns (r: FirstPoly)
    requires director != null ==> director.Valid()
    modifies QueryKeeper(director, CategoryMap)`strikeInfoCount, QueryBuffer(director, CategoryMap)
    ensures director == null ==> r == NoHit
    ensures director != null ==>
      var kp := director.keepers[CategoryMap];
      var k := Collect(nm, p0, dir, None, old(kp.strikeInfo[..]), old(kp.Selection(nm, p0, dir, ExceptActor(actor))));
      (!k.faulted ==> k.count <= |k.slots|) && r == PolyOutcome(k, None)
    ensures r.Hit? ==> r.tri.parts != null && r.tri.parts.hitSensor.actor != actor
  {
    ghost var sel := if director == null then [] else director.keepers[CategoryMap].Selection(nm, p0, dir, ExceptActor(actor));
    r := FirstPolyOnLineCategory(nm, director, p0, dir, None, ExceptActor(actor), CategoryMap);
    if r.Hit? {
      ghost var v :| v in sel && v.parts == r.tri.parts;
      SelectZonesPasses(nm, QueryBox(p0, dir), p0, dir, ExceptActor(actor), old(ZoneViews(director.keepers[CategoryMap].zones)), v);
    }
  }

  /** `calcMapGround`: straight down by `height` from `p0` in the map
      category; only the strike point is used. */
  method CalcMapGround(nm: Numerics, director: Director?, p0: Vec3, height: real) returns (r: FirstPoly)
    requires director != null ==> director.Valid()
    modifies QueryKeeper(director, CategoryMap)`strikeInfoCount, QueryBuffer(director, CategoryMap)
    ensures director == null ==> r == NoHit
    ensures director != null ==>
      var kp := director.keepers[CategoryMap];
      var down := Vec3(0.0, -height, 0.0);
      var k := Collect(nm, p0, down, None, old(kp.strikeInfo[..]), old(kp.Selection(nm, p0, down, None)));
      (!k.faulted ==> k.count <= |k.slots|) && r == PolyOutcome(k, None)
  {
    r := FirstPolyOnLineCategory(nm, director, p0, Vec3(0.0, -height, 0.0), None, None, CategoryMap);
  }

  // ---------------------------------------------------------------------
  // Validation and the binder

  /** The zone `id` of a keeper, as a frame (empty when the slot is). */
  function ZoneFrame(kp: Keeper, id: nat): set<CollisionZone>
    reads kp`zones
  {
    if kp.ZoneAt(id) == null then {} else {kp.ZoneAt(id)}
  }

  /** The `CollisionParts` constructor with its zone lookup: the part's
      keeper finds or creates the zone `zoneId` (`getZone`), then the part
      is built, not yet validated and not yet listed in that zone. */
  method NewCollisionParts(nm: Numerics, director: Director, zoneId: nat, initialHostMtx: Mat4, hitSensor: HitSensor,
                           server: MeshServer, keeperIdx: KeeperIndex, scaleType: ScaleType) returns (p: CollisionParts)
    requires director.Valid()
    modifies {director.keepers[keeperIdx]}`zones
    ensures fresh(p) && p.zoneId == zoneId && p.keeperIdx == keeperIdx && !p.validated
    ensures p.hitSensor == hitSensor && p.server == server && p.scaleType == scaleType && p.hostMtx == None
    ensures p.newWorldMtx == initialHostMtx && p.oldWorldMtx == initialHostMtx && p.worldMtx == initialHostMtx
    ensures p.invWorldMtx == InvertInto(nm, initialHostMtx, Identity)
    ensures p.notMovedCounter == 0 && p.setUpdateMtx && !p.setUpdateMtxOneTime
    ensures p.scale == AvgScale(nm.getScaling(initialHostMtx))
    ensures p.boundingSphereRadius == server.farthestVertexDistance
    ensures director.Valid()
    ensures var kp := director.keepers[keeperIdx];
      && kp.ZoneAt(zoneId) != null && kp.ZoneAt(zoneId).zoneId == zoneId
      && (old(kp.ZoneAt(zoneId)) != null ==> kp.zones == old(kp.zones))
      && (old(kp.ZoneAt(zoneId)) == null ==> fresh(kp.ZoneAt(zoneId)) && kp.ZoneAt(zoneId).parts == [])
  {
    var z := director.keepers[keeperIdx].GetZone(zoneId);
    p := new CollisionParts(nm, zoneId, initialHostMtx, hitSensor, server, keeperIdx, scaleType);
  }

  /** `validateCollisionParts`: register the part in its zone with its own
      keeper (`addToBelongZone`), then mark it validated. */
  method ValidateCollisionParts(nm: Numerics, director: Director, p: CollisionParts)
    requires director.Valid()
    modifies {director.keepers[p.keeperIdx]}`zones, ZoneFrame(director.keepers[p.keeperIdx], p.zoneId), p`validated
    ensures director.Valid() && p.validated
    ensures var kp := director.keepers[p.keeperIdx];
      && kp.ZoneAt(p.zoneId) != null
      && kp.ZoneAt(p.zoneId).parts == (if old(kp.ZoneAt(p.zoneId)) == null then [] else old(kp.ZoneAt(p.zoneId).parts)) + [p]
      && (forall i :: 0 <= i < |kp.zones| && i != p.zoneId ==> kp.zones[i] == old(kp.ZoneAt(i)))
    ensures var kp := director.keepers[p.keeperIdx];
      var start := if old(kp.ZoneAt(p.zoneId)) == null then (if p.zoneId > 0 then Bounded(Zero, -1.0, Empty) else Unbounded)
                   else old(kp.ZoneAt(p.zoneId).volume);
      kp.ZoneAt(p.zoneId).volume == AddedVolume(nm, start, p.Translation(nm), p.boundingSphereRadius)
  {
    var kp := director.keepers[p.keeperIdx];
    kp.AddToZone(nm, p, p.zoneId);
    p.validated := true;
  }

  /** `invalidateCollisionParts`: drop the part from its zone
      (`removeFromBelongZone`; nothing to do without the zone), then mark it
      not validated. */
  method InvalidateCollisionParts(director: Director, p: CollisionParts)
    requires director.Valid()
    modifies ZoneFrame(director.keepers[p.keeperIdx], p.zoneId)`parts, p`validated
    ensures !p.validated
    ensures var z := director.keepers[p.keeperIdx].ZoneAt(p.zoneId);
      z != null ==> z.parts == RemoveFirst(old(z.parts), p) && z.volume == old(z.volume)
  {
    var kp := director.keepers[p.keeperIdx];
    kp.RemoveFromZone(p, p.zoneId);
    p.validated := false;
  }

  /** The distances `clear` resets the binder's floor, wall and roof hits
      to. */
  const NoHitDistance: real := -99999.0

  /** `Binder`: the part of the binder this model keeps is its hit
      bookkeeping and the extra collision part it lends to the map's global
      zone while it binds. */
  class Binder {
    const hitInfos: array<HitInfo>
    var hitInfoCount: nat
    var floorHitDist: real
    var wallHitDist: real
    var roofHitDist: real
    var exCollisionParts: CollisionParts?
    var exCollisionPartsValid: bool

    /** The validity flag tracks whether an extra part is set. */
    predicate Valid()
      reads this`exCollisionParts, this`exCollisionPartsValid
    {
      exCollisionPartsValid <==> exCollisionParts != null
    }

    /** No hits recorded. */
    predicate Cleared()
      reads this`hitInfoCount, this`floorHitDist, this`wallHitDist, this`roofHitDist
    {
      hitInfoCount == 0 && floorHitDist == NoHitDistance && wallHitDist == NoHitDistance && roofHitDist == NoHitDistance
    }

    /** A binder with room for `hitInfoCapacity` hits, cleared, without an
        extra part. */
    constructor(hitInfoCapacity: nat)
      ensures fresh(hitInfos) && hitInfos.Length == hitInfoCapacity
      ensures Cleared() && Valid() && exCollisionParts == null
    {
      hitInfos := new HitInfo[hitInfoCapacity](_ => BlankHitInfo);
      exCollisionParts := null;
      exCollisionPartsValid := false;
      new;
      Clear();
    }

    /** `clear`. */
    method Clear()
      modifies this`hitInfoCount, this`floorHitDist, this`wallHitDist, this`roofHitDist
      ensures Cleared()
    {
      hitInfoCount := 0;
      floorHitDist := NoHitDistance;
      wallHitDist := NoHitDistance;
      roofHitDist := NoHitDistance;
    }

    /** `setExCollisionParts`: the flag follows whether a part is given. */
    method SetExCollisionParts(p: CollisionParts?)
      modifies this`exCollisionParts, this`exCollisionPartsValid
      ensures exCollisionParts == p && Valid()
    {
      exCollisionParts := p;
      exCollisionPartsValid := exCollisionParts != null;
    }

    /** `bind`, as far as the collision tables see it: with an extra part,
        the part is lent to the map keeper's global zone for the duration
        of the bind. Without one, nothing changes. */
    method Bind(nm: Numerics, director: Director)
      requires Valid() && director.Valid()
      modifies {director.keepers[CategoryMap]}`zones, ZoneFrame(director.keepers[CategoryMap], 0)
      ensures director.Valid()
      ensures var kp := director.keepers[CategoryMap];
        !exCollisionPartsValid ==>
          && kp.zones == old(kp.zones)
          && (kp.ZoneAt(0) != null ==> kp.ZoneAt(0).parts == old(kp.ZoneAt(0).parts))
          && (kp.ZoneAt(0) != null ==> kp.ZoneAt(0).volume == old(kp.ZoneAt(0).volume))
      ensures var kp := director.keepers[CategoryMap];
        var before := if old(kp.ZoneAt(0)) == null then [] else old(kp.ZoneAt(0).parts);
        exCollisionPartsValid ==>
          && kp.ZoneAt(0) != null
          && kp.ZoneAt(0).parts == RemoveFirst(before + [exCollisionParts], exCollisionParts)
          && (exCollisionParts !in before ==> kp.ZoneAt(0).parts == before)
          && (forall i :: 0 < i < |kp.zones| ==> kp.zones[i] == old(kp.ZoneAt(i)))
          && (old(kp.ZoneAt(0)) != null ==> kp.ZoneAt(0) == old(kp.ZoneAt(0)))
          && kp.ZoneAt(0).volume ==
               AddedVolume(nm, if old(kp.ZoneAt(0)) == null then Unbounded else old(kp.ZoneAt(0).volume),
                           exCollisionParts.Translation(nm), exCollisionParts.boundingSphereRadius)
    {
      if exCollisionPartsValid {
        var p := exCollisionParts;
        var kp := director.keepers[CategoryMap];
        LendToGlobal(nm, kp, p);
        assert forall i :: 0 <= i < |director.keepers| && i != CategoryMap ==> director.keepers[i] != kp;
      }
    }
  }

  /** The two global-zone steps of `bind`: `addToGlobal`, then
      `removeFromGlobal` of the same part. The global zone ends up listing
      what it listed before, with the part's first occurrence dropped and
      the part appended; a part not listed before leaves the list as it
      was. */
  method LendToGlobal(nm: Numerics, kp: Keeper, p: CollisionParts)
    requires kp.Valid()
    modifies kp`zones, ZoneFrame(kp, 0)
    ensures kp.Valid() && kp.ZoneAt(0) != null
    ensures forall i :: 0 < i < |kp.zones| ==> kp.zones[i] == old(kp.ZoneAt(i))
    ensures var before := if old(kp.ZoneAt(0)) == null then [] else old(kp.ZoneAt(0).parts);
      && kp.ZoneAt(0).parts == RemoveFirst(before + [p], p)
      && (p !in before ==> kp.ZoneAt(0).parts == before)
    ensures old(kp.ZoneAt(0)) != null ==> kp.ZoneAt(0) == old(kp.ZoneAt(0))
    ensures var start := if old(kp.ZoneAt(0)) == null then Unbounded else old(kp.ZoneAt(0).volume);
      kp.ZoneAt(0).volume == AddedVolume(nm, start, p.Translation(nm), p.boundingSphereRadius)
  {
    ghost var before := if kp.ZoneAt(0) == null then [] else kp.ZoneAt(0).parts;
    kp.AddToGlobal(nm, p);
    kp.RemoveFromGlobal(p);
    RemoveAppended(before, p);
  }
}
