# Collision core of the Super Mario Galaxy renderer, in Dafny

This project models the collision engine of the Super Mario Galaxy scene
renderer (`src/SuperMarioGalaxy/Collision.ts`) and proves properties of the model.

- **Collision parts.** A collision part (`CollisionParts`) places a collision mesh in the world.
  - Every frame it stages a new transform.
  - A counter-driven state machine (`updateMtx`) decides when the part commits that transform and its inverse.
  - A scale policy (`makeEqualScale`) decides how the part's bounding sphere is scaled.
- **Zones.** Parts are grouped into zones (`CollisionZone`).
  - Each zone with an id above 0 keeps an axis-aligned box, a centre and a radius around its parts' bounding cubes, so that a line query can skip the whole zone.
  - The global zone 0 has no volume.
- **Keepers.** A categorized keeper (`CollisionCategorizedKeeper`) holds a sparse table of zones and a fixed 32-entry hit buffer.
  - Its movement pass updates every validated part it owns.
  - Its line query prunes zones and parts and lets each remaining part write its hits into the buffer.
- **Director.** The director owns four keepers, one per category.
- **Queries and the binder.** The director-level queries pick the nearest accepted hit. The binder lends an extra part to the map's global zone while it binds.
- **The ground query as written.** `calcMapGround` shares a scratch vector with the segment-sphere test, which overwrites its direction. Module `MapGround` models that query and shows where it parts from the straight-down probe.

The model has three layers:

- **Pure specification functions** (`UpdateMtxStep`, `FillAll`, `SelectZones`, `Collect`, `Nearest`, `PartsBox`). Lemmas prove what the source promises about them.
- **Imperative methods.** The source's classes (`CollisionParts`, `CollisionZone`, `Keeper`, `Director`, `Binder`) become Dafny classes with their fields. Their loops become `while`/`for` loops over arrays and sequences, each proved against the corresponding specification function.
- **Numerics as parameters.** Floating-point matrix and box routines from other files (matrix equality, inversion, scaling, point transforms, box containment and centre) are not part of this model. They are passed in as a value of type `Numerics`. The mesh server's arrow cast is passed in the same way, as a `MeshServer`.

Reals stand for the source's floating-point numbers; comparisons are exact.

## Model

| member | source | states |
|---|---|---|
| Vectors.UnionPoint | src/SuperMarioGalaxy/Collision.ts:317-336 | The grown box holds the new point and everything the old box held. The "changed" flag is true exactly when the box changed, which is exactly when the point was outside the old box. |
| SegmentSphere.HitIsContact | src/SuperMarioGalaxy/Collision.ts:349-394 | Soundness: when `checkHitSegmentSphere` reports a hit, some point of the closed segment lies in the closed ball. |
| SegmentSphere.OpenContactIsHit | src/SuperMarioGalaxy/Collision.ts:349-394 | Completeness: for a non-zero direction, a segment with a point strictly inside the ball is reported as a hit. |
| SegmentSphere.ZeroDirectionNeverHits | src/SuperMarioGalaxy/Collision.ts:355-367 | With a zero direction the 0/0 projection is NaN, so no hit is reported, even when the segment's point is the centre. |
| SegmentSphere.FarEndTangentIsMissed | src/SuperMarioGalaxy/Collision.ts:368-379 | The far-end branch compares strictly: a segment whose far end lies on the sphere touches the ball but is not reported. |
| SegmentSphere.StartTangentIsMissed | src/SuperMarioGalaxy/Collision.ts:380-391 | The same for the branch behind the start: a start point on the sphere is not reported. |
| ScalePolicy.AvgScale | src/SuperMarioGalaxy/Collision.ts:86-88 | The mean scale lies between the smallest and the largest axis scale, and equals the common value of a uniform scale. |
| ScalePolicy.EqualScale | src/SuperMarioGalaxy/Collision.ts:183-211 | The scale `makeEqualScale` returns, case by case: 1 for `AutoScale`; the x-scale when all three axis differences are within 0.001; otherwise 1 for `NotUsingScale` and the mean for `AutoEqualScale`. |
| ScalePolicy.MakeEqualScale | src/SuperMarioGalaxy/Collision.ts:183-211 | The returned scale is `EqualScale`. The matrix is rescaled to that uniform scale exactly when the policy is not `AutoScale` and the axes differ; otherwise it is unchanged. |
| ScalePolicy.UniformScaleIsKept | src/SuperMarioGalaxy/Collision.ts:194-195 | Under any policy other than `AutoScale`, a uniformly scaled matrix keeps its scale and is not rescaled. |
| ScalePolicy.AutoEqualScaleNearMean | src/SuperMarioGalaxy/Collision.ts:194-203 | Under `AutoEqualScale` the returned scale is always within the 0.001 tolerance of the mean axis scale. |
| ScalePolicy.AutoEqualScaleBetweenAxes | src/SuperMarioGalaxy/Collision.ts:194-203 | Under `AutoEqualScale` the returned scale lies between the smallest and the largest axis scale. |
| ScalePolicy.EqualScaleIsFixedPoint | src/SuperMarioGalaxy/Collision.ts:183-211 | For every policy other than `AutoScale`, equalising a transform already scaled uniformly by the chosen scale returns that scale and does not rescale it again. |
| Parts.UpdateMtxCounter | src/SuperMarioGalaxy/Collision.ts:138-166 | With updates enabled, a frame whose matrices differ increments the counter, and a frame whose matrices agree resets it to 0 (to 1 after a forced reset). With updates disabled, only the counter of a differing frame changes. |
| Parts.UpdateMtxCommit | src/SuperMarioGalaxy/Collision.ts:155-161 | The old, committed and inverse transforms are rotated in exactly when updates are enabled and the new counter is below 2; otherwise they stay. The one-time flag is cleared by every enabled update. |
| Parts.UpdateMtxScale | src/SuperMarioGalaxy/Collision.ts:144-153 | Only an enabled update whose matrices agree rescales the staged matrix. It refreshes the scale and the radius (the mesh's farthest vertex distance) exactly when the new scale is within 0.001 of the old one. |
| Parts.UpdatesAdd | src/SuperMarioGalaxy/Collision.ts:138-166 | `a` updates followed by `b` more are `a + b` updates. |
| Parts.MovingPartStaysFrozen | src/SuperMarioGalaxy/Collision.ts:142-161 | Once the counter is at 2 or more and the staged matrices keep differing from the committed one, the part never commits again; the counter counts the frames. |
| Parts.MovingPartFreezesAtFirstMove | src/SuperMarioGalaxy/Collision.ts:138-166 | A part that moves every frame commits its first new transform and then stays there. |
| Parts.StationaryPartCommits | src/SuperMarioGalaxy/Collision.ts:144-161 | A part whose staged matrix agrees with its committed one commits the uniformly scaled matrix, with the counter at most 1. |
| Parts.FillData | src/SuperMarioGalaxy/Collision.ts:43-59 | The filled triangle is tagged with the part, the prism index and the part's sensor. |
| Parts.Accepted | src/SuperMarioGalaxy/Collision.ts:250-265 | Reference definition: each accepted entry belongs to the part and is not rejected by the triangle filter, and there are at most as many entries as candidates. |
| Parts.FillWritesAccepted | src/SuperMarioGalaxy/Collision.ts:250-266 | Without a fault, the part's query writes exactly the accepted entries, in order, from `dstIdx` on, and returns their number. |
| Parts.FillLeavesOtherSlots | src/SuperMarioGalaxy/Collision.ts:255-264 | Slots before `dstIdx` and after the next free slot are untouched. The next free slot keeps its strike point and distance; only its triangle may be overwritten by a rejected candidate. |
| Parts.FillFaultsIff | src/SuperMarioGalaxy/Collision.ts:249-256 | The query indexes past the buffer (a fault) exactly when the entries accepted before its last candidate already fill the buffer from `dstIdx` on. The loop is bounded by the buffer length, not by the room left. |
| Parts.NoFaultWithRoom | src/SuperMarioGalaxy/Collision.ts:249-256 | When there is room for every candidate, there is no fault. |
| Parts.FaultPersists | src/SuperMarioGalaxy/Collision.ts:249-256 | After a fault, later candidates change nothing. |
| Parts.Considered | src/SuperMarioGalaxy/Collision.ts:246-252 | The loop visits at most as many arrow results as the buffer has slots. |
| Parts.FillBuffer | src/SuperMarioGalaxy/Collision.ts:250-266 | The loop over the candidates leaves the buffer and returns the count (or the fault) of `FillAll`, whose properties the `Fill*` lemmas state. |
| Parts.FillSlot | src/SuperMarioGalaxy/Collision.ts:255-264 | One candidate with room in the buffer: the slot and the next index are those of one `FillStep`. The triangle is written before the filter is asked, and only an accepted candidate advances. |
| Parts.CollisionParts.constructor | src/SuperMarioGalaxy/Collision.ts:112-124 | All transforms start at the initial host matrix. The scale is the mean axis scale, the radius is the mesh's farthest vertex distance, updates are on, and the part is not validated. |
| Parts.CollisionParts.SetMtx | src/SuperMarioGalaxy/Collision.ts:134-136 | The staged transform becomes `m`. |
| Parts.CollisionParts.SetHostMtx | src/SuperMarioGalaxy/Collision.ts:687-688 | The part now has the given host matrix. |
| Parts.CollisionParts.SetMtxFromHost | src/SuperMarioGalaxy/Collision.ts:130-132 | The staged transform becomes the host matrix. |
| Parts.CollisionParts.ResetAllMtx | src/SuperMarioGalaxy/Collision.ts:226-235 | The staged, old and committed transforms become `m`, and the inverse is recomputed (kept when `m` is singular). |
| Parts.CollisionParts.ResetAllMtxFromHost | src/SuperMarioGalaxy/Collision.ts:237-241 | All transforms are reset to a uniformly scaled copy of the host matrix. |
| Parts.CollisionParts.UpdateBoundingSphereRangeFromHostMtx | src/SuperMarioGalaxy/Collision.ts:222-224 | The scale becomes the policy's scale of the host matrix, the host matrix is rescaled in place, and the radius becomes the farthest vertex distance. |
| Parts.CollisionParts.ForceResetAllMtxAndSetUpdateMtxOneTime | src/SuperMarioGalaxy/Collision.ts:168-173 | All transforms are reset to a uniformly scaled copy of the host matrix, and the one-time update flag is set. |
| Parts.CollisionParts.UpdateMtx | src/SuperMarioGalaxy/Collision.ts:138-166 | The part's new state is `UpdateMtxStep` of its old state. The `UpdateMtx*` and `*Frozen`/`*Commits` lemmas state what that step does. |
| Parts.CollisionParts.CheckStrikeLine | src/SuperMarioGalaxy/Collision.ts:243-267 | The buffer after the loop and the returned count (or the fault) are those of `FillAll` over the arrow cast's results in the part's local space. |
| Zones.IsInRange | src/SuperMarioGalaxy/Collision.ts:270-273 | True exactly when `v` lies between the two bounds, in either order. |
| Zones.AddCorners | src/SuperMarioGalaxy/Collision.ts:317-336 | The box grows to hold both corners of the part's cube and everything it held before. The flag is true exactly when a corner was outside; without a change the box is the same. |
| Zones.PartsBox | src/SuperMarioGalaxy/Collision.ts:338-346 | The rebuilt box holds every part's cube, and it is the reset (empty) box exactly when the zone has no parts. |
| Zones.AddedVolume | src/SuperMarioGalaxy/Collision.ts:289-294 | The global zone stays unbounded. A bounded zone's box grows to hold the new cube, and a cube already inside leaves the volume unchanged. |
| Zones.StillInsideIffCubeInside | src/SuperMarioGalaxy/Collision.ts:300-310 | When the box is at least twice the radius wide, the cheap "move outer" test passes exactly when the part's cube lies in the box. |
| Zones.NarrowBoxPassesTest | src/SuperMarioGalaxy/Collision.ts:300-310 | A concrete witness: for one box narrower than the cube, the test passes although the cube sticks out. |
| Zones.RemoveFirst | src/SuperMarioGalaxy/Collision.ts:296-298 | `arrayRemoveIfExist`: an absent element leaves the list unchanged. Otherwise exactly the first occurrence is dropped, and the multiset loses one copy. |
| Zones.RemoveAppended | src/SuperMarioGalaxy/Collision.ts:443-449 | Removing a part right after appending it gives back the original list when the part was absent; otherwise the earlier occurrence goes and the part moves to the end. |
| Zones.BuildPartsBox | src/SuperMarioGalaxy/Collision.ts:342-344 | The loop's box is `PartsBox` of the zone's parts. |
| Zones.CollisionZone.constructor | src/SuperMarioGalaxy/Collision.ts:281-287 | A zone with an id above 0 starts with centre 0, radius -1 and the reset box; zone 0 has no volume. |
| Zones.CollisionZone.AddParts | src/SuperMarioGalaxy/Collision.ts:289-294 | The part is appended, and the volume becomes `AddedVolume`. |
| Zones.CollisionZone.EraseParts | src/SuperMarioGalaxy/Collision.ts:296-298 | The parts become `RemoveFirst` of the old parts. |
| Zones.CollisionZone.CalcMinMaxAndRadius | src/SuperMarioGalaxy/Collision.ts:338-346 | A bounded zone's volume is rebuilt from `PartsBox` of all its parts; an unbounded zone is unchanged. |
| Zones.CollisionZone.CalcMinMaxAndRadiusIfMoveOuter | src/SuperMarioGalaxy/Collision.ts:300-310 | The volume is rebuilt exactly when the zone is bounded and the part fails the cheap test; otherwise it is unchanged. |
| LineQuery.QueryBox | src/SuperMarioGalaxy/Collision.ts:458-461 | The query box holds both ends of the segment. |
| LineQuery.Views | src/SuperMarioGalaxy/Collision.ts:477-489 | One view per part, in order. |
| LineQuery.SelectPartsFilters | src/SuperMarioGalaxy/Collision.ts:477-489 | A part is selected exactly when it is listed and passes the part prune: validated, accepted by the parts filter, sphere in the box, and segment meets sphere. |
| LineQuery.SelectZonesPasses | src/SuperMarioGalaxy/Collision.ts:465-489 | Every part the query reaches, in any zone, passes the part prune. |
| LineQuery.PartSetIsVisited | src/SuperMarioGalaxy/Collision.ts:407-430 | The parts registered in a zone table are exactly the parts the walk over its zones lists. |
| LineQuery.CollectStepHits | src/SuperMarioGalaxy/Collision.ts:487-493 | A part's turn keeps the entries below the current count. Without a fault, every new entry is a hit of that part that the triangle filter accepts. |
| LineQuery.CollectedHitsAreSelected | src/SuperMarioGalaxy/Collision.ts:455-499 | Without a fault, the count stays within the buffer, and every entry below it is an accepted hit of a selected part. |
| LineQuery.CollectStopsForGood | src/SuperMarioGalaxy/Collision.ts:491-493 | Once the buffer is full or a part faulted, later parts change nothing (the `break outer`). |
| StrikeLine.StrikeLineZones | src/SuperMarioGalaxy/Collision.ts:463-494 | The outer loop over the zone table ends at `Collect` over the whole selection: same buffer, count and fault. |
| StrikeLine.StrikeLineInZone | src/SuperMarioGalaxy/Collision.ts:477-493 | The inner loop over one zone's parts extends the collection by that zone's selected parts, and it reports a stop exactly when the query stopped. |
| StrikeLine.StrikeLinePart | src/SuperMarioGalaxy/Collision.ts:487-493 | One passing part's turn is one `CollectStep`. |
| Keepers.Keeper.constructor | src/SuperMarioGalaxy/Collision.ts:397-405 | An empty zone table, a fresh 32-entry buffer, a zero count, and the force flag off. |
| Keepers.Keeper.GetZone | src/SuperMarioGalaxy/Collision.ts:501-506 | Returns the zone with id `id`. It is created (empty, with the initial volume) and placed in its slot only when the slot was empty, growing the table with empty slots; no other slot changes. |
| Keepers.Keeper.AddToZone | src/SuperMarioGalaxy/Collision.ts:432-434 | The zone `id` exists afterwards. Its parts are the old parts plus `p`, its volume grows by `p`'s cube, and no other slot changes. |
| Keepers.Keeper.RemoveFromZone | src/SuperMarioGalaxy/Collision.ts:436-441 | When zone `id` exists, its parts become `RemoveFirst` of the old parts; otherwise nothing changes. Only the list changes: the zone's volume stays as it was, still holding the removed part's cube. |
| Keepers.Keeper.AddToGlobal | src/SuperMarioGalaxy/Collision.ts:443-445 | `AddToZone` for zone 0: the part is appended to the global zone, whose volume stays unbounded. |
| Keepers.Keeper.RemoveFromGlobal | src/SuperMarioGalaxy/Collision.ts:447-449 | `RemoveFromZone` for zone 0: the part's first occurrence is dropped and the zone's volume stays. |
| Keepers.Keeper.Movement | src/SuperMarioGalaxy/Collision.ts:407-430 | Every listed part ends in the state of `updateMtx` applied once per listing in the zones, when it is validated and belongs to the keeper. Zone volumes keep their kind, and the force flag ends cleared. |
| Keepers.Keeper.CheckStrikeLine | src/SuperMarioGalaxy/Collision.ts:455-499 | The buffer ends as `Collect` over the parts the prune selects, zone by zone. The stored and returned count is that collection's count; on a fault, the fault is reported and the stored count is kept. |
| Keepers.MovementZone | src/SuperMarioGalaxy/Collision.ts:411-428 | Each part of the zone takes one update per listing when it is validated and belongs to the keeper. A forced rebuild leaves the zone's volume as `PartsBox` of its parts, and an unbounded zone stays unbounded. |
| Keepers.MovementPart | src/SuperMarioGalaxy/Collision.ts:414-420 | One listing of a part: a validated part of the keeper takes one `updateMtx` step, and any other part is unchanged. Unless the pass is forced, a validated part whose counter is 0 afterwards rebuilds a bounded zone's volume as `PartsBox` of the zone's parts exactly when the cheap containment test fails for the part's new centre and radius; otherwise the volume is unchanged. |
| Keepers.ComposeUpdates | src/SuperMarioGalaxy/Collision.ts:407-430 | The updates of two consecutive walks are the updates of the walk over both lists. |
| Keepers.AllTurns | src/SuperMarioGalaxy/Collision.ts:521-526 | After the four keepers' turns, every force flag is clear, every part has taken exactly its own keeper's updates, and every zone's volume has kept its kind. |
| Keepers.Director.constructor | src/SuperMarioGalaxy/Collision.ts:512-519 | Four fresh, empty keepers, with keeper `i` of category `i`. |
| Keepers.Director.Movement | src/SuperMarioGalaxy/Collision.ts:521-526 | Every registered part is updated by its own keeper only, once per listing in that keeper's zones, and every force flag is cleared. Every zone's volume keeps its kind, and the unbounded global zones keep their volume. |
| Queries.IsFloorPolygonAngle | src/SuperMarioGalaxy/Collision.ts:529-532 | True exactly when the cosine lies strictly between -cos 70° and cos 70°. |
| Queries.NearestIsFirstMinimum | src/SuperMarioGalaxy/Collision.ts:608-619 | The scan finds nothing exactly when every entry is rejected. Otherwise it finds an accepted entry of least distance, the first such because the comparison is strict. |
| Queries.SelectNearest | src/SuperMarioGalaxy/Collision.ts:608-617 | The loop's index is `Nearest` of the first `count` entries. |
| Queries.PolyOutcomeMeaning | src/SuperMarioGalaxy/Collision.ts:598-628 | The outcome is a buffer overrun exactly on a fault, no hit exactly on a zero count, and a failed assertion exactly when every entry is rejected. Otherwise it is the strike point and triangle of the first nearest accepted entry. |
| Queries.HitIsSelected | src/SuperMarioGalaxy/Collision.ts:598-628 | A reported triangle belongs to a selected part and is accepted by the triangle filter. |
| Queries.FirstPolyOnLineCategory | src/SuperMarioGalaxy/Collision.ts:598-628 | With no director there is no hit. Otherwise the result is `PolyOutcome` of the category keeper's query without a triangle filter, and a reported triangle is of a selected part and accepted by the triangle filter. |
| Queries.FirstPolyOnLineToMap | src/SuperMarioGalaxy/Collision.ts:630-632 | The same, for the map category with no filters. |
| Queries.FirstPolyOnLineToMapExceptActor | src/SuperMarioGalaxy/Collision.ts:642-646 | The same, for the map category, skipping the actor's parts; a reported triangle never belongs to that actor. |
| Queries.CalcMapGround | src/SuperMarioGalaxy/Collision.ts:648-651 | The straight-down probe the routine evidently intends: the map keeper's query along the segment straight down by `height`, with its outcome. The code as written does something else (see "## Findings" and `MapGround`). |
| MapGround.ClobberedSphereTestIff | src/SuperMarioGalaxy/Collision.ts:349-359 | When the direction handed to `checkHitSegmentSphere` is the scratch vector it overwrites with `center - p0`, the test passes exactly when the centre is not the start point, whatever the radius. |
| MapGround.SelectPartsAsWrittenIgnoresRadius | src/SuperMarioGalaxy/Collision.ts:478-489 | In `calcMapGround` as written, a zone's parts are visited exactly when they are validated, pass the box test and are not centred at the start point; the sphere test no longer prunes by radius. |
| MapGround.CollectAsWritten | src/SuperMarioGalaxy/Collision.ts:491-493 | In `calcMapGround` as written each visited part casts its arrow toward its own centre, and without a fault the count stays within the buffer. |
| MapGround.StraightDownFindsFloor | src/SuperMarioGalaxy/Collision.ts:648-651 | In a scene with one part centred 5 below the start and a floor 7 below, the straight-down probe of length 10 reports a hit. |
| MapGround.AsWrittenFindsNothing | src/SuperMarioGalaxy/Collision.ts:648-651 | In the same scene, `calcMapGround` as written casts toward the part's centre, stops 5 below the start and reports no hit. |
| MapGround.AsWrittenMissesFloor | src/SuperMarioGalaxy/Collision.ts:648-651 | The two disagree on that scene: the intended probe hits and the code as written does not. |
| Queries.NewCollisionParts | src/SuperMarioGalaxy/Collision.ts:112-124 | The part's zone exists in its keeper afterwards, created empty when missing. The new part is not validated and not yet listed, and it is exactly what the constructor builds: the given sensor, mesh server, scale type and ids, every transform at the initial host matrix with its inverse, the mean axis scale, the mesh's radius, the update flags and no host matrix. |
| Queries.ValidateCollisionParts | src/SuperMarioGalaxy/Collision.ts:665-668 | The part is appended to its zone in its own keeper (created if missing) and marked validated; no other slot changes. The zone's volume grows by the part's cube (`AddedVolume` of the old volume, or of the initial volume of a new zone). |
| Queries.InvalidateCollisionParts | src/SuperMarioGalaxy/Collision.ts:670-673 | The part's first occurrence is dropped from its zone when the zone exists, the zone's volume stays as it was, and the part is marked not validated. |
| Queries.LendToGlobal | src/SuperMarioGalaxy/Collision.ts:558-576 | Adding the part to the global zone and then removing it leaves the old list with the part's first occurrence dropped and the part appended. The list is unchanged when the part was absent, and no other slot changes. The global zone's volume is `AddedVolume` of its old volume, which leaves an unbounded volume as it was. |
| Queries.Binder.constructor | src/SuperMarioGalaxy/Collision.ts:552-556 | A fresh hit array of the given capacity, cleared, with no extra part. |
| Queries.Binder.Clear | src/SuperMarioGalaxy/Collision.ts:581-586 | The hit count becomes 0, and the floor, wall and roof distances become -99999. |
| Queries.Binder.SetExCollisionParts | src/SuperMarioGalaxy/Collision.ts:592-595 | The extra part is set, and the valid flag is true exactly when a part is given. |
| Queries.Binder.Bind | src/SuperMarioGalaxy/Collision.ts:558-576 | Without an extra part the map keeper's zone table, and its global zone's parts and volume, are unchanged. With one, the global zone ends as `LendToGlobal` leaves it, so the zone's parts are restored when the part was not listed before; its volume is `AddedVolume` of the old one, and no other zone slot changes. |

Behaviour of the code that its names and comments do not suggest, which the model follows:

- In `updateMtx`, the local the code calls `notMoved` is true when the staged matrix DIFFERS from the committed one. The counter counts moving frames, and a part that keeps moving stops committing after its first move (`Parts.MovingPartFreezesAtFirstMove`).
- The bounding radius is refreshed when the new scale is NEAR the old one, and it is set to the mesh's farthest vertex distance without being multiplied by the scale.
- `checkHitSegmentSphere` with a zero direction is false (`SegmentSphere.ZeroDirectionNeverHits`). Its far-end and start branches compare strictly and can miss a tangent segment.
- A part's line query bounds its loop by the buffer's length, not by the room left after `dstIdx`. A part with more accepted hits than free slots writes past the buffer, which the model reports as a fault (`BufferOverrun`).
- The keeper query's `maxStrikeInfos` parameter is never read.
- `forceCalcMinMaxAndRadius` is never set to true by this file. The forced path is modelled anyway (`Keepers.MovementZone`).
- `getFirstPolyOnLineCategory` starts from an infinite best distance. The model writes that start as `bestIdx == -1`. The `assert(bestIdx >= 0)` that fails when the triangle filter rejects every entry is the outcome `NoValidHit`.
- `calcMapGround` hands the module's scratch vector `scratchVec3c` to the line query as its direction, and `checkHitSegmentSphere` overwrites that vector with `center - p0` before reading the direction. The query's sphere tests then pass for every centre other than the start point, and each part casts toward its own centre instead of straight down. `MapGround` models this; `Queries.CalcMapGround` states the straight-down probe (see "## Findings").
- `makeEqualScale`'s `throw "whoops"` branch cannot be reached, because the three scale types are the only values.

## Left out

- Matrix and vector arithmetic: `mat4.equals`, `mat4.invert`, `mat4.getScaling`, `mat4.scale`, the `transformVec3Mat4w1`/`w0` transforms, `getMatrixTranslation`, and the AABB's `containsSphere`, `centerPoint` and diagonal. They live in other files and compute in floating point, so they are parameters of the model (`Numerics`). Geometry.ts, MathHelpers.ts and util.ts are not part of this model. Three of their routines are modelled concretely from their assumed behaviour: `AABB.unionPoint` (Geometry.ts) as `Vectors.UnionPoint`, growing the box where the point lies strictly outside and reporting whether it did; `isNearZero` (MathHelpers.ts) as `Vectors.IsNearZero`, taken as `-eps < v < eps`; and `arrayRemoveIfExist` (util.ts) as `Zones.RemoveFirst`, taken as removing the first occurrence.
- The mesh server (`KCollisionServer`: KCL parsing, `checkArrow`, prism data, `calcFarthestVertexDistance`) is not part of this model. It is a parameter (`MeshServer`): the arrow cast's results and the prisms are given as functions.
- SegmentSphere.CheckHitSegmentSphere: the unit direction written into `dstDirection` is not modelled. It needs a square root and a normalisation, and no caller in this file passes a destination.
- `isFloorPolygon`: it needs the vector zero test from MathHelpers.ts, so only `isFloorPolygonAngle` is modelled.
- Resource and scene plumbing are not modelled: `createCollisionParts`, `createCollisionPartsFromLiveActor` (except the host-matrix assignment, `SetHostMtx`), the `sceneObjHolder.create` and `connectToScene` calls, `getAttributes`, and the debug drawing.
- `Triangle.copy` is not modelled separately: triangles are values here, so a copy is an assignment, carried by the `Hit` result.
- Binder: only its hit bookkeeping and its use of the global zone are modelled. The host-offset vector arithmetic in `bind` is left out, because its result is unused. `findBindedPos` is left out because its body is empty. `setTriangleFilter` and the host fields are left out.
- Triangle and parts filters are pure functions (`Option<Triangle -> bool>`, `Option<CollisionParts -> bool>`). A filter object whose answer depends on changing state is not modelled.
- Keepers.Keeper.Movement: the zones' volumes are stated only as keeping their kind (bounded or not), not as the exact sequence of rebuilds. The rebuild rule is stated for one listing of a part (`Keepers.MovementPart`), and for a zone only on the forced path (`Keepers.MovementZone`).
- Keepers.MovementZone: without a forced rebuild the zone's volume is stated only as keeping its kind; the volume after the walk depends on the order of the per-part rebuilds, which `Keepers.MovementPart` states one listing at a time.
- Parts.CollisionParts.SetMtxFromHost, Parts.CollisionParts.ResetAllMtxFromHost, Parts.CollisionParts.UpdateBoundingSphereRangeFromHostMtx, Parts.CollisionParts.ForceResetAllMtxAndSetUpdateMtxOneTime: each requires a host matrix. On a part without one the source fails: `assertExists` throws in `resetAllMtxFromHost` (Collision.ts:238), and `this.hostMtx!` in `setMtxFromHost`, `forceResetAllMtxAndSetUpdateMtxOneTime` and `updateBoundingSphereRangeFromHostMtx` (Collision.ts:131, :169 and :223) hands null to gl-matrix, which throws a TypeError. That failure path is not modelled.
- Keepers.Director.Movement: the director's `NameObj.movement` base call is outside this file and is not modelled. Zone volumes are stated only as keeping their kind, as for `Keepers.Keeper.Movement`, not as the exact rebuilds.
- Parts.CollisionParts.UpdateBoundingSphereRangeFromHostMtx: the host matrix is a value here. The source rescales the host's own matrix object in place, and that aliasing with the host actor is not modelled.
- The line query's specification is stated over views of the parts taken when the query starts (`LineQuery.ZoneViews`). The query changes no part, so the views are what the loops read.
- Floating-point rounding, NaN and infinities are not modelled, except the zero-direction case of the segment test and the infinite start of the nearest-hit scan.

## Findings

| source | as written | input that shows it | evidently intended | confidence | as-written member | corrected member |
|---|---|---|---|---|---|---|
| src/SuperMarioGalaxy/Collision.ts:648-651 | `calcMapGround` passes the scratch vector `scratchVec3c` as the query direction. `checkHitSegmentSphere` writes `center - p0` into the same vector (:351) before it reads the direction. Every sphere test after that passes unless the centre is the start point, and each part casts toward its own centre (:491). | start p0, height 10, one validated part in zone 0 centred 5 below p0 with radius 3, identity transforms, a floor 7 below p0 | a probe straight down by `height` | high; not executed | MapGround.AsWrittenMissesFloor | Queries.CalcMapGround |
