/** A collision part: one collision mesh placed in the world by a transform.
    The part stages a new transform every frame and commits it (with its
    inverse) according to a small counter-driven state machine; line
    queries against the part run in the mesh's local space and write their
    hits into a shared buffer. */
module Parts {
  import opened Vectors
  import opened ScalePolicy

  /** The number of keepers (collision categories) of the director. */
  const KeeperCount := 4

  type KeeperIndex = i: nat | i < KeeperCount

  /** `HitSensor`: only its identity and the actor it belongs to are used. */
  datatype HitSensor = HitSensor(sensorId: nat, actor: nat)

  /** One result of the mesh server's arrow cast: the index of the prism hit
      and the distance along the local-space arrow. */
  datatype Candidate = Candidate(prismIdx: nat, distance: real)

  /** A prism's triangle and face normal in the mesh's local space. */
  datatype Prism = Prism(p0: Vec3, p1: Vec3, p2: Vec3, normal: Vec3)

  /** `KCollisionServer`, whose spatial search is not part of this model.
      `checkArrow(max, p, dir)` yields the prisms the arrow hits, in the
      order the server reports them, up to the first empty result slot. */
  datatype MeshServer = MeshServer(
    farthestVertexDistance: real,
    checkArrow: (nat, Vec3, Vec3) -> seq<Candidate>,
    prism: nat -> Prism)

  /** `Triangle`: a world-space triangle and where it came from. */
  datatype Triangle = Triangle(
    parts: CollisionParts?,
    prismIdx: Option<nat>,
    hitSensor: Option<HitSensor>,
    pos0: Vec3, pos1: Vec3, pos2: Vec3,
    faceNormal: Vec3)

  const BlankTriangle := Triangle(null, None, None, Zero, Zero, Zero, Zero)

  /** `HitInfo`: a triangle together with the point where a line struck it
      and the distance along the line. */
  datatype HitInfo = HitInfo(tri: Triangle, strikeLoc: Vec3, distance: real)

  const BlankHitInfo := HitInfo(BlankTriangle, Zero, -1.0)

  /** How a buffer-writing query ends: with the number of entries written,
      or with the fault the source raises when it indexes past the end of
      the buffer (`hitInfo[dstIdx]` is undefined and `fillData` throws). */
  datatype StrikeResult = Written(count: nat) | Faulted

  /** The transform-related state of a part. */
  datatype MtxState = MtxState(
    newWorld: Mat4, world: Mat4, oldWorld: Mat4, invWorld: Mat4,
    notMovedCounter: nat, scale: real, radius: real,
    setUpdateMtx: bool, setUpdateMtxOneTime: bool)

  predicate UpdatesEnabled(s: MtxState)
  {
    s.setUpdateMtx || s.setUpdateMtxOneTime
  }

  /** `updateMtx`, as the source is written. The local the source calls
      `notMoved` is true when the staged matrix DIFFERS from the committed
      one; the counter counts such frames, and a commit happens only while
      the counter is below 2. When the matrices agree, the staged matrix is
      brought to a uniform scale, and the bounding radius is refreshed when
      the new scale is near the old one. */
  function UpdateMtxStep(nm: Numerics, t: ScaleType, farthest: real, s: MtxState): MtxState
  {
    var differ := !nm.equals(s.newWorld, s.world);
    if UpdatesEnabled(s) then
      var s1 :=
        if differ then s.(notMovedCounter := s.notMovedCounter + 1)
        else
          var es := MakeEqualScale(nm, t, s.newWorld);
          var s0 := s.(notMovedCounter := if s.setUpdateMtxOneTime then 1 else 0, newWorld := es.1);
          if IsNearZero(es.0 - s.scale, 0.001) then s0.(scale := es.0, radius := farthest) else s0;
      var s2 := s1.(setUpdateMtxOneTime := false);
      if s2.notMovedCounter < 2 then
        s2.(oldWorld := s.world, world := s2.newWorld, invWorld := InvertInto(nm, s2.newWorld, s.invWorld))
      else s2
    else if differ then s.(notMovedCounter := s.notMovedCounter + 1)
    else s
  }

  /** The counter: with updates enabled it counts a differing frame and is
      reset to 0 (1 after a forced reset) by an agreeing one; with updates
      disabled it counts differing frames and nothing else changes. */
  lemma UpdateMtxCounter(nm: Numerics, t: ScaleType, farthest: real, s: MtxState)
    ensures var r := UpdateMtxStep(nm, t, farthest, s);
      var differ := !nm.equals(s.newWorld, s.world);
      && (UpdatesEnabled(s) && differ ==> r.notMovedCounter == s.notMovedCounter + 1)
      && (UpdatesEnabled(s) && !differ ==> r.notMovedCounter == if s.setUpdateMtxOneTime then 1 else 0)
      && (!UpdatesEnabled(s) ==> r == s.(notMovedCounter := if differ then s.notMovedCounter + 1 else s.notMovedCounter))
  {
  }

  /** The commit: the old transform takes the committed one, the committed
      one takes the staged one and the inverse is recomputed exactly when
      updates are enabled and the new counter is below 2; the one-time flag
      is always cleared by an enabled update, and `setUpdateMtx` never
      changes. */
  lemma UpdateMtxCommit(nm: Numerics, t: ScaleType, farthest: real, s: MtxState)
    ensures var r := UpdateMtxStep(nm, t, farthest, s);
      && (UpdatesEnabled(s) && r.notMovedCounter < 2 ==>
            r.oldWorld == s.world && r.world == r.newWorld && r.invWorld == InvertInto(nm, r.newWorld, s.invWorld))
      && (!(UpdatesEnabled(s) && r.notMovedCounter < 2) ==>
            r.oldWorld == s.oldWorld && r.world == s.world && r.invWorld == s.invWorld)
      && (UpdatesEnabled(s) ==> !r.setUpdateMtxOneTime)
      && r.setUpdateMtx == s.setUpdateMtx
  {
  }

  /** The scale bookkeeping: only an enabled update whose matrices agree
      touches the staged matrix (bringing it to a uniform scale), and it
      refreshes the scale and the radius (to the mesh's farthest vertex
      distance, not multiplied by the scale) exactly when the new scale is
      near the old one. */
  lemma UpdateMtxScale(nm: Numerics, t: ScaleType, farthest: real, s: MtxState)
    ensures var r := UpdateMtxStep(nm, t, farthest, s);
      var agreeing := UpdatesEnabled(s) && nm.equals(s.newWorld, s.world);
      var es := MakeEqualScale(nm, t, s.newWorld);
      && r.newWorld == (if agreeing then es.1 else s.newWorld)
      && (agreeing && IsNearZero(es.0 - s.scale, 0.001) ==> r.scale == es.0 && r.radius == farthest)
      && (!(agreeing && IsNearZero(es.0 - s.scale, 0.001)) ==> r.scale == s.scale && r.radius == s.radius)
  {
  }

  /** Frame after frame: stage each matrix (`setMtx`), then `updateMtx`. */
  function Run(nm: Numerics, t: ScaleType, farthest: real, s: MtxState, frames: seq<Mat4>): MtxState
    decreases |frames|
  {
    if |frames| == 0 then s
    else Run(nm, t, farthest, UpdateMtxStep(nm, t, farthest, s.(newWorld := frames[0])), frames[1..])
  }

  /** `n` calls of `updateMtx` with no new matrix staged in between. */
  function Updates(nm: Numerics, t: ScaleType, farthest: real, s: MtxState, n: nat): MtxState
  {
    if n == 0 then s else UpdateMtxStep(nm, t, farthest, Updates(nm, t, farthest, s, n - 1))
  }

  /** Running `a` updates and then `b` more is running `a + b`. */
  lemma {:induction false} UpdatesAdd(nm: Numerics, t: ScaleType, farthest: real, s: MtxState, a: nat, b: nat)
    ensures Updates(nm, t, farthest, Updates(nm, t, farthest, s, a), b) == Updates(nm, t, farthest, s, a + b)
  {
    if b > 0 {
      UpdatesAdd(nm, t, farthest, s, a, b - 1);
    }
  }

  /** Once the counter has reached 2, a part whose staged matrix keeps
      differing from its committed one never commits again: the committed,
      old and inverse transforms stay put and the counter counts the frames. */
  lemma {:induction false} MovingPartStaysFrozen(nm: Numerics, t: ScaleType, farthest: real, s: MtxState, frames: seq<Mat4>)
    requires s.notMovedCounter >= 2
    requires forall i :: 0 <= i < |frames| ==> !nm.equals(frames[i], s.world)
    ensures var r := Run(nm, t, farthest, s, frames);
      && r.world == s.world && r.oldWorld == s.oldWorld && r.invWorld == s.invWorld
      && r.notMovedCounter == s.notMovedCounter + |frames|
    decreases |frames|
  {
    if |frames| > 0 {
      var s1 := UpdateMtxStep(nm, t, farthest, s.(newWorld := frames[0]));
      assert s1.world == s.world && s1.oldWorld == s.oldWorld && s1.invWorld == s.invWorld;
      assert s1.notMovedCounter == s.notMovedCounter + 1;
      forall i | 0 <= i < |frames[1..]|
        ensures !nm.equals(frames[1..][i], s1.world)
      {
        assert frames[1..][i] == frames[i + 1];
      }
      MovingPartStaysFrozen(nm, t, farthest, s1, frames[1..]);
    }
  }

  /** A part that moves every frame commits its first new transform and then
      freezes there: with updates enabled and the counter at 0, if the first
      staged matrix differs from the committed one and every later one
      differs from the first, the committed transform after the whole run is
      the first staged matrix. */
  lemma {:induction false} MovingPartFreezesAtFirstMove(nm: Numerics, t: ScaleType, farthest: real, s: MtxState, frames: seq<Mat4>)
    requires UpdatesEnabled(s) && s.notMovedCounter == 0
    requires |frames| >= 2
    requires !nm.equals(frames[0], s.world)
    requires forall i :: 1 <= i < |frames| ==> !nm.equals(frames[i], frames[0])
    ensures var r := Run(nm, t, farthest, s, frames);
      r.world == frames[0] && r.oldWorld == s.world && r.notMovedCounter == |frames|
  {
    var s1 := UpdateMtxStep(nm, t, farthest, s.(newWorld := frames[0]));
    assert s1.notMovedCounter == 1 && s1.world == frames[0] && s1.oldWorld == s.world;
    var s2 := UpdateMtxStep(nm, t, farthest, s1.(newWorld := frames[1]));
    assert s2.notMovedCounter == 2 && s2.world == frames[0] && s2.oldWorld == s.world;
    assert Run(nm, t, farthest, s, frames) == Run(nm, t, farthest, s1, frames[1..]);
    assert Run(nm, t, farthest, s1, frames[1..]) == Run(nm, t, farthest, s2, frames[2..]);
    forall i | 0 <= i < |frames[2..]|
      ensures !nm.equals(frames[2..][i], s2.world)
    {
      assert frames[2..][i] == frames[i + 2];
    }
    MovingPartStaysFrozen(nm, t, farthest, s2, frames[2..]);
  }

  /** A part whose staged matrix agrees with its committed one commits it
      (brought to a uniform scale) every frame, with the counter at 0 or 1. */
  lemma StationaryPartCommits(nm: Numerics, t: ScaleType, farthest: real, s: MtxState, m: Mat4)
    requires UpdatesEnabled(s) && nm.equals(m, s.world)
    ensures var r := Run(nm, t, farthest, s, [m]);
      && r.world == MakeEqualScale(nm, t, m).1 && r.oldWorld == s.world
      && r.notMovedCounter <= 1
  {
    assert Run(nm, t, farthest, s, [m]) == UpdateMtxStep(nm, t, farthest, s.(newWorld := m));
  }

  // ---- Writing line hits into a shared buffer ----

  /** What a part's line query needs: the part, its sensor, mesh and
      committed transform, the line in the part's local space, and the
      triangle filter (`isInvalidTriangle`). */
  datatype StrikeContext = StrikeContext(
    parts: CollisionParts,
    sensor: HitSensor,
    server: MeshServer,
    world: Mat4,
    nm: Numerics,
    localP0: Vec3,
    localDir: Vec3,
    triFilter: Option<Triangle -> bool>)

  /** `Triangle.fillData`: the prism's triangle and normal, carried to world
      space, tagged with the part, the prism and the sensor. */
  function FillData(ctx: StrikeContext, prismIdx: nat): (r: Triangle)
    ensures r.parts == ctx.parts && r.prismIdx == Some(prismIdx) && r.hitSensor == Some(ctx.sensor)
  {
    var pr := ctx.server.prism(prismIdx);
    Triangle(ctx.parts, Some(prismIdx), Some(ctx.sensor),
             ctx.nm.transformPoint(ctx.world, pr.p0),
             ctx.nm.transformPoint(ctx.world, pr.p1),
             ctx.nm.transformPoint(ctx.world, pr.p2),
             ctx.nm.transformDir(ctx.world, pr.normal))
  }

  predicate Rejects(ctx: StrikeContext, tri: Triangle)
  {
    ctx.triFilter.Some? && ctx.triFilter.value(tri)
  }

  /** The entry a kept candidate produces: the strike point is the local
      point at the candidate's distance, carried to world space; the
      distance is the local one. */
  function HitOf(ctx: StrikeContext, c: Candidate): HitInfo
  {
    HitInfo(FillData(ctx, c.prismIdx),
            ctx.nm.transformPoint(ctx.world, PointAt(ctx.localP0, ctx.localDir, c.distance)),
            c.distance)
  }

  /** Reference definition: the entries the candidates that pass the filter
      produce, in candidate order. */
  function Accepted(ctx: StrikeContext, cands: seq<Candidate>): (r: seq<HitInfo>)
    ensures |r| <= |cands|
    ensures forall h :: h in r ==> h.tri.parts == ctx.parts && !Rejects(ctx, h.tri)
    decreases |cands|
  {
    if |cands| == 0 then []
    else
      var c := cands[|cands| - 1];
      var init := Accepted(ctx, cands[..|cands| - 1]);
      if Rejects(ctx, FillData(ctx, c.prismIdx)) then init else init + [HitOf(ctx, c)]
  }

  /** The buffer, the next slot to write and whether the query faulted. */
  datatype Fill = Fill(slots: seq<HitInfo>, next: nat, faulted: bool)

  /** One candidate of the loop of `CollisionParts.checkStrikeLine`. The
      triangle is written into the next slot BEFORE the filter is asked, so
      a rejected candidate overwrites that slot's triangle without
      advancing. Writing past the end faults. */
  function FillStep(ctx: StrikeContext, f: Fill, c: Candidate): Fill
  {
    if f.faulted then f
    else if f.next >= |f.slots| then f.(faulted := true)
    else
      var tri := FillData(ctx, c.prismIdx);
      if Rejects(ctx, tri) then f.(slots := f.slots[f.next := f.slots[f.next].(tri := tri)])
      else f.(slots := f.slots[f.next := HitOf(ctx, c)], next := f.next + 1)
  }

  function FillAll(ctx: StrikeContext, slots: seq<HitInfo>, dst: nat, cands: seq<Candidate>): (r: Fill)
    ensures |r.slots| == |slots| && r.next >= dst
    decreases |cands|
  {
    if |cands| == 0 then Fill(slots, dst, false)
    else FillStep(ctx, FillAll(ctx, slots, dst, cands[..|cands| - 1]), cands[|cands| - 1])
  }

  /** The loop has reached `f` after the candidates `cands`. The equation is
      stated for every candidate list equal to `cands`, so that a proof which
      only hands the fact on does not expand `FillAll`. */
  predicate FilledTo(ctx: StrikeContext, slots: seq<HitInfo>, dst: nat, cands: seq<Candidate>, f: Fill)
  {
    forall cs :: cs == cands ==> FillAll(ctx, slots, dst, cs) == f
  }

  /** One more candidate is one more `FillStep`. */
  lemma FillAllStep(ctx: StrikeContext, slots: seq<HitInfo>, dst: nat, cands: seq<Candidate>, i: nat)
    requires i < |cands|
    ensures FillAll(ctx, slots, dst, cands[..i + 1]) == FillStep(ctx, FillAll(ctx, slots, dst, cands[..i]), cands[i])
  {
    assert cands[..i + 1][..i] == cands[..i];
  }

  /** Without a fault, the query writes exactly the accepted entries, in
      order, into the slots from `dst` on, and the count is their number. */
  lemma {:induction false} FillWritesAccepted(ctx: StrikeContext, slots: seq<HitInfo>, dst: nat, cands: seq<Candidate>)
    ensures var r := FillAll(ctx, slots, dst, cands);
      && (!r.faulted ==> r.next == dst + |Accepted(ctx, cands)|)
      && (!r.faulted && dst <= |slots| ==> r.next <= |slots| && r.slots[dst..r.next] == Accepted(ctx, cands))
    decreases |cands|
  {
    if |cands| > 0 {
      var init := cands[..|cands| - 1];
      FillWritesAccepted(ctx, slots, dst, init);
    }
  }

  /** Slots before `dst` and after the next free slot are left alone, and
      the next free slot keeps its strike point and distance (only its
      triangle may have been overwritten by a rejected candidate). */
  lemma {:induction false} FillLeavesOtherSlots(ctx: StrikeContext, slots: seq<HitInfo>, dst: nat, cands: seq<Candidate>)
    ensures var r := FillAll(ctx, slots, dst, cands);
      && (forall k :: 0 <= k < |slots| && (k < dst || k > r.next) ==> r.slots[k] == slots[k])
      && (r.next < |slots| ==>
            r.slots[r.next].strikeLoc == slots[r.next].strikeLoc && r.slots[r.next].distance == slots[r.next].distance)
    decreases |cands|
  {
    if |cands| > 0 {
      FillLeavesOtherSlots(ctx, slots, dst, cands[..|cands| - 1]);
    }
  }

  /** The query faults exactly when, on reaching its last candidate, the
      entries accepted so far already fill the buffer from `dst` on: the
      loop is bounded by the buffer's length, not by the room left. */
  lemma {:induction false} FillFaultsIff(ctx: StrikeContext, slots: seq<HitInfo>, dst: nat, cands: seq<Candidate>)
    ensures FillAll(ctx, slots, dst, cands).faulted <==>
      |cands| > 0 && dst + |Accepted(ctx, cands[..|cands| - 1])| >= |slots|
    decreases |cands|
  {
    if |cands| > 0 {
      var init := cands[..|cands| - 1];
      FillWritesAccepted(ctx, slots, dst, init);
      if |init| > 0 {
        FillFaultsIff(ctx, slots, dst, init);
        assert |Accepted(ctx, init[..|init| - 1])| <= |Accepted(ctx, init)|;
      }
    }
  }

  /** Enough room for every candidate rules the fault out. */
  lemma NoFaultWithRoom(ctx: StrikeContext, slots: seq<HitInfo>, dst: nat, cands: seq<Candidate>)
    requires dst + |cands| <= |slots|
    ensures !FillAll(ctx, slots, dst, cands).faulted
  {
    FillFaultsIff(ctx, slots, dst, cands);
  }

  /** Once faulted, later candidates change nothing. */
  lemma {:induction false} FaultPersists(ctx: StrikeContext, slots: seq<HitInfo>, dst: nat, cands: seq<Candidate>, k: nat)
    requires k <= |cands| && FillAll(ctx, slots, dst, cands[..k]).faulted
    ensures FillAll(ctx, slots, dst, cands) == FillAll(ctx, slots, dst, cands[..k])
    decreases |cands| - k
  {
    if k < |cands| {
      assert cands[..k + 1][..k] == cands[..k];
      assert FillAll(ctx, slots, dst, cands[..k + 1]) == FillAll(ctx, slots, dst, cands[..k]);
      FaultPersists(ctx, slots, dst, cands, k + 1);
    } else {
      assert cands[..k] == cands;
    }
  }

  /** What a line query reads of a part, taken at one moment: the part, its
      validated flag, its committed transform and that transform's inverse,
      and its bounding radius. */
  datatype PartView = PartView(parts: CollisionParts, validated: bool, world: Mat4, invWorld: Mat4, radius: real)

  /** `getTrans` of a viewed part. */
  function ViewTranslation(nm: Numerics, v: PartView): Vec3
  {
    nm.translation(v.world)
  }

  /** The context of a line query from `p0` along `dir` against a viewed
      part: the line is carried into the part's local space. */
  function ViewContext(v: PartView, nm: Numerics, p0: Vec3, dir: Vec3, triFilter: Option<Triangle -> bool>): StrikeContext
  {
    StrikeContext(v.parts, v.parts.hitSensor, v.parts.server, v.world, nm,
                  nm.transformPoint(v.invWorld, p0), nm.transformDir(v.invWorld, dir), triFilter)
  }

  /** The candidates the query's loop visits: the arrow cast's results, at
      most `capacity` of them (the loop stops at the buffer's length, or at
      the first empty result). */
  function Considered(ctx: StrikeContext, capacity: nat): (r: seq<Candidate>)
    ensures |r| <= capacity
  {
    var cs := ctx.server.checkArrow(capacity, ctx.localP0, ctx.localDir);
    if |cs| <= capacity then cs else cs[..capacity]
  }

  /** The loop of `CollisionParts.checkStrikeLine` over the candidates: it
      writes the hits that pass the triangle filter from `dstIdx` on. */
  method FillBuffer(ctx: StrikeContext, hitInfo: array<HitInfo>, dstIdx: nat, cands: seq<Candidate>) returns (res: StrikeResult)
    requires |cands| <= hitInfo.Length
    modifies hitInfo
    ensures var f := FillAll(ctx, old(hitInfo[..]), dstIdx, cands);
      hitInfo[..] == f.slots && res == (if f.faulted then Faulted else Written(f.next - dstIdx))
  {
    ghost var init := hitInfo[..];
    var dst: nat := dstIdx;
    var i := 0;
    while i < hitInfo.Length && i < |cands|
      invariant 0 <= i <= |cands|
      invariant dstIdx <= dst
      invariant FilledTo(ctx, init, dstIdx, cands[..i], Fill(hitInfo[..], dst, false))
    {
      FillAllStep(ctx, init, dstIdx, cands, i);
      if dst >= hitInfo.Length {
        FaultPersists(ctx, init, dstIdx, cands, i + 1);
        return Faulted;
      }
      dst := FillSlot(ctx, hitInfo, dst, cands[i]);
      i := i + 1;
    }
    assert cands[..i] == cands;
    return Written(dst - dstIdx);
  }

  /** One candidate of that loop, with room in the buffer. The triangle is
      written into the slot before the filter is asked; only an accepted
      candidate fills the slot's strike point and distance and advances. */
  method FillSlot(ctx: StrikeContext, hitInfo: array<HitInfo>, dst: nat, c: Candidate) returns (next: nat)
    requires dst < hitInfo.Length
    modifies hitInfo
    ensures Fill(hitInfo[..], next, false) == FillStep(ctx, Fill(old(hitInfo[..]), dst, false), c)
  {
    var tri := FillData(ctx, c.prismIdx);
    if Rejects(ctx, tri) {
      hitInfo[dst] := hitInfo[dst].(tri := tri);
      return dst;
    }
    // The triangle, strike point and distance end up in the slot together.
    hitInfo[dst] := HitOf(ctx, c);
    return dst + 1;
  }

  /** `CollisionParts`: a collision mesh placed in the world. */
  class CollisionParts {
    const hitSensor: HitSensor
    const server: MeshServer
    const keeperIdx: KeeperIndex
    const scaleType: ScaleType
    /** The id of the zone the part belongs to. */
    const zoneId: nat

    var validated: bool
    var hostMtx: Option<Mat4>
    var newWorldMtx: Mat4
    var invWorldMtx: Mat4
    var worldMtx: Mat4
    var oldWorldMtx: Mat4
    var notMovedCounter: nat
    var scale: real
    var boundingSphereRadius: real
    var setUpdateMtx: bool
    var setUpdateMtxOneTime: bool

    function State(): MtxState
      reads this
    {
      MtxState(newWorldMtx, worldMtx, oldWorldMtx, invWorldMtx, notMovedCounter,
               scale, boundingSphereRadius, setUpdateMtx, setUpdateMtxOneTime)
    }

    /** `getTrans`: the translation of the committed transform. */
    function Translation(nm: Numerics): Vec3
      reads this
    {
      nm.translation(worldMtx)
    }

    /** The constructor: every transform starts at the initial host matrix,
        the scale is the mean axis scale of that matrix and the radius the
        mesh's farthest vertex distance. Looking up the zone is done by the
        caller (see `Queries.NewCollisionParts`). */
    constructor(nm: Numerics, zoneId: nat, initialHostMtx: Mat4, hitSensor: HitSensor,
                server: MeshServer, keeperIdx: KeeperIndex, scaleType: ScaleType)
      ensures this.zoneId == zoneId && this.hitSensor == hitSensor && this.server == server
      ensures this.keeperIdx == keeperIdx && this.scaleType == scaleType
      ensures !validated && hostMtx == None
      ensures newWorldMtx == initialHostMtx && oldWorldMtx == initialHostMtx && worldMtx == initialHostMtx
      ensures invWorldMtx == InvertInto(nm, initialHostMtx, Identity)
      ensures notMovedCounter == 0 && setUpdateMtx && !setUpdateMtxOneTime
      ensures scale == AvgScale(nm.getScaling(initialHostMtx))
      ensures boundingSphereRadius == server.farthestVertexDistance
    {
      this.zoneId := zoneId;
      this.hitSensor := hitSensor;
      this.server := server;
      this.keeperIdx := keeperIdx;
      this.scaleType := scaleType;
      validated := false;
      hostMtx := None;
      notMovedCounter := 0;
      setUpdateMtx := true;
      setUpdateMtxOneTime := false;
      newWorldMtx := initialHostMtx;
      oldWorldMtx := initialHostMtx;
      worldMtx := initialHostMtx;
      invWorldMtx := InvertInto(nm, initialHostMtx, Identity);
      scale := AvgScale(nm.getScaling(initialHostMtx));
      boundingSphereRadius := server.farthestVertexDistance;
    }

    /** `setMtx`: stage a transform. */
    method SetMtx(m: Mat4)
      modifies this`newWorldMtx
      ensures newWorldMtx == m
    {
      newWorldMtx := m;
    }

    /** `resetAllMtx`: stage, commit and remember `m` at once. */
    method ResetAllMtx(nm: Numerics, m: Mat4)
      modifies this`newWorldMtx, this`oldWorldMtx, this`worldMtx, this`invWorldMtx
      ensures newWorldMtx == m && oldWorldMtx == m && worldMtx == m
      ensures invWorldMtx == InvertInto(nm, m, old(invWorldMtx))
    {
      newWorldMtx := m;
      oldWorldMtx := m;
      worldMtx := m;
      invWorldMtx := InvertInto(nm, m, invWorldMtx);
    }

    /** `forceResetAllMtxAndSetUpdateMtxOneTime`: reset every transform to a
        uniformly scaled copy of the host matrix and ask for one update even
        when updates are off. The host matrix itself is not touched. */
    method ForceResetAllMtxAndSetUpdateMtxOneTime(nm: Numerics)
      requires hostMtx.Some?
      modifies this`newWorldMtx, this`oldWorldMtx, this`worldMtx, this`invWorldMtx, this`setUpdateMtxOneTime
      ensures var m := MakeEqualScale(nm, scaleType, hostMtx.value).1;
        newWorldMtx == m && oldWorldMtx == m && worldMtx == m
        && invWorldMtx == InvertInto(nm, m, old(invWorldMtx))
      ensures setUpdateMtxOneTime
    {
      var m := MakeEqualScale(nm, scaleType, hostMtx.value).1;
      ResetAllMtx(nm, m);
      setUpdateMtxOneTime := true;
    }

    /** Attach the host's matrix, as the creation helper for an actor does
        when it is given one. */
    method SetHostMtx(m: Mat4)
      modifies this`hostMtx
      ensures hostMtx == Some(m)
    {
      hostMtx := Some(m);
    }

    /** `setMtxFromHost`: stage the host matrix. */
    method SetMtxFromHost()
      requires hostMtx.Some?
      modifies this`newWorldMtx
      ensures newWorldMtx == hostMtx.value
    {
      newWorldMtx := hostMtx.value;
    }

    /** `resetAllMtxFromHost`: reset every transform to a uniformly scaled
        copy of the host matrix; the host matrix itself is not touched. */
    method ResetAllMtxFromHost(nm: Numerics)
      requires hostMtx.Some?
      modifies this`newWorldMtx, this`oldWorldMtx, this`worldMtx, this`invWorldMtx
      ensures var m := MakeEqualScale(nm, scaleType, hostMtx.value).1;
        newWorldMtx == m && oldWorldMtx == m && worldMtx == m
        && invWorldMtx == InvertInto(nm, m, old(invWorldMtx))
    {
      var m := MakeEqualScale(nm, scaleType, hostMtx.value).1;
      ResetAllMtx(nm, m);
    }

    /** `updateBoundingSphereRangeFromHostMtx`: the scale becomes the
        policy's scale of the host matrix and the radius the mesh's farthest
        vertex distance. Here `makeEqualScale` works on the host matrix
        itself, so the host matrix is rescaled in place. */
    method UpdateBoundingSphereRangeFromHostMtx(nm: Numerics)
      requires hostMtx.Some?
      modifies this`hostMtx, this`scale, this`boundingSphereRadius
      ensures var es := MakeEqualScale(nm, scaleType, old(hostMtx.value));
        scale == es.0 && hostMtx == Some(es.1)
      ensures boundingSphereRadius == server.farthestVertexDistance
    {
      var es := MakeEqualScale(nm, scaleType, hostMtx.value);
      hostMtx := Some(es.1);
      scale := es.0;
      boundingSphereRadius := server.farthestVertexDistance;
    }

    /** `s` after `n` calls of `updateMtx` on this part. */
    function Updated(nm: Numerics, s: MtxState, n: nat): MtxState
    {
      Updates(nm, scaleType, server.farthestVertexDistance, s, n)
    }

    /** `updateMtx`. */
    method UpdateMtx(nm: Numerics)
      modifies this`newWorldMtx, this`oldWorldMtx, this`worldMtx, this`invWorldMtx
      modifies this`notMovedCounter, this`scale, this`boundingSphereRadius, this`setUpdateMtxOneTime
      ensures State() == UpdateMtxStep(nm, scaleType, server.farthestVertexDistance, old(State()))
    {
      var notMoved := !nm.equals(newWorldMtx, worldMtx);
      if setUpdateMtx || setUpdateMtxOneTime {
        if notMoved {
          notMovedCounter := notMovedCounter + 1;
        } else {
          notMovedCounter := 0;
          if setUpdateMtxOneTime {
            notMovedCounter := 1;
          }
          var es := MakeEqualScale(nm, scaleType, newWorldMtx);
          newWorldMtx := es.1;
          if IsNearZero(es.0 - scale, 0.001) {
            scale := es.0;
            boundingSphereRadius := server.farthestVertexDistance;
          }
        }
        setUpdateMtxOneTime := false;
        if notMovedCounter < 2 {
          oldWorldMtx := worldMtx;
          worldMtx := newWorldMtx;
          invWorldMtx := InvertInto(nm, worldMtx, invWorldMtx);
        }
      } else {
        if notMoved {
          notMovedCounter := notMovedCounter + 1;
        }
      }
    }

    /** What a line query reads of this part. */
    function View(): PartView
      reads this
    {
      PartView(this, validated, worldMtx, invWorldMtx, boundingSphereRadius)
    }

    /** The context of a line query from `p0` along `dir`. */
    function Context(nm: Numerics, p0: Vec3, dir: Vec3, triFilter: Option<Triangle -> bool>): StrikeContext
      reads this
    {
      ViewContext(View(), nm, p0, dir, triFilter)
    }

    /** `checkStrikeLine`: cast the line in local space and write the hits
        that pass the triangle filter into `hitInfo` from `dstIdx` on. */
    method CheckStrikeLine(nm: Numerics, hitInfo: array<HitInfo>, dstIdx: nat, p0: Vec3, dir: Vec3,
                           triFilter: Option<Triangle -> bool>) returns (res: StrikeResult)
      modifies hitInfo
      ensures var ctx := Context(nm, p0, dir, triFilter);
        var f := FillAll(ctx, old(hitInfo[..]), dstIdx, Considered(ctx, hitInfo.Length));
        hitInfo[..] == f.slots && res == (if f.faulted then Faulted else Written(f.next - dstIdx))
    {
      var ctx := Context(nm, p0, dir, triFilter);
      var cands := Considered(ctx, hitInfo.Length);
      res := FillBuffer(ctx, hitInfo, dstIdx, cands);
    }
  }
}
