/** The categorized keeper: one per collision category, holding a sparse
    table of zones indexed by zone id, a fixed 32-entry hit buffer for line
    queries, and the per-frame movement pass over its parts. And the
    director, which owns one keeper per category. */
module Keepers {
  import opened Vectors
  import opened SegmentSphere
  import opened Parts
  import opened Zones
  import opened LineQuery
  import opened StrikeLine

  /** The length of a keeper's hit buffer. */
  const StrikeInfoCapacity := 32

  /** `n` empty slots of the zone table. */
  function Holes(n: nat): (r: seq<CollisionZone?>)
    ensures |r| == n && forall i :: 0 <= i < n ==> r[i] == null
  {
    seq(n, _ => null)
  }

  /** `CollisionCategorizedKeeper`. */
  class Keeper {
    const keeperIdx: nat
    const strikeInfo: array<HitInfo>
    var strikeInfoCount: nat
    var zones: seq<CollisionZone?>
    var forceCalcMinMaxAndRadius: bool

    /** Every occupied slot of the zone table holds the zone of that id, and
        the hit buffer has its fixed length. */
    predicate Valid()
      reads this`zones
    {
      && strikeInfo.Length == StrikeInfoCapacity
      && forall i :: 0 <= i < |zones| && zones[i] != null ==> zones[i].zoneId == i
    }

    /** The zone at `id`, or null. */
    function ZoneAt(id: nat): CollisionZone?
      reads this`zones
    {
      if id < |zones| then zones[id] else null
    }

    /** The parts the query from `p0` along `dir` reaches, as they are now. */
    function Selection(nm: Numerics, p0: Vec3, dir: Vec3, pf: Option<CollisionParts -> bool>): seq<PartView>
      reads this`zones, zones, PartSet(zones)
    {
      SelectZones(nm, QueryBox(p0, dir), p0, dir, pf, ZoneViews(zones))
    }

    constructor(keeperIdx: nat)
      ensures this.keeperIdx == keeperIdx && zones == [] && !forceCalcMinMaxAndRadius
      ensures strikeInfoCount == 0 && fresh(strikeInfo) && strikeInfo.Length == StrikeInfoCapacity
      ensures Valid()
    {
      this.keeperIdx := keeperIdx;
      strikeInfo := new HitInfo[StrikeInfoCapacity](_ => BlankHitInfo);
      strikeInfoCount := 0;
      zones := [];
      forceCalcMinMaxAndRadius := false;
    }

    /** `getZone`: the zone with id `id`, created in its slot (growing the
        table with empty slots as needed) when the slot is empty. */
    method GetZone(id: nat) returns (z: CollisionZone)
      requires Valid()
      modifies this`zones
      ensures Valid() && z.zoneId == id && ZoneAt(id) == z
      ensures |zones| == if id < |old(zones)| then |old(zones)| else id + 1
      ensures forall i :: 0 <= i < |zones| && i != id ==> zones[i] == old(ZoneAt(i))
      ensures old(ZoneAt(id)) != null ==> z == old(ZoneAt(id)) && zones == old(zones)
      ensures old(ZoneAt(id)) == null ==>
        fresh(z) && z.parts == [] && z.volume == if id > 0 then Bounded(Zero, -1.0, Empty) else Unbounded
    {
      if id < |zones| && zones[id] != null {
        return zones[id];
      }
      z := new CollisionZone(id);
      if id < |zones| {
        zones := zones[id := z];
      } else {
        zones := zones + Holes(id - |zones|) + [z];
      }
    }

    /** `addToZone`: append the part to the zone `id`, creating the zone
        first when its slot is empty. No other zone changes. */
    method AddToZone(nm: Numerics, p: CollisionParts, id: nat)
      requires Valid()
      modifies this`zones, if ZoneAt(id) == null then {} else {ZoneAt(id)}
      ensures Valid() && ZoneAt(id) != null
      ensures forall i :: 0 <= i < |zones| && i != id ==> zones[i] == old(ZoneAt(i))
      ensures old(ZoneAt(id)) != null ==> ZoneAt(id) == old(ZoneAt(id))
      ensures old(ZoneAt(id)) == null ==> fresh(ZoneAt(id))
      ensures ZoneAt(id).parts == (if old(ZoneAt(id)) == null then [] else old(ZoneAt(id).parts)) + [p]
      ensures var start := if old(ZoneAt(id)) == null then (if id > 0 then Bounded(Zero, -1.0, Empty) else Unbounded)
                           else old(ZoneAt(id).volume);
        ZoneAt(id).volume == AddedVolume(nm, start, p.Translation(nm), p.boundingSphereRadius)
    {
      var z := GetZone(id);
      z.AddParts(nm, p);
    }

    /** `removeFromZone`: drop the first occurrence of the part from zone
        `id`; nothing happens when there is no such zone. Only the list
        changes: the zone's box still holds the removed part's cube. */
    method RemoveFromZone(p: CollisionParts, id: nat)
      modifies (if ZoneAt(id) == null then {} else {ZoneAt(id)})`parts
      ensures ZoneAt(id) != null ==> ZoneAt(id).parts == RemoveFirst(old(ZoneAt(id).parts), p)
      ensures ZoneAt(id) != null ==> ZoneAt(id).volume == old(ZoneAt(id).volume)
    {
      if id < |zones| && zones[id] != null {
        zones[id].EraseParts(p);
      }
    }

    /** `addToGlobal`: register in the global zone 0. */
    method AddToGlobal(nm: Numerics, p: CollisionParts)
      requires Valid()
      modifies this`zones, if ZoneAt(0) == null then {} else {ZoneAt(0)}
      ensures Valid() && ZoneAt(0) != null
      ensures forall i :: 0 < i < |zones| ==> zones[i] == old(ZoneAt(i))
      ensures old(ZoneAt(0)) != null ==> ZoneAt(0) == old(ZoneAt(0))
      ensures old(ZoneAt(0)) == null ==> fresh(ZoneAt(0))
      ensures ZoneAt(0).parts == (if old(ZoneAt(0)) == null then [] else old(ZoneAt(0).parts)) + [p]
      ensures var start := if old(ZoneAt(0)) == null then Unbounded else old(ZoneAt(0).volume);
        ZoneAt(0).volume == AddedVolume(nm, start, p.Translation(nm), p.boundingSphereRadius)
    {
      AddToZone(nm, p, 0);
    }

    /** `removeFromGlobal`. */
    method RemoveFromGlobal(p: CollisionParts)
      modifies (if ZoneAt(0) == null then {} else {ZoneAt(0)})`parts
      ensures ZoneAt(0) != null ==> ZoneAt(0).parts == RemoveFirst(old(ZoneAt(0).parts), p)
      ensures ZoneAt(0) != null ==> ZoneAt(0).volume == old(ZoneAt(0).volume)
    {
      RemoveFromZone(p, 0);
    }

    /** `movement`: walk the zones in id order and each zone's parts in list
        order; every validated part of this keeper is updated once per
        listing, and zone volumes are kept or rebuilt (never given to or
        taken from the global zone). The force flag is cleared at the end. */
    method Movement(nm: Numerics)
      modifies this`forceCalcMinMaxAndRadius, zones`volume
      modifies PartSet(zones)`newWorldMtx, PartSet(zones)`oldWorldMtx, PartSet(zones)`worldMtx, PartSet(zones)`invWorldMtx
      modifies PartSet(zones)`notMovedCounter, PartSet(zones)`scale, PartSet(zones)`boundingSphereRadius
      modifies PartSet(zones)`setUpdateMtxOneTime
      ensures !forceCalcMinMaxAndRadius
      ensures forall i, p :: 0 <= i < |zones| && zones[i] != null && p in zones[i].parts ==>
        MovedBy(nm, keeperIdx, p.validated, p, old(p.State()), old(Visits(zones)), p.State())
      ensures forall i :: 0 <= i < |zones| && zones[i] != null ==>
        && zones[i].volume.Bounded? == old(zones[i].volume).Bounded?
        && (old(zones[i].volume).Unbounded? ==> zones[i].volume == old(zones[i].volume))
    {
      var force := forceCalcMinMaxAndRadius;
      ghost var walked: seq<CollisionParts> := [];
      for i := 0 to |zones|
        invariant walked == old(Visits(zones[..i]))
        invariant forall k, p :: 0 <= k < |zones| && zones[k] != null && p in zones[k].parts ==>
          MovedBy(nm, keeperIdx, p.validated, p, old(p.State()), walked, p.State())
        invariant forall k :: 0 <= k < |zones| && zones[k] != null ==>
          && zones[k].volume.Bounded? == old(zones[k].volume).Bounded?
          && (old(zones[k].volume).Unbounded? ==> zones[k].volume == old(zones[k].volume))
      {
        var z := zones[i];
        assert zones[..i + 1][..i] == zones[..i];
        if z == null {
          continue;
        }
        ZonePartsRegistered(zones, i);
        assert PartSet(zones) == old(PartSet(zones));
        label before:
        MovementZoneOfTable(nm, keeperIdx, force, zones, i, z);
        forall k, q | 0 <= k < |zones| && zones[k] != null && q in zones[k].parts
          ensures MovedBy(nm, keeperIdx, q.validated, q, old(q.State()), walked + z.parts, q.State())
        {
          ComposeUpdates(nm, keeperIdx, q.validated, q, old(q.State()), old@before(q.State()), q.State(), walked, z.parts);
        }
        walked := walked + z.parts;
      }
      assert zones[..|zones|] == zones;
      forceCalcMinMaxAndRadius := false;
    }

    /** `checkStrikeLine`: visit the zones in id order and their parts in
        list order, prune with the query box and the segment-sphere test,
        and let each remaining part write its hits after the previous ones;
        stop as soon as the buffer is full (the source's `break outer`). The
        query's count is stored in `strikeInfoCount` and returned. The
        optional `maxStrikeInfos` parameter of the source is never read and
        is not modelled. */
    method CheckStrikeLine(nm: Numerics, p0: Vec3, dir: Vec3, pf: Option<CollisionParts -> bool>,
                           tf: Option<Triangle -> bool>) returns (res: StrikeResult)
      requires Valid()
      modifies this`strikeInfoCount, strikeInfo
      ensures var k := Collect(nm, p0, dir, tf, old(strikeInfo[..]), old(Selection(nm, p0, dir, pf)));
        && strikeInfo[..] == k.slots
        && (k.faulted ==> res == Faulted && strikeInfoCount == old(strikeInfoCount))
        && (!k.faulted ==> res == Written(k.count) && strikeInfoCount == k.count)
    {
      var box := UnionPoint(Empty, p0).0;
      box := UnionPoint(box, Add(p0, dir)).0;
      ghost var zvs := ZoneViews(zones);
      var idx, faulted := StrikeLineZones(nm, box, p0, dir, pf, tf, strikeInfo, zones, zvs);
      if faulted {
        return Faulted;
      }
      strikeInfoCount := idx;
      res := Written(idx);
    }
  }

  /** How often the movement pass calls `updateMtx` on `p` while it walks
      `ps`: once per listing, when the part is validated and belongs to the
      keeper. */
  function UpdateCount(keeperIdx: nat, validated: bool, p: CollisionParts, ps: seq<CollisionParts>): nat
  {
    if validated && p.keeperIdx == keeperIdx then multiset(ps)[p] else 0
  }

  /** Part `p` went from `s0` to `s` while a movement pass walked `walk`:
      it took `UpdateCount` updates. The equation is stated for every walk
      equal to `walk`, so that a proof which only hands the fact on does not
      expand the updates. */
  predicate MovedBy(nm: Numerics, keeperIdx: nat, validated: bool, p: CollisionParts, s0: MtxState,
                    walk: seq<CollisionParts>, s: MtxState)
  {
    forall w {:trigger p.Updated(nm, s0, UpdateCount(keeperIdx, validated, p, w))} ::
      w == walk ==> s == p.Updated(nm, s0, UpdateCount(keeperIdx, validated, p, w))
  }

  /** Walking two lists one after the other adds up the updates. */
  lemma UpdateCountAppend(keeperIdx: nat, validated: bool, p: CollisionParts, a: seq<CollisionParts>, b: seq<CollisionParts>)
    ensures UpdateCount(keeperIdx, validated, p, a + b) ==
      UpdateCount(keeperIdx, validated, p, a) + UpdateCount(keeperIdx, validated, p, b)
  {
  }

  /** The updates of two walks one after the other are the updates of the
      walk over both lists. */
  lemma ComposeUpdates(nm: Numerics, keeperIdx: nat, validated: bool, q: CollisionParts, s0: MtxState, s1: MtxState, s2: MtxState,
                       a: seq<CollisionParts>, b: seq<CollisionParts>)
    requires MovedBy(nm, keeperIdx, validated, q, s0, a, s1)
    requires MovedBy(nm, keeperIdx, validated, q, s1, b, s2)
    ensures MovedBy(nm, keeperIdx, validated, q, s0, a + b, s2)
  {
    var m, n := UpdateCount(keeperIdx, validated, q, a), UpdateCount(keeperIdx, validated, q, b);
    assert s1 == q.Updated(nm, s0, m);
    assert s2 == q.Updated(nm, s1, n);
    UpdateCountAppend(keeperIdx, validated, q, a, b);
    UpdatesAdd(nm, q.scaleType, q.server.farthestVertexDistance, s0, m, n);
    assert s2 == q.Updated(nm, s0, UpdateCount(keeperIdx, validated, q, a + b));
  }

  /** A walk that does not list `q` leaves it as it was. */
  lemma NotListedNotMoved(nm: Numerics, keeperIdx: nat, validated: bool, q: CollisionParts, s: MtxState, walk: seq<CollisionParts>)
    requires q !in walk
    ensures MovedBy(nm, keeperIdx, validated, q, s, walk, s)
  {
    assert UpdateCount(keeperIdx, validated, q, walk) == 0;
    assert s == q.Updated(nm, s, UpdateCount(keeperIdx, validated, q, walk));
  }

  /** Walking one more listing: the part listed there takes one update when
      it is validated and belongs to the keeper; every other part stays. */
  lemma MovedByStep(nm: Numerics, keeperIdx: nat, validated: bool, q: CollisionParts, s0: MtxState, s1: MtxState, s2: MtxState,
                    ps: seq<CollisionParts>, j: nat)
    requires j < |ps|
    requires MovedBy(nm, keeperIdx, validated, q, s0, ps[..j], s1)
    requires s2 == if q == ps[j] && validated && q.keeperIdx == keeperIdx
      then UpdateMtxStep(nm, q.scaleType, q.server.farthestVertexDistance, s1) else s1
    ensures MovedBy(nm, keeperIdx, validated, q, s0, ps[..j + 1], s2)
  {
    var n := UpdateCount(keeperIdx, validated, q, ps[..j]);
    assert s1 == q.Updated(nm, s0, n);
    assert ps[..j + 1] == ps[..j] + [ps[j]];
    assert UpdateCount(keeperIdx, validated, q, ps[..j + 1]) ==
      n + (if q == ps[j] && validated && q.keeperIdx == keeperIdx then 1 else 0);
    assert s2 == q.Updated(nm, s0, UpdateCount(keeperIdx, validated, q, ps[..j + 1]));
  }

  /** One zone's share of `movement`: each validated part of the zone is
      updated when it belongs to the keeper, and, unless the keeper forces a
      rebuild, a part whose counter is 0 after that may rebuild the zone's
      volume; a forced rebuild happens once the parts are done. */
  method MovementZone(nm: Numerics, keeperIdx: nat, force: bool, z: CollisionZone)
    modifies z`volume
    modifies z.parts`newWorldMtx, z.parts`oldWorldMtx, z.parts`worldMtx, z.parts`invWorldMtx
    modifies z.parts`notMovedCounter, z.parts`scale, z.parts`boundingSphereRadius, z.parts`setUpdateMtxOneTime
    ensures forall p :: p in z.parts ==> MovedBy(nm, keeperIdx, p.validated, p, old(p.State()), z.parts, p.State())
    ensures z.volume.Bounded? == old(z.volume).Bounded?
    ensures old(z.volume).Unbounded? ==> z.volume == old(z.volume)
    ensures force && old(z.volume).Bounded? ==> z.volume == VolumeOf(nm, PartsBox(nm, z.parts))
  {
    var ps := z.parts;
    for j := 0 to |ps|
      invariant forall p :: p in ps ==> MovedBy(nm, keeperIdx, p.validated, p, old(p.State()), ps[..j], p.State())
      invariant z.volume.Bounded? == old(z.volume).Bounded?
      invariant old(z.volume).Unbounded? ==> z.volume == old(z.volume)
    {
      var p := ps[j];
      label before:
      MovementPart(nm, keeperIdx, force, z, p);
      forall q | q in ps
        ensures MovedBy(nm, keeperIdx, q.validated, q, old(q.State()), ps[..j + 1], q.State())
      {
        MovedByStep(nm, keeperIdx, q.validated, q, old(q.State()), old@before(q.State()), q.State(), ps, j);
      }
    }
    assert ps[..|ps|] == ps;
    if force {
      z.CalcMinMaxAndRadius(nm);
    }
  }

  /** One listing of a part in the movement pass. */
  method MovementPart(nm: Numerics, keeperIdx: nat, force: bool, z: CollisionZone, p: CollisionParts)
    modifies z`volume
    modifies p`newWorldMtx, p`oldWorldMtx, p`worldMtx, p`invWorldMtx
    modifies p`notMovedCounter, p`scale, p`boundingSphereRadius, p`setUpdateMtxOneTime
    ensures p.State() ==
      if p.validated && p.keeperIdx == keeperIdx then UpdateMtxStep(nm, p.scaleType, p.server.farthestVertexDistance, old(p.State()))
      else old(p.State())
    ensures z.volume.Bounded? == old(z.volume).Bounded?
    ensures z.volume ==
      if p.validated && !force && p.notMovedCounter == 0 && old(z.volume).Bounded?
         && !StillInside(old(z.volume).box, p.Translation(nm), p.boundingSphereRadius)
      then VolumeOf(nm, PartsBox(nm, z.parts))
      else old(z.volume)
  {
    if !p.validated {
      return;
    }
    if keeperIdx == p.keeperIdx {
      p.UpdateMtx(nm);
    }
    if !force && p.notMovedCounter == 0 {
      z.CalcMinMaxAndRadiusIfMoveOuter(nm, p);
    }
  }

  /** `MovementZone` on the zone in slot `i` of a table, seen from every part
      the table lists: a part the zone does not list is left as it was. */
  method MovementZoneOfTable(nm: Numerics, keeperIdx: nat, force: bool, zs: seq<CollisionZone?>, i: nat, z: CollisionZone)
    requires i < |zs| && zs[i] == z
    modifies z`volume
    modifies z.parts`newWorldMtx, z.parts`oldWorldMtx, z.parts`worldMtx, z.parts`invWorldMtx
    modifies z.parts`notMovedCounter, z.parts`scale, z.parts`boundingSphereRadius, z.parts`setUpdateMtxOneTime
    ensures forall k, q :: 0 <= k < |zs| && zs[k] != null && q in zs[k].parts ==>
      MovedBy(nm, keeperIdx, q.validated, q, old(q.State()), z.parts, q.State())
    ensures forall k :: 0 <= k < |zs| && zs[k] != null ==>
      && zs[k].volume.Bounded? == old(zs[k].volume).Bounded?
      && (old(zs[k].volume).Unbounded? ==> zs[k].volume == old(zs[k].volume))
  {
    MovementZone(nm, keeperIdx, force, z);
    forall k, q | 0 <= k < |zs| && zs[k] != null && q in zs[k].parts && q !in z.parts
      ensures MovedBy(nm, keeperIdx, q.validated, q, old(q.State()), z.parts, q.State())
    {
      NotListedNotMoved(nm, keeperIdx, q.validated, q, q.State(), z.parts);
    }
  }

  /** The zones of a list of keepers. */
  function ZonesOf(ks: seq<Keeper>): (r: set<CollisionZone?>)
    reads ks`zones
    ensures forall i, z :: 0 <= i < |ks| && z in ks[i].zones ==> z in r
  {
    set i, z | 0 <= i < |ks| && z in ks[i].zones :: z
  }

  /** The parts registered with a list of keepers. */
  function KeeperParts(ks: seq<Keeper>): set<CollisionParts>
    reads ks`zones, ZonesOf(ks)`parts
  {
    set i, p | 0 <= i < |ks| && p in PartSet(ks[i].zones) :: p
  }

  /** What each keeper's movement pass walks. */
  ghost function WalksOf(ks: seq<Keeper>): (r: seq<seq<CollisionParts>>)
    reads ks`zones, ZonesOf(ks)`parts
    ensures |r| == |ks| && forall j :: 0 <= j < |ks| ==> r[j] == Visits(ks[j].zones)
    decreases |ks|
  {
    if |ks| == 0 then []
    else
      assert ZonesOf(ks[..|ks| - 1]) <= ZonesOf(ks);
      WalksOf(ks[..|ks| - 1]) + [Visits(ks[|ks| - 1].zones)]
  }

  /** How often the director's pass has updated `q` once keepers `0` to
      `i - 1` have run, given what each keeper walks. */
  function TurnsTaken(q: CollisionParts, validated: bool, i: nat, walks: seq<seq<CollisionParts>>): nat
    requires |walks| == KeeperCount
  {
    if q.keeperIdx < i then UpdateCount(q.keeperIdx, validated, q, walks[q.keeperIdx]) else 0
  }

  /** Part `q` went from `s0` to `s` while keepers `0` to `i - 1` took their
      turns. As with `MovedBy`, the equation is stated for every list of
      walks equal to `walks`. */
  predicate TurnsDone(nm: Numerics, q: CollisionParts, validated: bool, s0: MtxState, i: nat,
                      walks: seq<seq<CollisionParts>>, s: MtxState)
    requires |walks| == KeeperCount
  {
    forall ws {:trigger q.Updated(nm, s0, TurnsTaken(q, validated, i, ws))} ::
      ws == walks ==> s == q.Updated(nm, s0, TurnsTaken(q, validated, i, ws))
  }

  /** Keeper `i`'s turn in the director's pass: it adds its updates to a
      part of keeper `i`, and leaves every other part as it was. */
  lemma ComposeKeeperTurn(nm: Numerics, q: CollisionParts, validated: bool, i: nat, s0: MtxState, s1: MtxState, s2: MtxState,
                          walks: seq<seq<CollisionParts>>)
    requires |walks| == KeeperCount && i < KeeperCount
    requires TurnsDone(nm, q, validated, s0, i, walks, s1)
    requires MovedBy(nm, i, validated, q, s1, walks[i], s2)
    ensures TurnsDone(nm, q, validated, s0, i + 1, walks, s2)
  {
    assert s1 == q.Updated(nm, s0, TurnsTaken(q, validated, i, walks));
    assert s2 == q.Updated(nm, s1, UpdateCount(i, validated, q, walks[i]));
    assert s2 == q.Updated(nm, s0, TurnsTaken(q, validated, i + 1, walks));
  }

  /** After all four turns, a part has taken its own keeper's updates. */
  lemma AllTurnsTaken(nm: Numerics, q: CollisionParts, validated: bool, s0: MtxState, walks: seq<seq<CollisionParts>>, s: MtxState)
    requires |walks| == KeeperCount
    requires TurnsDone(nm, q, validated, s0, KeeperCount, walks, s)
    ensures MovedBy(nm, q.keeperIdx, validated, q, s0, walks[q.keeperIdx], s)
  {
    assert s == q.Updated(nm, s0, TurnsTaken(q, validated, KeeperCount, walks));
    assert s == q.Updated(nm, s0, UpdateCount(q.keeperIdx, validated, q, walks[q.keeperIdx]));
  }

  /** A movement pass leaves a zone's volume of the same kind, and an
      unbounded (global) zone as it was. */
  predicate KindKept(before: Volume, after: Volume)
  {
    after.Bounded? == before.Bounded? && (before.Unbounded? ==> after == before)
  }

  /** Keeper `i`'s turn in the director's pass, seen from every part of a
      snapshot of states: a part of keeper `i` gets that keeper's updates,
      every other part is left as it was. */
  method KeeperTurn(nm: Numerics, kp: Keeper, i: nat, ghost walks: seq<seq<CollisionParts>>, ghost start: map<CollisionParts, MtxState>)
    requires kp.keeperIdx == i && |walks| == KeeperCount && i < KeeperCount && walks[i] == Visits(kp.zones)
    requires forall q :: q in start ==> TurnsDone(nm, q, q.validated, start[q], i, walks, q.State())
    modifies kp`forceCalcMinMaxAndRadius, kp.zones`volume
    modifies PartSet(kp.zones)`newWorldMtx, PartSet(kp.zones)`oldWorldMtx, PartSet(kp.zones)`worldMtx
    modifies PartSet(kp.zones)`invWorldMtx, PartSet(kp.zones)`notMovedCounter, PartSet(kp.zones)`scale
    modifies PartSet(kp.zones)`boundingSphereRadius, PartSet(kp.zones)`setUpdateMtxOneTime
    ensures !kp.forceCalcMinMaxAndRadius
    ensures forall q :: q in start ==> TurnsDone(nm, q, q.validated, start[q], i + 1, walks, q.State())
    ensures forall z :: z in kp.zones && z != null ==> KindKept(old(z.volume), z.volume)
  {
    PartSetIsVisited(kp.zones);
    kp.Movement(nm);
    forall q | q in start
      ensures TurnsDone(nm, q, q.validated, start[q], i + 1, walks, q.State())
    {
      if q in walks[i] {
        VisitedIsListed(kp.zones, q);
        var m :| 0 <= m < |kp.zones| && kp.zones[m] != null && q in kp.zones[m].parts;
      } else {
        NotListedNotMoved(nm, i, q.validated, q, q.State(), walks[i]);
      }
      ComposeKeeperTurn(nm, q, q.validated, i, start[q], old(q.State()), q.State(), walks);
    }
  }

  /** Every part a keeper's zone lists is registered with the keepers. */
  lemma ListedIsRegistered(ks: seq<Keeper>)
    ensures forall j, k, q :: 0 <= j < |ks| && 0 <= k < |ks[j].zones| && ks[j].zones[k] != null && q in ks[j].zones[k].parts ==>
      q in KeeperParts(ks)
  {
    forall j, k, q | 0 <= j < |ks| && 0 <= k < |ks[j].zones| && ks[j].zones[k] != null && q in ks[j].zones[k].parts
      ensures q in KeeperParts(ks)
    {
      ZonePartsRegistered(ks[j].zones, k);
    }
  }

  /** The keepers' turns in order, seen from a snapshot of part states. */
  method AllTurns(nm: Numerics, ks: seq<Keeper>, ghost walks: seq<seq<CollisionParts>>, ghost start: map<CollisionParts, MtxState>)
    requires |ks| == KeeperCount && forall i :: 0 <= i < |ks| ==> ks[i].keeperIdx == i
    requires walks == WalksOf(ks)
    requires forall q :: q in start ==> q.State() == start[q]
    modifies ks`forceCalcMinMaxAndRadius, ZonesOf(ks)`volume
    modifies KeeperParts(ks)`newWorldMtx, KeeperParts(ks)`oldWorldMtx, KeeperParts(ks)`worldMtx
    modifies KeeperParts(ks)`invWorldMtx, KeeperParts(ks)`notMovedCounter, KeeperParts(ks)`scale
    modifies KeeperParts(ks)`boundingSphereRadius, KeeperParts(ks)`setUpdateMtxOneTime
    ensures FlagsCleared(ks, |ks|)
    ensures AllTurnsDone(nm, start, KeeperCount, walks)
    ensures forall z :: z in ZonesOf(ks) && z != null ==> KindKept(old(z.volume), z.volume)
  {
    for i := 0 to |ks|
      invariant FlagsCleared(ks, i)
      invariant AllTurnsDone(nm, start, i, walks)
      invariant forall z :: z in ZonesOf(ks) && z != null ==> KindKept(old(z.volume), z.volume)
    {
      label before:
      KeeperTurnOf(nm, ks, i, walks, start);
      forall z | z in ZonesOf(ks) && z != null
        ensures KindKept(old(z.volume), z.volume)
      {
        assert KindKept(old@before(z.volume), z.volume);
      }
    }
  }

  /** The force flags of keepers `0` to `i - 1` are clear. */
  predicate FlagsCleared(ks: seq<Keeper>, i: nat)
    reads ks`forceCalcMinMaxAndRadius
  {
    forall j :: 0 <= j < i && j < |ks| ==> !ks[j].forceCalcMinMaxAndRadius
  }

  /** Every part in `start` went from its entry there to its present
      state while keepers `0` to `i - 1` took their turns. */
  predicate AllTurnsDone(nm: Numerics, start: map<CollisionParts, MtxState>, i: nat, walks: seq<seq<CollisionParts>>)
    requires |walks| == KeeperCount
    reads start.Keys
  {
    forall q :: q in start ==> TurnsDone(nm, q, q.validated, start[q], i, walks, q.State())
  }

  /** Keeper `i`'s turn, framed by everything the keepers own: it clears
      that keeper's force flag only. */
  method KeeperTurnOf(nm: Numerics, ks: seq<Keeper>, i: nat, ghost walks: seq<seq<CollisionParts>>, ghost start: map<CollisionParts, MtxState>)
    requires |ks| == KeeperCount && forall j :: 0 <= j < |ks| ==> ks[j].keeperIdx == j
    requires i < |ks| && walks == WalksOf(ks)
    requires AllTurnsDone(nm, start, i, walks) && FlagsCleared(ks, i)
    modifies ks`forceCalcMinMaxAndRadius, ZonesOf(ks)`volume
    modifies KeeperParts(ks)`newWorldMtx, KeeperParts(ks)`oldWorldMtx, KeeperParts(ks)`worldMtx
    modifies KeeperParts(ks)`invWorldMtx, KeeperParts(ks)`notMovedCounter, KeeperParts(ks)`scale
    modifies KeeperParts(ks)`boundingSphereRadius, KeeperParts(ks)`setUpdateMtxOneTime
    ensures FlagsCleared(ks, i + 1)
    ensures AllTurnsDone(nm, start, i + 1, walks)
    ensures forall z :: z in ZonesOf(ks) && z != null ==> KindKept(old(z.volume), z.volume)
  {
    var kp := ks[i];
    assert forall j :: 0 <= j < |ks| && j != i ==> ks[j] != kp;
    assert forall p :: p in PartSet(kp.zones) ==> p in KeeperParts(ks);
    label before:
    KeeperTurn(nm, kp, i, walks, start);
    forall z | z in ZonesOf(ks) && z != null
      ensures KindKept(old(z.volume), z.volume)
    {
      if z in kp.zones {
        assert KindKept(old@before(z.volume), z.volume);
      }
    }
  }

  /** `CollisionDirector`: one keeper per category. */
  class Director {
    const keepers: seq<Keeper>

    /** Keeper `i` has index `i` and is valid. */
    predicate Valid()
      reads keepers`zones
    {
      |keepers| == KeeperCount && forall i :: 0 <= i < |keepers| ==> keepers[i].keeperIdx == i && keepers[i].Valid()
    }

    /** The constructor creates keepers 0 to 3. */
    constructor()
      ensures Valid() && fresh(keepers)
      ensures forall i :: 0 <= i < |keepers| ==> keepers[i].zones == [] && !keepers[i].forceCalcMinMaxAndRadius
    {
      var k0 := new Keeper(0);
      var k1 := new Keeper(1);
      var k2 := new Keeper(2);
      var k3 := new Keeper(3);
      keepers := [k0, k1, k2, k3];
    }

    /** `movement`: run every keeper's movement pass in category order.
        Each part is updated by its own keeper only, once per listing in that
        keeper's zones, and every force flag is cleared. */
    method Movement(nm: Numerics)
      requires Valid()
      modifies keepers`forceCalcMinMaxAndRadius, ZonesOf(keepers)`volume
      modifies KeeperParts(keepers)`newWorldMtx, KeeperParts(keepers)`oldWorldMtx, KeeperParts(keepers)`worldMtx
      modifies KeeperParts(keepers)`invWorldMtx, KeeperParts(keepers)`notMovedCounter, KeeperParts(keepers)`scale
      modifies KeeperParts(keepers)`boundingSphereRadius, KeeperParts(keepers)`setUpdateMtxOneTime
      ensures forall i :: 0 <= i < |keepers| ==> !keepers[i].forceCalcMinMaxAndRadius
      ensures forall j, k, q :: 0 <= j < |keepers| && 0 <= k < |keepers[j].zones| && keepers[j].zones[k] != null && q in keepers[j].zones[k].parts ==>
        MovedBy(nm, q.keeperIdx, q.validated, q, old(q.State()), old(Visits(keepers[q.keeperIdx].zones)), q.State())
      ensures forall j, k :: 0 <= j < |keepers| && 0 <= k < |keepers[j].zones| && keepers[j].zones[k] != null ==>
        KindKept(old(keepers[j].zones[k].volume), keepers[j].zones[k].volume)
    {
      ghost var walks := WalksOf(keepers);
      ghost var start := map q | q in KeeperParts(keepers) :: q.State();
      ListedIsRegistered(keepers);
      AllTurns(nm, keepers, walks, start);
      forall q | q in start
        ensures MovedBy(nm, q.keeperIdx, q.validated, q, start[q], walks[q.keeperIdx], q.State())
      {
        AllTurnsTaken(nm, q, q.validated, start[q], walks, q.State());
      }
    }
  }
}
