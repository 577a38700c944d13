/** The specification of a keeper's line query: which parts it reaches,
    zone after zone, and what their hits leave in the shared buffer. The
    query changes no part, so the specification works on views of the
    parts (`Parts.PartView`) taken when the query starts. */
module LineQuery {
  import opened Vectors
  import opened SegmentSphere
  import opened Parts
  import opened Zones

  /** The box the query prunes with: the reset box grown by both ends of
      the segment. */
  function QueryBox(p0: Vec3, dir: Vec3): (b: Box)
    ensures Contains(b, p0) && Contains(b, Add(p0, dir))
  {
    UnionPoint(UnionPoint(Empty, p0).0, Add(p0, dir)).0
  }

  /** The zone-level prune: a zone with a volume is visited only when the
      query box contains its sphere and the segment meets the sphere; a
      zone without one is always visited. */
  predicate ZonePasses(nm: Numerics, box: Box, p0: Vec3, dir: Vec3, v: Volume)
  {
    match v
    case Unbounded => true
    case Bounded(c, r, _) => nm.containsSphere(box, c, r) && CheckHitSegmentSphere(p0, dir, c, r)
  }

  /** The part-level prune: validated, not rejected by the parts filter, and
      the same two sphere tests on the part's bounding sphere. */
  predicate PartPasses(nm: Numerics, box: Box, p0: Vec3, dir: Vec3, pf: Option<CollisionParts -> bool>, v: PartView)
  {
    && v.validated
    && !(pf.Some? && pf.value(v.parts))
    && nm.containsSphere(box, ViewTranslation(nm, v), v.radius)
    && CheckHitSegmentSphere(p0, dir, ViewTranslation(nm, v), v.radius)
  }

  /** The views of the parts, in order. */
  function Views(ps: seq<CollisionParts>): (r: seq<PartView>)
    reads ps
    ensures |r| == |ps| && forall i :: 0 <= i < |ps| ==> r[i] == ps[i].View()
    decreases |ps|
  {
    if |ps| == 0 then [] else Views(ps[..|ps| - 1]) + [ps[|ps| - 1].View()]
  }

  /** The parts of one zone that pass, in order. */
  function SelectParts(nm: Numerics, box: Box, p0: Vec3, dir: Vec3, pf: Option<CollisionParts -> bool>, vs: seq<PartView>): seq<PartView>
    decreases |vs|
  {
    if |vs| == 0 then []
    else
      var init := SelectParts(nm, box, p0, dir, pf, vs[..|vs| - 1]);
      var v := vs[|vs| - 1];
      if PartPasses(nm, box, p0, dir, pf, v) then init + [v] else init
  }

  /** Exactly the passing parts are selected, and in their order. */
  lemma {:induction false} SelectPartsFilters(nm: Numerics, box: Box, p0: Vec3, dir: Vec3, pf: Option<CollisionParts -> bool>,
                                              vs: seq<PartView>)
    ensures var r := SelectParts(nm, box, p0, dir, pf, vs);
      && |r| <= |vs|
      && (forall v :: v in r <==> v in vs && PartPasses(nm, box, p0, dir, pf, v))
    decreases |vs|
  {
    if |vs| > 0 {
      SelectPartsFilters(nm, box, p0, dir, pf, vs[..|vs| - 1]);
      assert vs == vs[..|vs| - 1] + [vs[|vs| - 1]];
    }
  }

  /** The parts registered in the zones. */
  function PartSet(zs: seq<CollisionZone?>): set<CollisionParts>
    reads zs`parts
    decreases |zs|
  {
    if |zs| == 0 then {}
    else
      var z := zs[|zs| - 1];
      PartSet(zs[..|zs| - 1]) + (if z == null then {} else set p | p in z.parts)
  }

  /** Every part of the zones, zone after zone, skipping empty slots. */
  function Visits(zs: seq<CollisionZone?>): seq<CollisionParts>
    reads zs`parts
    decreases |zs|
  {
    if |zs| == 0 then []
    else
      var z := zs[|zs| - 1];
      Visits(zs[..|zs| - 1]) + (if z == null then [] else z.parts)
  }

  /** The registered parts are exactly the parts the zones list. */
  lemma {:induction false} PartSetIsVisited(zs: seq<CollisionZone?>)
    ensures forall p :: p in PartSet(zs) <==> p in Visits(zs)
    decreases |zs|
  {
    if |zs| > 0 {
      PartSetIsVisited(zs[..|zs| - 1]);
    }
  }

  /** A visited part is listed in some zone of the table. */
  lemma {:induction false} VisitedIsListed(zs: seq<CollisionZone?>, p: CollisionParts)
    requires p in Visits(zs)
    ensures exists m :: 0 <= m < |zs| && zs[m] != null && p in zs[m].parts
    decreases |zs|
  {
    var last := zs[|zs| - 1];
    if last != null && p in last.parts {
    } else {
      VisitedIsListed(zs[..|zs| - 1], p);
      var m :| 0 <= m < |zs| - 1 && zs[..|zs| - 1][m] != null && p in zs[..|zs| - 1][m].parts;
      assert zs[m] == zs[..|zs| - 1][m];
    }
  }

  /** Every part listed in a zone of the table is registered. */
  lemma {:induction false} ZonePartsRegistered(zs: seq<CollisionZone?>, i: nat)
    requires i < |zs|
    ensures zs[i] != null ==> forall p :: p in zs[i].parts ==> p in PartSet(zs)
    decreases |zs|
  {
    if i < |zs| - 1 {
      assert zs[..|zs| - 1][i] == zs[i];
      ZonePartsRegistered(zs[..|zs| - 1], i);
    }
  }

  /** What the query sees of one slot of the zone table: nothing, or the
      zone's volume and the views of its parts. */
  datatype ZoneView = Hole | ZoneView(volume: Volume, views: seq<PartView>)

  /** What the query sees of one slot. */
  function SlotView(z: CollisionZone?): (r: ZoneView)
    reads z, if z == null then [] else z.parts
    ensures r.Hole? <==> z == null
  {
    if z == null then Hole else ZoneView(z.volume, Views(z.parts))
  }

  /** The views of the zone table's slots, in order. */
  function ZoneViews(zs: seq<CollisionZone?>): (r: seq<ZoneView>)
    reads zs, PartSet(zs)
    ensures |r| == |zs|
    ensures forall i :: 0 <= i < |zs| ==> r[i] == SlotView(zs[i])
    decreases |zs|
  {
    if |zs| == 0 then []
    else
      ZonePartsRegistered(zs, |zs| - 1);
      ZoneViews(zs[..|zs| - 1]) + [SlotView(zs[|zs| - 1])]
  }

  /** The parts the query visits, zone after zone: the passing parts of the
      passing zones. */
  function SelectZones(nm: Numerics, box: Box, p0: Vec3, dir: Vec3, pf: Option<CollisionParts -> bool>, zvs: seq<ZoneView>): seq<PartView>
    decreases |zvs|
  {
    if |zvs| == 0 then []
    else
      var init := SelectZones(nm, box, p0, dir, pf, zvs[..|zvs| - 1]);
      match zvs[|zvs| - 1]
      case Hole => init
      case ZoneView(volume, views) =>
        if ZonePasses(nm, box, p0, dir, volume) then init + SelectParts(nm, box, p0, dir, pf, views) else init
  }

  /** The query reaches only parts that pass the part-level prune: a
      selected view is validated, accepted by the parts filter and passes
      the two sphere tests. */
  lemma {:induction false} SelectZonesPasses(nm: Numerics, box: Box, p0: Vec3, dir: Vec3, pf: Option<CollisionParts -> bool>,
                                             zvs: seq<ZoneView>, v: PartView)
    requires v in SelectZones(nm, box, p0, dir, pf, zvs)
    ensures PartPasses(nm, box, p0, dir, pf, v)
    decreases |zvs|
  {
    var init := SelectZones(nm, box, p0, dir, pf, zvs[..|zvs| - 1]);
    var zv := zvs[|zvs| - 1];
    if v in init {
      SelectZonesPasses(nm, box, p0, dir, pf, zvs[..|zvs| - 1], v);
    } else {
      SelectPartsFilters(nm, box, p0, dir, pf, zv.views);
    }
  }

  /** The zones the selection adds when the table grows by one slot. */
  function ZoneSelection(nm: Numerics, box: Box, p0: Vec3, dir: Vec3, pf: Option<CollisionParts -> bool>, zv: ZoneView): seq<PartView>
  {
    match zv
    case Hole => []
    case ZoneView(volume, views) => if ZonePasses(nm, box, p0, dir, volume) then SelectParts(nm, box, p0, dir, pf, views) else []
  }

  /** One more slot of the table adds that slot's selection. */
  lemma SelectZonesStep(nm: Numerics, box: Box, p0: Vec3, dir: Vec3, pf: Option<CollisionParts -> bool>, zvs: seq<ZoneView>, i: nat)
    requires i < |zvs|
    ensures SelectZones(nm, box, p0, dir, pf, zvs[..i + 1]) ==
      SelectZones(nm, box, p0, dir, pf, zvs[..i]) + ZoneSelection(nm, box, p0, dir, pf, zvs[i])
  {
    assert zvs[..i + 1][..i] == zvs[..i];
  }

  /** The hit buffer, the number of entries written and whether the query
      faulted. */
  datatype Collected = Collected(slots: seq<HitInfo>, count: nat, faulted: bool)

  predicate Stopped(k: Collected)
  {
    k.faulted || k.count >= |k.slots|
  }

  /** One selected part's turn: it writes from the current count on, unless
      the query already stopped (faulted, or the buffer is full). A fault
      leaves the count where it was. */
  function CollectStep(nm: Numerics, p0: Vec3, dir: Vec3, tf: Option<Triangle -> bool>, k: Collected, v: PartView): (r: Collected)
    ensures |r.slots| == |k.slots|
  {
    if Stopped(k) then k
    else
      var ctx := ViewContext(v, nm, p0, dir, tf);
      var f := FillAll(ctx, k.slots, k.count, Considered(ctx, |k.slots|));
      Collected(f.slots, if f.faulted then k.count else f.next, f.faulted)
  }

  /** The selected parts' turns, in order, from an empty count. */
  function Collect(nm: Numerics, p0: Vec3, dir: Vec3, tf: Option<Triangle -> bool>, slots: seq<HitInfo>, sel: seq<PartView>): (r: Collected)
    ensures |r.slots| == |slots|
    decreases |sel|
  {
    if |sel| == 0 then Collected(slots, 0, false)
    else CollectStep(nm, p0, dir, tf, Collect(nm, p0, dir, tf, slots, sel[..|sel| - 1]), sel[|sel| - 1])
  }

  /** The query stands at `k` after the turns of the parts `sel`. The
      equation is stated for every selection equal to `sel`, so that a proof
      which only hands the fact on does not expand `Collect`. */
  predicate Reached(nm: Numerics, p0: Vec3, dir: Vec3, tf: Option<Triangle -> bool>,
                    slots: seq<HitInfo>, sel: seq<PartView>, k: Collected)
  {
    forall s :: s == sel ==> Collect(nm, p0, dir, tf, slots, s) == k
  }

  /** Appending a part to the selection runs that part's turn. */
  lemma CollectAppendOne(nm: Numerics, p0: Vec3, dir: Vec3, tf: Option<Triangle -> bool>,
                         slots: seq<HitInfo>, done: seq<PartView>, v: PartView)
    ensures Collect(nm, p0, dir, tf, slots, done + [v]) == CollectStep(nm, p0, dir, tf, Collect(nm, p0, dir, tf, slots, done), v)
  {
    assert (done + [v])[..|done + [v]| - 1] == done;
  }

  /** A stopped query ignores every later part. */
  lemma {:induction false} CollectStopsForGood(nm: Numerics, p0: Vec3, dir: Vec3, tf: Option<Triangle -> bool>,
                                               slots: seq<HitInfo>, sel: seq<PartView>, k: nat)
    requires k <= |sel| && Stopped(Collect(nm, p0, dir, tf, slots, sel[..k]))
    ensures Collect(nm, p0, dir, tf, slots, sel) == Collect(nm, p0, dir, tf, slots, sel[..k])
    decreases |sel| - k
  {
    if k < |sel| {
      assert sel[..k + 1][..k] == sel[..k];
      CollectStopsForGood(nm, p0, dir, tf, slots, sel, k + 1);
    } else {
      assert sel[..k] == sel;
    }
  }

  /** A query that stopped on a prefix of the selection ends there. */
  lemma CollectStopsAtPrefix(nm: Numerics, p0: Vec3, dir: Vec3, tf: Option<Triangle -> bool>,
                             slots: seq<HitInfo>, pre: seq<PartView>, sel: seq<PartView>)
    requires pre <= sel && Stopped(Collect(nm, p0, dir, tf, slots, pre))
    ensures Collect(nm, p0, dir, tf, slots, sel) == Collect(nm, p0, dir, tf, slots, pre)
  {
    assert sel[..|pre|] == pre;
    CollectStopsForGood(nm, p0, dir, tf, slots, sel, |pre|);
  }

  /** The parts the views are of. */
  function PartsOf(vs: seq<PartView>): set<CollisionParts>
  {
    set v | v in vs :: v.parts
  }

  /** One part's turn keeps the entries below the old count, and without a
      fault every new entry below the new count is a hit of that part that
      the triangle filter accepts. */
  lemma CollectStepHits(nm: Numerics, p0: Vec3, dir: Vec3, tf: Option<Triangle -> bool>, k0: Collected, v: PartView)
    requires !Stopped(k0)
    ensures var k := CollectStep(nm, p0, dir, tf, k0, v);
      !k.faulted ==>
        && k0.count <= k.count <= |k.slots|
        && (forall i :: 0 <= i < k0.count ==> k.slots[i] == k0.slots[i])
        && (forall i :: k0.count <= i < k.count ==>
              k.slots[i].tri.parts == v.parts && !(tf.Some? && tf.value(k.slots[i].tri)))
  {
    var ctx := ViewContext(v, nm, p0, dir, tf);
    var cands := Considered(ctx, |k0.slots|);
    var k := CollectStep(nm, p0, dir, tf, k0, v);
    FillWritesAccepted(ctx, k0.slots, k0.count, cands);
    FillLeavesOtherSlots(ctx, k0.slots, k0.count, cands);
    if !k.faulted {
      var acc := Accepted(ctx, cands);
      forall i | k0.count <= i < k.count
        ensures k.slots[i].tri.parts == v.parts && !(tf.Some? && tf.value(k.slots[i].tri))
      {
        assert k.slots[i] == k.slots[k0.count..k.count][i - k0.count];
        assert k.slots[i] in acc;
      }
    }
  }

  /** Without a fault, the count never exceeds the buffer and the entries
      below it are hits of selected parts, each accepted by the triangle
      filter. */
  lemma {:induction false} CollectedHitsAreSelected(nm: Numerics, p0: Vec3, dir: Vec3, tf: Option<Triangle -> bool>,
                                                    slots: seq<HitInfo>, sel: seq<PartView>)
    ensures var k := Collect(nm, p0, dir, tf, slots, sel);
      !k.faulted ==>
        && (|sel| > 0 ==> k.count <= |slots|)
        && (forall i :: 0 <= i < k.count && i < |slots| ==>
              k.slots[i].tri.parts in PartsOf(sel) && !(tf.Some? && tf.value(k.slots[i].tri)))
    decreases |sel|
  {
    if |sel| > 0 {
      var init := sel[..|sel| - 1];
      var v := sel[|sel| - 1];
      assert sel == init + [v];
      CollectedHitsAreSelected(nm, p0, dir, tf, slots, init);
      var k0 := Collect(nm, p0, dir, tf, slots, init);
      var k := Collect(nm, p0, dir, tf, slots, sel);
      assert k == CollectStep(nm, p0, dir, tf, k0, v);
      if !k.faulted && !Stopped(k0) {
        CollectStepHits(nm, p0, dir, tf, k0, v);
        assert PartsOf(init) <= PartsOf(sel);
        assert v.parts in PartsOf(sel);
      }
    }
  }

  /** One more part adds it to the selection exactly when it passes. */
  lemma SelectPartsStep(nm: Numerics, box: Box, p0: Vec3, dir: Vec3, pf: Option<CollisionParts -> bool>,
                        vs: seq<PartView>, j: nat)
    requires j < |vs|
    ensures SelectParts(nm, box, p0, dir, pf, vs[..j + 1]) ==
      if PartPasses(nm, box, p0, dir, pf, vs[j]) then SelectParts(nm, box, p0, dir, pf, vs[..j]) + [vs[j]]
      else SelectParts(nm, box, p0, dir, pf, vs[..j])
  {
    assert vs[..j + 1][..j] == vs[..j];
  }

  /** Each prefix of a zone's parts selects a prefix of its passing parts. */
  lemma {:induction false} SelectPartsPrefix(nm: Numerics, box: Box, p0: Vec3, dir: Vec3, pf: Option<CollisionParts -> bool>,
                                             vs: seq<PartView>, j: nat)
    requires j <= |vs|
    ensures SelectParts(nm, box, p0, dir, pf, vs[..j]) <= SelectParts(nm, box, p0, dir, pf, vs)
    decreases |vs| - j
  {
    if j < |vs| {
      assert vs[..j + 1][..j] == vs[..j];
      SelectPartsPrefix(nm, box, p0, dir, pf, vs, j + 1);
    } else {
      assert vs[..j] == vs;
    }
  }

  /** A query that stopped inside a zone ends there: the zone's later parts
      change nothing. */
  lemma ZoneStopsAtPart(nm: Numerics, box: Box, p0: Vec3, dir: Vec3, pf: Option<CollisionParts -> bool>,
                        tf: Option<Triangle -> bool>, slots: seq<HitInfo>, vs: seq<PartView>, j: nat,
                        before: seq<PartView>, k: Collected)
    requires j <= |vs| && Stopped(k)
    requires Reached(nm, p0, dir, tf, slots, before + SelectParts(nm, box, p0, dir, pf, vs[..j]), k)
    ensures Reached(nm, p0, dir, tf, slots, before + SelectParts(nm, box, p0, dir, pf, vs), k)
  {
    SelectPartsPrefix(nm, box, p0, dir, pf, vs, j);
    CollectStopsAtPrefix(nm, p0, dir, tf, slots, before + SelectParts(nm, box, p0, dir, pf, vs[..j]),
                         before + SelectParts(nm, box, p0, dir, pf, vs));
  }

  /** A query that stopped in a slot of the zone table ends there: the later
      slots change nothing. */
  lemma TableStopsAtZone(nm: Numerics, box: Box, p0: Vec3, dir: Vec3, pf: Option<CollisionParts -> bool>,
                         tf: Option<Triangle -> bool>, slots: seq<HitInfo>, zvs: seq<ZoneView>, i: nat, k: Collected)
    requires i <= |zvs| && Stopped(k)
    requires Reached(nm, p0, dir, tf, slots, SelectZones(nm, box, p0, dir, pf, zvs[..i]), k)
    ensures Reached(nm, p0, dir, tf, slots, SelectZones(nm, box, p0, dir, pf, zvs), k)
  {
    SelectZonesPrefix(nm, box, p0, dir, pf, zvs, i);
    CollectStopsAtPrefix(nm, p0, dir, tf, slots, SelectZones(nm, box, p0, dir, pf, zvs[..i]),
                         SelectZones(nm, box, p0, dir, pf, zvs));
  }

  /** Each prefix of the zone table selects a prefix of the parts. */
  lemma {:induction false} SelectZonesPrefix(nm: Numerics, box: Box, p0: Vec3, dir: Vec3, pf: Option<CollisionParts -> bool>,
                                             zs: seq<ZoneView>, i: nat)
    requires i <= |zs|
    ensures SelectZones(nm, box, p0, dir, pf, zs[..i]) <= SelectZones(nm, box, p0, dir, pf, zs)
    decreases |zs| - i
  {
    if i < |zs| {
      assert zs[..i + 1][..i] == zs[..i];
      SelectZonesPrefix(nm, box, p0, dir, pf, zs, i + 1);
    } else {
      assert zs[..i] == zs;
    }
  }

}
