/** The loops of the keeper's line query (`checkStrikeLine`): over the
    zone table, over one zone's parts, and one part's turn, each proved
    against the pure selection and collection of the line-query module. */
module StrikeLine {
  import opened Vectors
  import opened SegmentSphere
  import opened Parts
  import opened Zones
  import opened LineQuery

  /** The outer loop of `checkStrikeLine` over the zone table. It ends
      early when a part faulted or the buffer is full (the source's `break
      outer`). */
  method StrikeLineZones(nm: Numerics, box: Box, p0: Vec3, dir: Vec3, pf: Option<CollisionParts -> bool>,
                         tf: Option<Triangle -> bool>, strikeInfo: array<HitInfo>, zones: seq<CollisionZone?>,
                         ghost zvs: seq<ZoneView>)
    returns (idx: nat, faulted: bool)
    requires zvs == ZoneViews(zones)
    requires strikeInfo.Length > 0
    modifies strikeInfo
    ensures Reached(nm, p0, dir, tf, old(strikeInfo[..]), SelectZones(nm, box, p0, dir, pf, zvs),
                    Collected(strikeInfo[..], idx, faulted))
  {
    ghost var init := strikeInfo[..];
    ghost var done: seq<PartView> := [];
    idx := 0;
    var i := 0;
    while i < |zones|
      invariant 0 <= i <= |zones|
      invariant done == SelectZones(nm, box, p0, dir, pf, zvs[..i])
      invariant Reached(nm, p0, dir, tf, init, done, Collected(strikeInfo[..], idx, false))
      invariant idx < strikeInfo.Length
    {
      var z := zones[i];
      assert SlotView(z) == old(SlotView(z));
      var stop;
      idx, stop, faulted, done := StrikeLineSlot(nm, box, p0, dir, pf, tf, strikeInfo, z, zvs, i, idx, init, done);
      if stop {
        TableStopsAtZone(nm, box, p0, dir, pf, tf, init, zvs, i + 1, Collected(strikeInfo[..], idx, faulted));
        return;
      }
      i := i + 1;
    }
    assert zvs[..|zvs|] == zvs;
    faulted := false;
  }

  /** One slot of the zone table in `checkStrikeLine`: an empty slot and a
      zone that fails the prune add nothing; otherwise the zone's parts take
      their turns. */
  method StrikeLineSlot(nm: Numerics, box: Box, p0: Vec3, dir: Vec3, pf: Option<CollisionParts -> bool>,
                        tf: Option<Triangle -> bool>, strikeInfo: array<HitInfo>, z: CollisionZone?,
                        ghost zvs: seq<ZoneView>, i: nat, idx0: nat, ghost init: seq<HitInfo>, ghost before: seq<PartView>)
    returns (idx: nat, stop: bool, faulted: bool, ghost after: seq<PartView>)
    requires i < |zvs| && zvs[i] == SlotView(z)
    requires before == SelectZones(nm, box, p0, dir, pf, zvs[..i])
    requires idx0 < strikeInfo.Length
    requires Reached(nm, p0, dir, tf, init, before, Collected(strikeInfo[..], idx0, false))
    modifies strikeInfo
    ensures after == SelectZones(nm, box, p0, dir, pf, zvs[..i + 1])
    ensures Reached(nm, p0, dir, tf, init, after, Collected(strikeInfo[..], idx, faulted))
    ensures stop <==> Stopped(Collected(strikeInfo[..], idx, faulted))
    ensures !stop ==> idx < strikeInfo.Length
  {
    SelectZonesStep(nm, box, p0, dir, pf, zvs, i);
    after := before + ZoneSelection(nm, box, p0, dir, pf, zvs[i]);
    if z == null || !ZonePasses(nm, box, p0, dir, z.volume) {
      assert after == before;
      return idx0, false, false, after;
    }
    idx, stop, faulted := StrikeLineInZone(nm, box, p0, dir, pf, tf, strikeInfo, z.parts, zvs[i].views, idx0, init, before);
  }

  /** The inner loop of `checkStrikeLine` over one zone's parts. It ends
      early (`stop`) when a part faulted or the buffer is full. */
  method StrikeLineInZone(nm: Numerics, box: Box, p0: Vec3, dir: Vec3, pf: Option<CollisionParts -> bool>,
                          tf: Option<Triangle -> bool>, strikeInfo: array<HitInfo>, ps: seq<CollisionParts>,
                          ghost vs: seq<PartView>, idx0: nat, ghost init: seq<HitInfo>, ghost before: seq<PartView>)
    returns (idx: nat, stop: bool, faulted: bool)
    requires vs == Views(ps)
    requires idx0 < strikeInfo.Length
    requires Reached(nm, p0, dir, tf, init, before, Collected(strikeInfo[..], idx0, false))
    modifies strikeInfo
    ensures Reached(nm, p0, dir, tf, init, before + SelectParts(nm, box, p0, dir, pf, vs), Collected(strikeInfo[..], idx, faulted))
    ensures stop <==> Stopped(Collected(strikeInfo[..], idx, faulted))
  {
    idx := idx0;
    var j := 0;
    ghost var done := before;
    assert vs[..0] == [];
    while j < |ps|
      invariant 0 <= j <= |ps|
      invariant done == before + SelectParts(nm, box, p0, dir, pf, vs[..j])
      invariant Reached(nm, p0, dir, tf, init, done, Collected(strikeInfo[..], idx, false))
      invariant idx < strikeInfo.Length
    {
      idx, stop, faulted, done := StrikeLineTurn(nm, box, p0, dir, pf, tf, strikeInfo, ps[j], vs, j, idx, init, before, done);
      if stop {
        ZoneStopsAtPart(nm, box, p0, dir, pf, tf, init, vs, j + 1, before, Collected(strikeInfo[..], idx, faulted));
        return;
      }
      j := j + 1;
    }
    assert vs[..j] == vs;
    return idx, false, false;
  }

  /** One part's turn in the inner loop of `checkStrikeLine`: a part that
      fails the prune adds nothing, a passing one runs its own query. */
  method StrikeLineTurn(nm: Numerics, box: Box, p0: Vec3, dir: Vec3, pf: Option<CollisionParts -> bool>,
                        tf: Option<Triangle -> bool>, strikeInfo: array<HitInfo>, p: CollisionParts,
                        ghost vs: seq<PartView>, j: nat, idx0: nat, ghost init: seq<HitInfo>,
                        ghost before: seq<PartView>, ghost done: seq<PartView>)
    returns (idx: nat, stop: bool, faulted: bool, ghost after: seq<PartView>)
    requires j < |vs| && vs[j] == p.View()
    requires done == before + SelectParts(nm, box, p0, dir, pf, vs[..j])
    requires idx0 < strikeInfo.Length
    requires Reached(nm, p0, dir, tf, init, done, Collected(strikeInfo[..], idx0, false))
    modifies strikeInfo
    ensures after == before + SelectParts(nm, box, p0, dir, pf, vs[..j + 1])
    ensures Reached(nm, p0, dir, tf, init, after, Collected(strikeInfo[..], idx, faulted))
    ensures stop <==> Stopped(Collected(strikeInfo[..], idx, faulted))
    ensures !stop ==> idx < strikeInfo.Length
  {
    SelectPartsStep(nm, box, p0, dir, pf, vs, j);
    var v := p.View();
    if !PartPasses(nm, box, p0, dir, pf, v) {
      return idx0, false, false, done;
    }
    after := done + [v];
    assert after == before + SelectParts(nm, box, p0, dir, pf, vs[..j + 1]);
    idx, stop, faulted := StrikeLinePart(nm, p0, dir, tf, strikeInfo, p, v, idx0, init, done);
  }

  /** One passing part's turn in `checkStrikeLine`: it writes its hits from
      `idx0` on, and the query stops when it faulted or filled the buffer. */
  method StrikeLinePart(nm: Numerics, p0: Vec3, dir: Vec3, tf: Option<Triangle -> bool>,
                        strikeInfo: array<HitInfo>, p: CollisionParts, ghost v: PartView, idx0: nat,
                        ghost init: seq<HitInfo>, ghost done: seq<PartView>)
    returns (idx: nat, stop: bool, faulted: bool)
    requires v == p.View()
    requires idx0 < strikeInfo.Length
    requires Reached(nm, p0, dir, tf, init, done, Collected(strikeInfo[..], idx0, false))
    modifies strikeInfo
    ensures Reached(nm, p0, dir, tf, init, done + [v], Collected(strikeInfo[..], idx, faulted))
    ensures stop <==> Stopped(Collected(strikeInfo[..], idx, faulted))
    ensures !stop ==> idx < strikeInfo.Length
  {
    CollectAppendOne(nm, p0, dir, tf, init, done, v);
    var r := p.CheckStrikeLine(nm, strikeInfo, idx0, p0, dir, tf);
    if r.Faulted? {
      return idx0, true, true;
    }
    idx := idx0 + r.count;
    stop := idx >= strikeInfo.Length;
    faulted := false;
  }
}
