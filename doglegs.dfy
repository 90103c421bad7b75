/**
 * The micro-dogleg test (checkForMicroDogLegs): a junction has a micro
 * dogleg when a segment attached to it has a shape point closer than two
 * meters to it without sitting exactly on it.
 */
module MicroDogLegs {
  import opened Geometry
  import opened Editor

  /** Closer than this many meters counts as a micro dogleg. */
  const DogLegMeters: real := 2.0

  /**
   * checkGeoComp failing: the point's longitude/latitude differ from the
   * node's, and the geographic distance between them is under two meters.
   */
  predicate IsDogLegPoint(geo: Geodesy, nodeLonLat: Point, p: Point) {
    var pLonLat := geo.toLonLat(p);
    nodeLonLat != pLonLat && geo.meters(nodeLonLat, pLonLat) < DogLegMeters
  }

  /** The `every(checkGeoComp)` over a geometry's points. */
  function EveryPointClear(geo: Geodesy, nodeLonLat: Point, points: seq<Point>): (r: bool)
    ensures r <==> forall k :: 0 <= k < |points| ==> !IsDogLegPoint(geo, nodeLonLat, points[k])
  {
    if points == [] then true
    else
      EveryPointClear(geo, nodeLonLat, points[..|points| - 1])
      && !IsDogLegPoint(geo, nodeLonLat, points[|points| - 1])
  }

  /**
   * Whether a segment is examined: every one when no single segment id is
   * given (or it is the falsy 0), otherwise only the segment with that id.
   */
  predicate Considered(segId: SegmentId, single: Option<SegmentId>) {
    single.None? || single.value == 0 || segId == single.value
  }

  /** Some examined segment attached to node n has a dogleg point near n. */
  predicate NodeHasDogLeg(geo: Geodesy, w: World, n: Node, single: Option<SegmentId>)
    requires NodeClosed(w, n)
  {
    exists j, k :: 0 <= j < |n.segIds| && Considered(n.segIds[j], single)
      && 0 <= k < |w.segments[n.segIds[j]]|
      && IsDogLegPoint(geo, geo.toLonLat(n.geometry), w.segments[n.segIds[j]][k])
  }

  /** The lookups the test makes all succeed. */
  predicate NodesLoaded(w: World, ids: seq<NodeId>) {
    forall i :: 0 <= i < |ids| ==> ids[i] in w.nodes && NodeClosed(w, w.nodes[ids[i]])
  }

  /** checkForMicroDogLegs(ids, single) returns true: some listed node has a micro dogleg. */
  predicate HasMicroDogLeg(geo: Geodesy, w: World, ids: seq<NodeId>, single: Option<SegmentId>)
    requires NodesLoaded(w, ids)
  {
    exists i :: 0 <= i < |ids| && NodeHasDogLeg(geo, w, w.nodes[ids[i]], single)
  }

  /** The inner loop over one node's attached segments. */
  method CheckNode(geo: Geodesy, w: World, n: Node, single: Option<SegmentId>) returns (found: bool)
    requires NodeClosed(w, n)
    ensures found == NodeHasDogLeg(geo, w, n, single)
  {
    var node4326 := geo.toLonLat(n.geometry);
    var idx2 := 0;
    while idx2 < |n.segIds|
      invariant 0 <= idx2 <= |n.segIds|
      invariant forall j, k ::
        (0 <= j < idx2 && Considered(n.segIds[j], single) && 0 <= k < |w.segments[n.segIds[j]]|) ==>
        !IsDogLegPoint(geo, node4326, w.segments[n.segIds[j]][k])
    {
      var segObj := w.segments[n.segIds[idx2]];
      if Considered(n.segIds[idx2], single) {
        if !EveryPointClear(geo, node4326, segObj) {
          return true;
        }
      }
      idx2 := idx2 + 1;
    }
    return false;
  }

  /** checkForMicroDogLegs: visits each listed node once and stops at the first dogleg found. */
  method CheckForMicroDogLegs(geo: Geodesy, w: World, ids: seq<NodeId>, single: Option<SegmentId>)
    returns (found: bool)
    requires NodesLoaded(w, ids)
    ensures found == HasMicroDogLeg(geo, w, ids, single)
  {
    if |ids| < 1 {
      return false;
    }
    var nodesChecked: seq<NodeId> := [];
    var idx := 0;
    while idx < |ids|
      invariant 0 <= idx <= |ids|
      invariant forall c :: 0 <= c < |nodesChecked| ==> nodesChecked[c] in ids[..idx]
      invariant forall i :: 0 <= i < idx ==> ids[i] in nodesChecked
      invariant forall i :: 0 <= i < idx ==> !NodeHasDogLeg(geo, w, w.nodes[ids[i]], single)
    {
      if ids[idx] !in nodesChecked {
        nodesChecked := nodesChecked + [ids[idx]];
        found := CheckNode(geo, w, w.nodes[ids[idx]], single);
        if found {
          return;
        }
      } else {
        var c :| 0 <= c < |nodesChecked| && nodesChecked[c] == ids[idx];
        var i :| 0 <= i < idx && ids[..idx][i] == ids[idx];
      }
      assert ids[..idx + 1] == ids[..idx] + [ids[idx]];
      idx := idx + 1;
    }
    return false;
  }

  /** An empty id list never reports a dogleg. */
  lemma NoNodesNoDogLeg(geo: Geodesy, w: World)
    ensures !HasMicroDogLeg(geo, w, [], None)
  {
  }

  /** A shape point at exactly the node's position never counts, however close. */
  lemma CoincidentPointIsNotDogLeg(geo: Geodesy, n: Point, p: Point)
    requires geo.toLonLat(p) == geo.toLonLat(n)
    ensures !IsDogLegPoint(geo, geo.toLonLat(n), p)
  {
  }

  /** Naming one segment only narrows the test: a dogleg on that segment is also one on the whole selection. */
  lemma SingleSegmentNarrows(geo: Geodesy, w: World, ids: seq<NodeId>, s: SegmentId)
    requires NodesLoaded(w, ids)
    ensures HasMicroDogLeg(geo, w, ids, Some(s)) ==> HasMicroDogLeg(geo, w, ids, None)
  {
    if HasMicroDogLeg(geo, w, ids, Some(s)) {
      var i :| 0 <= i < |ids| && NodeHasDogLeg(geo, w, w.nodes[ids[i]], Some(s));
      var n := w.nodes[ids[i]];
      var j, k :| 0 <= j < |n.segIds| && Considered(n.segIds[j], Some(s))
        && 0 <= k < |w.segments[n.segIds[j]]|
        && IsDogLegPoint(geo, geo.toLonLat(n.geometry), w.segments[n.segIds[j]][k]);
      assert Considered(n.segIds[j], None);
      assert NodeHasDogLeg(geo, w, n, None);
    }
  }

  /** With a non-zero single segment id, only points of the segment with that id can raise the hazard. */
  lemma SingleSegmentOnlyThatSegment(geo: Geodesy, w: World, ids: seq<NodeId>, s: SegmentId)
    requires NodesLoaded(w, ids)
    requires s != 0
    requires forall i, j :: 0 <= i < |ids| && 0 <= j < |w.nodes[ids[i]].segIds| && w.nodes[ids[i]].segIds[j] == s ==>
      EveryPointClear(geo, geo.toLonLat(w.nodes[ids[i]].geometry), w.segments[s])
    ensures !HasMicroDogLeg(geo, w, ids, Some(s))
  {
    forall i | 0 <= i < |ids|
      ensures !NodeHasDogLeg(geo, w, w.nodes[ids[i]], Some(s))
    {
      var n := w.nodes[ids[i]];
      forall j | 0 <= j < |n.segIds| && Considered(n.segIds[j], Some(s))
        ensures EveryPointClear(geo, geo.toLonLat(n.geometry), w.segments[n.segIds[j]])
      {
        assert n.segIds[j] == s;
      }
    }
  }
}
