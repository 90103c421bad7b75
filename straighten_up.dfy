/**
 * The WME Straighten Up engine (doStraightenSegments): a chain of hazard
 * gates, then the classification of the selection's nodes, a line through
 * the two endpoints, the projection of every other node onto it, the
 * removal of interior shape points, and a commit of all edits.
 */
module StraightenUp {
  import opened Geometry
  import opened Editor
  import opened NodeLists
  import opened NameContinuity
  import opened MicroDogLegs

  /** Selections larger than this trip the sanity check. */
  const SanityLimit: nat := 10
  /** A junction moved further than this many meters is a long move. */
  const LongMoveMeters: real := 10.0

  datatype Settings = Settings(
    sanityCheck: Setting,
    nonContinuousSelection: Setting,
    conflictingNames: Setting,
    microDogLegs: Setting,
    longJnMove: Setting)

  /** Every hazard defaults to `warning`. */
  const DefaultSettings := Settings(Warning, Warning, Warning, Warning, Warning)

  function SettingFor(st: Settings, h: Hazard): Setting {
    match h
    case TooManySegments => st.sanityCheck
    case NonContinuous => st.nonContinuousSelection
    case ConflictingNames => st.conflictingNames
    case MicroDogLegs => st.microDogLegs
    case LongJnMove => st.longJnMove
  }

  /** The settings with one hazard turned to `nowarning`. */
  function SwitchOff(st: Settings, h: Hazard): (r: Settings)
    ensures SettingFor(r, h) == NoWarning
    ensures forall g :: g != h ==> SettingFor(r, g) == SettingFor(st, g)
  {
    match h
    case TooManySegments => st.(sanityCheck := NoWarning)
    case NonContinuous => st.(nonContinuousSelection := NoWarning)
    case ConflictingNames => st.(conflictingNames := NoWarning)
    case MicroDogLegs => st.(microDogLegs := NoWarning)
    case LongJnMove => st.(longJnMove := NoWarning)
  }

  /** The five `...Continue` parameters: hazards the user has already accepted. */
  datatype Flags = Flags(
    sanity: bool,
    nonContinuous: bool,
    conflictingNames: bool,
    microDogLegs: bool,
    longJnMove: bool)

  /** The edits computed before the long-move gate, handed to the commit branch (passedObj). */
  datatype Plan = Plan(geometryUpdates: seq<Action>, nodeMoves: seq<Action>)

  /** The arguments of one call of doStraightenSegments. */
  datatype Entry = Entry(flags: Flags, passed: Option<Plan>)

  /** The call made by the toolbar button: no flag set, nothing passed. */
  const Initial := Entry(Flags(false, false, false, false, false), None)

  /** The commit branch adds every geometry update, then every node move. */
  function Commit(p: Plan): seq<Action> {
    p.geometryUpdates + p.nodeMoves
  }

  predicate IsCommit(e: Entry) {
    e.flags.longJnMove && e.passed.Some?
  }

  // ---------------------------------------------------------------- plan

  /** The geometry updates for the selection: one per segment with more than two points, in order. */
  function GeometryUpdates(segs: seq<Segment>): (r: seq<Action>)
    ensures |r| <= |segs|
  {
    if segs == [] then []
    else
      var s := segs[|segs| - 1];
      GeometryUpdates(segs[..|segs| - 1]) + if |s.points| > 2 then [Simplification(s)] else []
  }

  lemma GeometryUpdatesSnoc(segs: seq<Segment>, s: Segment)
    ensures GeometryUpdates(segs + [s]) == GeometryUpdates(segs) + if |s.points| > 2 then [Simplification(s)] else []
  {
    assert (segs + [s])[..|segs + [s]| - 1] == segs;
  }

  /** Nothing but the simplification of a segment with more than two points is updated. */
  lemma {:induction false} UpdatesAreSimplifications(segs: seq<Segment>)
    ensures forall k :: 0 <= k < |GeometryUpdates(segs)| ==>
      exists i :: 0 <= i < |segs| && |segs[i].points| > 2 && GeometryUpdates(segs)[k] == Simplification(segs[i])
  {
    if segs != [] {
      var init := segs[..|segs| - 1];
      var s := segs[|segs| - 1];
      assert segs == init + [s];
      UpdatesAreSimplifications(init);
      GeometryUpdatesSnoc(init, s);
      var prev := GeometryUpdates(init);
      var r := GeometryUpdates(segs);
      assert r == prev + if |s.points| > 2 then [Simplification(s)] else [];
      forall k | 0 <= k < |r|
        ensures exists i :: 0 <= i < |segs| && |segs[i].points| > 2 && r[k] == Simplification(segs[i])
      {
        if k < |prev| {
          var i :| 0 <= i < |init| && |init[i].points| > 2 && prev[k] == Simplification(init[i]);
          assert init[i] == segs[i];
          assert r[k] == Simplification(segs[i]);
        } else {
          assert r[k] == Simplification(segs[|segs| - 1]);
        }
      }
    } else {
      assert GeometryUpdates(segs) == [];
    }
  }

  /** Every segment with more than two points has its simplification among the updates. */
  lemma {:induction false} SimplifiedSegmentsAreUpdated(segs: seq<Segment>)
    ensures forall i :: 0 <= i < |segs| && |segs[i].points| > 2 ==> Simplification(segs[i]) in GeometryUpdates(segs)
  {
    if segs != [] {
      var init := segs[..|segs| - 1];
      var s := segs[|segs| - 1];
      assert segs == init + [s];
      SimplifiedSegmentsAreUpdated(init);
      GeometryUpdatesSnoc(init, s);
      var prev := GeometryUpdates(init);
      var r := GeometryUpdates(segs);
      forall i | 0 <= i < |segs| && |segs[i].points| > 2
        ensures Simplification(segs[i]) in r
      {
        if i < |init| {
          assert init[i] == segs[i];
          assert Simplification(init[i]) in prev;
        } else {
          assert r[|r| - 1] == Simplification(segs[i]);
        }
      }
    }
  }

  /** A simplification keeps the first and last point and records the untouched original. */
  lemma SimplificationKeepsEnds(s: Segment)
    requires |s.points| > 2
    ensures Simplification(s).UpdateSegmentGeometry?
    ensures Simplification(s).segment == s.id
    ensures Simplification(s).oldGeometry == s.points
    ensures Simplification(s).newGeometry == [s.points[0], s.points[|s.points| - 1]]
  {
  }

  /** The loop over the selection: collects allNodeIds and the geometry updates together. */
  method CollectSelection(segs: seq<Segment>) returns (allNodeIds: seq<NodeId>, updates: seq<Action>)
    ensures allNodeIds == NodeIds(segs)
    ensures updates == GeometryUpdates(segs)
  {
    allNodeIds := [];
    updates := [];
    ghost var done: seq<Segment> := [];
    var idx := 0;
    while idx < |segs|
      invariant 0 <= idx <= |segs|
      invariant done == segs[..idx]
      invariant allNodeIds == NodeIds(done)
      invariant updates == GeometryUpdates(done)
    {
      var s := segs[idx];
      NodeIdsSnoc(done, s);
      GeometryUpdatesSnoc(done, s);
      allNodeIds := allNodeIds + [s.fromNode];
      allNodeIds := allNodeIds + [s.toNode];
      if |s.points| > 2 {
        updates := updates + [UpdateSegmentGeometry(s.id, s.points, RemoveGeometryNodes(s.points))];
      }
      done := done + [s];
      assert done == segs[..idx + 1];
      idx := idx + 1;
    }
    assert done == segs;
  }

  /** The node move queued for a node that is not an endpoint: to its projection onto the line. */
  function Relocation(w: World, l: Line, id: NodeId): Action
    requires l.a != l.b
    requires id in w.nodes && NodeClosed(w, w.nodes[id])
  {
    var n := w.nodes[id];
    MoveNode(id, n.geometry, Project(l, n.geometry), Snapshot(w, n.segIds))
  }

  /** The node moves, one per node to move, in order. */
  function NodeMoves(w: World, l: Line, toMove: seq<NodeId>): (r: seq<Action>)
    requires toMove == [] || l.a != l.b
    requires NodesLoaded(w, toMove)
    ensures |r| == |toMove|
    ensures forall k :: 0 <= k < |r| ==> r[k] == Relocation(w, l, toMove[k])
  {
    if toMove == [] then []
    else
      var init := toMove[..|toMove| - 1];
      assert forall k :: 0 <= k < |init| ==> init[k] == toMove[k];
      NodeMoves(w, l, init) + [Relocation(w, l, toMove[|toMove| - 1])]
  }

  /**
   * Each move takes its node from where it is to a point on the line, along
   * the line's normal, and carries the geometry of every segment at the node.
   */
  lemma NodeMovesLandOnLine(w: World, l: Line, toMove: seq<NodeId>, k: int)
    requires toMove == [] || l.a != l.b
    requires NodesLoaded(w, toMove)
    requires 0 <= k < |toMove|
    ensures var m := NodeMoves(w, l, toMove)[k];
      var g := w.nodes[toMove[k]].geometry;
      && m.MoveNode?
      && m.node == toMove[k]
      && m.oldPosition == g
      && OnLine(l, m.newPosition)
      && m.newPosition == Project(l, g)
      && m.connectedSegments == Snapshot(w, w.nodes[toMove[k]].segIds)
  {
    assert NodeMoves(w, l, toMove)[k] == Relocation(w, l, toMove[k]);
    ProjectOnLine(l, w.nodes[toMove[k]].geometry);
  }

  lemma NodeMovesSnoc(w: World, l: Line, toMove: seq<NodeId>, id: NodeId)
    requires l.a != l.b
    requires NodesLoaded(w, toMove + [id])
    requires id in w.nodes && NodeClosed(w, w.nodes[id])
    ensures NodesLoaded(w, toMove)
    ensures NodeMoves(w, l, toMove + [id]) == NodeMoves(w, l, toMove) + [Relocation(w, l, id)]
  {
    assert (toMove + [id])[..|toMove + [id]| - 1] == toMove;
    assert forall k :: 0 <= k < |toMove| ==> toMove[k] == (toMove + [id])[k];
  }

  /** Whether moving node id onto the line carries it further than ten meters. */
  predicate IsLongMove(geo: Geodesy, w: World, l: Line, id: NodeId)
    requires l.a != l.b
    requires id in w.nodes
  {
    var g := w.nodes[id].geometry;
    geo.meters(geo.toLonLat(g), geo.toLonLat(Project(l, g))) > LongMoveMeters
  }

  /** longMove: some node to move travels further than ten meters. */
  function AnyLongMove(geo: Geodesy, w: World, l: Line, toMove: seq<NodeId>): (r: bool)
    requires toMove == [] || l.a != l.b
    requires NodesLoaded(w, toMove)
    ensures r <==> exists k :: 0 <= k < |toMove| && IsLongMove(geo, w, l, toMove[k])
  {
    if toMove == [] then false
    else
      var init := toMove[..|toMove| - 1];
      assert forall k :: 0 <= k < |init| ==> init[k] == toMove[k];
      AnyLongMove(geo, w, l, init) || IsLongMove(geo, w, l, toMove[|toMove| - 1])
  }

  lemma AnyLongMoveSnoc(geo: Geodesy, w: World, l: Line, toMove: seq<NodeId>, id: NodeId)
    requires l.a != l.b
    requires NodesLoaded(w, toMove + [id])
    requires NodesLoaded(w, toMove)
    requires id in w.nodes && NodeClosed(w, w.nodes[id])
    ensures AnyLongMove(geo, w, l, toMove + [id]) == (AnyLongMove(geo, w, l, toMove) || IsLongMove(geo, w, l, id))
  {
    assert (toMove + [id])[..|toMove + [id]| - 1] == toMove;
  }

  lemma WithoutSnoc(s: seq<NodeId>, x: NodeId, excl: seq<NodeId>)
    ensures Without(s + [x], excl) == Without(s, excl) + if x in excl then [] else [x]
  {
    assert (s + [x])[..|s + [x]| - 1] == s;
  }

  lemma LoadedByMembership(w: World, ids: seq<NodeId>, from: seq<NodeId>)
    requires NodesLoaded(w, from)
    requires forall id :: id in ids ==> id in from
    ensures NodesLoaded(w, ids)
  {
    forall i | 0 <= i < |ids|
      ensures ids[i] in w.nodes && NodeClosed(w, w.nodes[ids[i]])
    {
      var x := ids[i];
      assert x in ids;
      assert x in from;
      var j :| 0 <= j < |from| && from[j] == x;
    }
  }

  /** The body of the loop for one node: its projection, its snapshot and whether it moves far. */
  method MoveForNode(geo: Geodesy, w: World, l: Line, nodeId: NodeId) returns (m: Action, long: bool)
    requires l.a != l.b
    requires nodeId in w.nodes && NodeClosed(w, w.nodes[nodeId])
    ensures m == Relocation(w, l, nodeId)
    ensures long == IsLongMove(geo, w, l, nodeId)
  {
    var node := w.nodes[nodeId];
    var d := PerpendicularConstant(l, node.geometry);
    var r1 := GetIntersectCoord(l.a, l.b, l.c, d);
    var connectedSegObjs := CaptureGeometries(w, node.segIds, map[]);
    assert map[] + Snapshot(w, node.segIds) == Snapshot(w, node.segIds);
    long := geo.meters(geo.toLonLat(node.geometry), geo.toLonLat(r1)) > LongMoveMeters;
    m := MoveNode(nodeId, node.geometry, r1, connectedSegObjs);
  }

  /** What one step of the loop over distinctNodes adds to the nodes to move. */
  lemma PlanStep(w: World, distinct: seq<NodeId>, endpoints: seq<NodeId>, idx: int)
    requires 0 <= idx < |distinct|
    requires NodesLoaded(w, distinct)
    ensures distinct[idx] in endpoints ==>
      Without(distinct[..idx + 1], endpoints) == Without(distinct[..idx], endpoints)
    ensures distinct[idx] !in endpoints ==>
      Without(distinct[..idx + 1], endpoints) == Without(distinct[..idx], endpoints) + [distinct[idx]]
    ensures distinct[idx] in w.nodes && NodeClosed(w, w.nodes[distinct[idx]])
    ensures distinct[idx] !in endpoints ==> distinct[idx] in Without(distinct, endpoints)
  {
    assert distinct[..idx + 1] == distinct[..idx] + [distinct[idx]];
    WithoutSnoc(distinct[..idx], distinct[idx], endpoints);
  }

  lemma LoadedSnoc(w: World, ids: seq<NodeId>, x: NodeId)
    requires NodesLoaded(w, ids)
    requires x in w.nodes && NodeClosed(w, w.nodes[x])
    ensures NodesLoaded(w, ids + [x])
  {
    assert forall i :: 0 <= i < |ids| ==> (ids + [x])[i] == ids[i];
  }

  /**
   * The loop over distinctNodes: every node that is not an endpoint gets a
   * move to its projection, and longMove records whether any is long.
   */
  method PlanNodeMoves(geo: Geodesy, w: World, l: Line, distinct: seq<NodeId>, endpoints: seq<NodeId>)
    returns (moves: seq<Action>, longMove: bool)
    requires NodesLoaded(w, distinct)
    requires Without(distinct, endpoints) == [] || l.a != l.b
    ensures NodesLoaded(w, Without(distinct, endpoints))
    ensures moves == NodeMoves(w, l, Without(distinct, endpoints))
    ensures longMove == AnyLongMove(geo, w, l, Without(distinct, endpoints))
  {
    moves := [];
    longMove := false;
    ghost var done: seq<NodeId> := [];
    var idx := 0;
    while idx < |distinct|
      invariant 0 <= idx <= |distinct|
      invariant done == Without(distinct[..idx], endpoints)
      invariant NodesLoaded(w, done)
      invariant done == [] || l.a != l.b
      invariant moves == NodeMoves(w, l, done)
      invariant longMove == AnyLongMove(geo, w, l, done)
    {
      var nodeId := distinct[idx];
      PlanStep(w, distinct, endpoints, idx);
      if nodeId !in endpoints {
        LoadedSnoc(w, done, nodeId);
        NodeMovesSnoc(w, l, done, nodeId);
        AnyLongMoveSnoc(geo, w, l, done, nodeId);
        var m, long := MoveForNode(geo, w, l, nodeId);
        if long {
          longMove := true;
        }
        moves := moves + [m];
        done := done + [nodeId];
      }
      assert done == Without(distinct[..idx + 1], endpoints);
      idx := idx + 1;
    }
    assert distinct[..idx] == distinct;
  }

  // ----------------------------------------------------------- line fit

  lemma SelectionLoaded(segs: seq<Segment>, w: World)
    requires WellFormed(segs, w)
    ensures NodesLoaded(w, NodeIds(segs))
  {
    var all := NodeIds(segs);
    forall k | 0 <= k < |all|
      ensures all[k] in w.nodes && NodeClosed(w, w.nodes[all[k]])
    {
      var i := k / 2;
      if k % 2 == 0 {
        assert k == 2 * i;
        assert all[k] == segs[i].fromNode;
      } else {
        assert k == 2 * i + 1;
        assert all[k] == segs[i].toNode;
      }
    }
  }

  /** endPointNodeIds before ordering: the ids seen once, or first-from and last-to for a split selection. */
  function EndpointIds(sel: Selection): (r: seq<NodeId>)
    requires |sel.segments| > 0
    ensures forall id :: id in r ==> id in NodeIds(sel.segments)
  {
    var s := sel.segments;
    var all := NodeIds(s);
    if !sel.multipleConnectedComponents then Without(Distinct(all), Dups(all))
    else
      assert all[0] == s[0].fromNode;
      assert all[2 * (|s| - 1) + 1] == s[|s| - 1].toNode;
      [s[0].fromNode, s[|s| - 1].toNode]
  }

  /** The endpoint ids and the two endpoint geometries after the swap. */
  datatype Ends = Ends(ids: seq<NodeId>, p1: Point, p2: Point)

  /** The swap of the endpoint geometries, with the id list rotated in step. */
  predicate Ordered(ends: seq<NodeId>, g1: Point, g2: Point, o: Ends)
    requires |ends| >= 2
  {
    if g1.x > g2.x then o == Ends(ends[1..] + [ends[0]], g2, g1)
    else o == Ends(ends, g1, g2)
  }

  /**
   * The endpoint ordering: when the first endpoint lies right of the second
   * their geometries are swapped and the id list rotated by one.
   */
  function OrderEndpoints(w: World, ends: seq<NodeId>): (o: Ends)
    requires |ends| >= 2 && ends[0] in w.nodes && ends[1] in w.nodes
    ensures Ordered(ends, w.nodes[ends[0]].geometry, w.nodes[ends[1]].geometry, o)
    ensures o.p1.x <= o.p2.x
    ensures forall id :: id in o.ids <==> id in ends
  {
    var g1 := w.nodes[ends[0]].geometry;
    var g2 := w.nodes[ends[1]].geometry;
    DeltaNegativeIffGreater(g1.x, g2.x);
    if GetDeltaDirect(g1.x, g2.x) < 0.0 then
      assert ends == [ends[0]] + ends[1..];
      Ends(ends[1..] + [ends[0]], g2, g1)
    else Ends(ends, g1, g2)
  }

  /** The ordered endpoints, the line through them and the nodes that will move. */
  datatype Fit = Fit(ends: Ends, line: Line, toMove: seq<NodeId>)

  datatype Fitting = Fitted(fit: Fit) | Unfit(fault: Fault)

  /** Fitting the line through the two ordered endpoints; the distinct ids that are not endpoints move. */
  function FitLine(w: World, sel: Selection): (r: Fitting)
    requires |sel.segments| > 0
    requires WellFormed(sel.segments, w)
    ensures r == Unfit(MissingEndpoint) <==> |EndpointIds(sel)| < 2
    ensures r.Fitted? ==>
      && (forall id :: id in r.fit.toMove ==> id in NodeIds(sel.segments))
      && (r.fit.toMove == [] || r.fit.line.a != r.fit.line.b)
  {
    var all := NodeIds(sel.segments);
    var ends := EndpointIds(sel);
    if |ends| < 2 then Unfit(MissingEndpoint)
    else
      SelectionLoaded(sel.segments, w);
      assert ends[0] in ends && ends[1] in ends;
      LoadedByMembership(w, ends, all);
      var o := OrderEndpoints(w, ends);
      var line := LineThrough(o.p1, o.p2);
      var toMove := Without(Distinct(all), o.ids);
      if toMove != [] && line.a == line.b then Unfit(DivisionByZero)
      else Fitted(Fit(o, line, toMove))
  }

  /**
   * The fitted line passes through both ordered endpoints, and the nodes
   * to move are the selection's other nodes, each once.
   */
  lemma FitLineProperties(w: World, sel: Selection)
    requires |sel.segments| > 0
    requires WellFormed(sel.segments, w)
    requires FitLine(w, sel).Fitted?
    ensures var ends := EndpointIds(sel);
      var f := FitLine(w, sel).fit;
      && |ends| >= 2
      && ends[0] in w.nodes && ends[1] in w.nodes
      && f.ends == OrderEndpoints(w, ends)
      && OnLine(f.line, f.ends.p1) && OnLine(f.line, f.ends.p2)
      && (forall id :: id in f.toMove <==> id in NodeIds(sel.segments) && id !in ends)
      && NoDuplicates(f.toMove)
  {
    var ends := EndpointIds(sel);
    SelectionLoaded(sel.segments, w);
    assert ends[0] in ends && ends[1] in ends;
    LoadedByMembership(w, ends, NodeIds(sel.segments));
    var o := OrderEndpoints(w, ends);
    LineThroughPassesThrough(o.p1, o.p2);
    DistinctNoDuplicates(NodeIds(sel.segments));
    WithoutNoDuplicates(Distinct(NodeIds(sel.segments)), o.ids);
  }

  /** For a connected selection, the endpoints are exactly the ids seen once. */
  lemma ConnectedEndpointsSeenOnce(w: World, sel: Selection, id: NodeId)
    requires |sel.segments| > 0
    requires WellFormed(sel.segments, w)
    requires !sel.multipleConnectedComponents
    requires FitLine(w, sel).Fitted?
    ensures id in FitLine(w, sel).fit.ends.ids <==> Count(NodeIds(sel.segments), id) == 1
  {
    FitLineProperties(w, sel);
    EndpointsSeenOnce(NodeIds(sel.segments), id);
  }

  /** The moves are listed in the order of the nodes to move, one per node. */
  lemma MovedNodeIds(w: World, l: Line, toMove: seq<NodeId>)
    requires toMove == [] || l.a != l.b
    requires NodesLoaded(w, toMove)
    ensures forall k :: 0 <= k < |toMove| ==>
      NodeMoves(w, l, toMove)[k].MoveNode? && NodeMoves(w, l, toMove)[k].node == toMove[k]
  {
    forall k | 0 <= k < |toMove|
      ensures NodeMoves(w, l, toMove)[k].MoveNode? && NodeMoves(w, l, toMove)[k].node == toMove[k]
    {
      assert NodeMoves(w, l, toMove)[k] == Relocation(w, l, toMove[k]);
    }
  }

  /** The fitted nodes to move are loaded, so their moves are defined. */
  lemma FittedNodesLoaded(w: World, sel: Selection)
    requires |sel.segments| > 0
    requires WellFormed(sel.segments, w)
    requires FitLine(w, sel).Fitted?
    ensures NodesLoaded(w, FitLine(w, sel).fit.toMove)
  {
    SelectionLoaded(sel.segments, w);
    LoadedByMembership(w, FitLine(w, sel).fit.toMove, NodeIds(sel.segments));
  }

  /** No endpoint gets a move. */
  lemma EndpointsStay(w: World, sel: Selection, id: NodeId)
    requires |sel.segments| > 0
    requires WellFormed(sel.segments, w)
    requires FitLine(w, sel).Fitted?
    requires id in FitLine(w, sel).fit.ends.ids
    ensures var f := FitLine(w, sel).fit;
      NodesLoaded(w, f.toMove) &&
      forall k :: 0 <= k < |f.toMove| ==> NodeMoves(w, f.line, f.toMove)[k].node != id
  {
    var f := FitLine(w, sel).fit;
    FitLineProperties(w, sel);
    FittedNodesLoaded(w, sel);
    MovedNodeIds(w, f.line, f.toMove);
    forall k | 0 <= k < |f.toMove|
      ensures NodeMoves(w, f.line, f.toMove)[k].node != id
    {
      assert f.toMove[k] in f.toMove;
    }
  }

  /** Exactly one of the moves is a move of node id. */
  predicate MovedOnce(moves: seq<Action>, id: NodeId) {
    exists k :: 0 <= k < |moves| && moves[k].MoveNode? && moves[k].node == id &&
      forall k' :: 0 <= k' < |moves| && moves[k'].MoveNode? && moves[k'].node == id ==> k' == k
  }

  /** A node listed once among the nodes to move gets exactly one of moves made one per node. */
  lemma ListedNodeMovesOnce(moves: seq<Action>, toMove: seq<NodeId>, id: NodeId)
    requires |moves| == |toMove|
    requires forall k :: 0 <= k < |moves| ==> moves[k].MoveNode? && moves[k].node == toMove[k]
    requires NoDuplicates(toMove) && id in toMove
    ensures MovedOnce(moves, id)
  {
    var k :| 0 <= k < |toMove| && toMove[k] == id;
    assert moves[k].node == id;
    forall k' | 0 <= k' < |moves| && moves[k'].node == id
      ensures k' == k
    {
      assert toMove[k'] == toMove[k];
    }
  }

  /** Every node of the selection that is not an endpoint gets exactly one move. */
  lemma InteriorNodesMoveOnce(w: World, sel: Selection, id: NodeId)
    requires |sel.segments| > 0
    requires WellFormed(sel.segments, w)
    requires FitLine(w, sel).Fitted?
    requires id !in FitLine(w, sel).fit.ends.ids && id in NodeIds(sel.segments)
    ensures var f := FitLine(w, sel).fit;
      NodesLoaded(w, f.toMove) &&
      MovedOnce(NodeMoves(w, f.line, f.toMove), id)
  {
    var f := FitLine(w, sel).fit;
    FitLineProperties(w, sel);
    FittedNodesLoaded(w, sel);
    MovedNodeIds(w, f.line, f.toMove);
    ListedNodeMovesOnce(NodeMoves(w, f.line, f.toMove), f.toMove, id);
  }

  // ------------------------------------------------------------ pipeline

  /** One selected segment: the micro-dogleg gate on its two end nodes, then its simplification. */
  function StraightenOne(mdl: Setting, geo: Geodesy, w: World, s: Segment, f: Flags): Outcome<Entry>
    requires WellFormed([s], w)
  {
    assert [s][0] == s;
    match Gate(!f.microDogLegs && HasMicroDogLeg(geo, w, [s.fromNode, s.toNode], Some(s.id)), mdl)
    case Reject => Failed(MicroDogLegs)
    case Ask => Confirm(MicroDogLegs, Entry(f.(microDogLegs := true, longJnMove := false), None))
    case Proceed => Applied(if |s.points| > 2 then [Simplification(s)] else [])
  }

  /** The long-move gate over the planned edits; passing it commits the plan. */
  function LongMoveStage(long: Setting, geo: Geodesy, w: World, segs: seq<Segment>, fit: Fit): Outcome<Entry>
    requires fit.toMove == [] || fit.line.a != fit.line.b
    requires NodesLoaded(w, fit.toMove)
  {
    var plan := Plan(GeometryUpdates(segs), NodeMoves(w, fit.line, fit.toMove));
    match Gate(AnyLongMove(geo, w, fit.line, fit.toMove), long)
    case Reject => Failed(LongJnMove)
    case Ask => Confirm(LongJnMove, Entry(Flags(true, true, true, true, true), Some(plan)))
    case Proceed => Applied(Commit(plan))
  }

  /** The line fit, then the long-move gate over the planned edits. */
  function FitAndCommit(long: Setting, geo: Geodesy, w: World, sel: Selection): Outcome<Entry>
    requires |sel.segments| > 0
    requires WellFormed(sel.segments, w)
  {
    match FitLine(w, sel)
    case Unfit(fault) => Faulted(fault)
    case Fitted(fit) =>
      SelectionLoaded(sel.segments, w);
      LoadedByMembership(w, fit.toMove, NodeIds(sel.segments));
      LongMoveStage(long, geo, w, sel.segments, fit)
  }

  /** The micro-dogleg gate on every distinct node, then the line fit and the long-move gate. */
  function StraightenFitted(mdl: Setting, long: Setting, mdlAccepted: bool, geo: Geodesy, w: World, sel: Selection)
    : Outcome<Entry>
    requires |sel.segments| > 0
    requires WellFormed(sel.segments, w)
  {
    var all := NodeIds(sel.segments);
    SelectionLoaded(sel.segments, w);
    LoadedByMembership(w, Distinct(all), all);
    match Gate(!mdlAccepted && HasMicroDogLeg(geo, w, Distinct(all), None), mdl)
    case Reject => Failed(MicroDogLegs)
    case Ask => Confirm(MicroDogLegs, Entry(Flags(true, true, true, true, false), None))
    case Proceed => FitAndCommit(long, geo, w, sel)
  }

  /** Several selected segments: the sanity, continuity and name gates, then the rest. */
  function StraightenMany(st: Settings, geo: Geodesy, w: World, sel: Selection, f: Flags): Outcome<Entry>
    requires |sel.segments| > 1
    requires WellFormed(sel.segments, w)
  {
    match Gate(|sel.segments| > SanityLimit && !f.sanity, st.sanityCheck)
    case Reject => Failed(TooManySegments)
    case Ask => Confirm(TooManySegments, Entry(Flags(true, false, false, false, false), None))
    case Proceed =>
    match Gate(sel.multipleConnectedComponents && !f.nonContinuous, st.nonContinuousSelection)
    case Reject => Failed(NonContinuous)
    case Ask => Confirm(NonContinuous, Entry(Flags(true, true, false, false, false), None))
    case Proceed =>
    match Gate(!f.conflictingNames && !NamesContinuous(sel.segments), st.conflictingNames)
    case Reject => Failed(ConflictingNames)
    case Ask => Confirm(ConflictingNames, Entry(Flags(true, true, true, false, false), None))
    case Proceed => StraightenFitted(st.microDogLegs, st.longJnMove, f.microDogLegs, geo, w, sel)
  }

  /** One call of doStraightenSegments with the given settings, selection and arguments. */
  function Straighten(st: Settings, geo: Geodesy, w: World, sel: Selection, e: Entry): Outcome<Entry>
    requires WellFormed(sel.segments, w)
  {
    if IsCommit(e) then Applied(Commit(e.passed.value))
    else if |sel.segments| > 1 then StraightenMany(st, geo, w, sel, e.flags)
    else if |sel.segments| == 1 then
      assert sel.segments == [sel.segments[0]];
      StraightenOne(st.microDogLegs, geo, w, sel.segments[0], e.flags)
    else NoOp
  }

// ------------------------------------------------------ pipeline lemmas

  /** Whether the flag of hazard h is set among the `...Continue` arguments. */
  function Accepted(f: Flags, h: Hazard): bool {
    match h
    case TooManySegments => f.sanity
    case NonContinuous => f.nonContinuous
    case ConflictingNames => f.conflictingNames
    case MicroDogLegs => f.microDogLegs
    case LongJnMove => f.longJnMove
  }

  /** An outcome that reports a hazard under the setting that hazard has: `error` for a failure, `warning` for a question. */
  predicate Respects(st: Settings, o: Outcome<Entry>) {
    && (o.Failed? ==> SettingFor(st, o.error) == Error)
    && (o.Confirm? ==> SettingFor(st, o.hazard) == Warning)
  }

  lemma LongMoveStageRespects(st: Settings, geo: Geodesy, w: World, segs: seq<Segment>, fit: Fit)
    requires fit.toMove == [] || fit.line.a != fit.line.b
    requires NodesLoaded(w, fit.toMove)
    ensures Respects(st, LongMoveStage(st.longJnMove, geo, w, segs, fit))
  {
  }

  lemma StraightenFittedRespects(st: Settings, mdlAccepted: bool, geo: Geodesy, w: World, sel: Selection)
    requires |sel.segments| > 0
    requires WellFormed(sel.segments, w)
    ensures Respects(st, StraightenFitted(st.microDogLegs, st.longJnMove, mdlAccepted, geo, w, sel))
  {
    var all := NodeIds(sel.segments);
    SelectionLoaded(sel.segments, w);
    LoadedByMembership(w, Distinct(all), all);
    if Gate(!mdlAccepted && HasMicroDogLeg(geo, w, Distinct(all), None), st.microDogLegs) == Proceed {
      var r := FitLine(w, sel);
      if r.Fitted? {
        LoadedByMembership(w, r.fit.toMove, all);
        LongMoveStageRespects(st, geo, w, sel.segments, r.fit);
      }
    }
  }

  lemma StraightenManyRespects(st: Settings, geo: Geodesy, w: World, sel: Selection, f: Flags)
    requires |sel.segments| > 1
    requires WellFormed(sel.segments, w)
    ensures Respects(st, StraightenMany(st, geo, w, sel, f))
  {
    if && Gate(|sel.segments| > SanityLimit && !f.sanity, st.sanityCheck) == Proceed
       && Gate(sel.multipleConnectedComponents && !f.nonContinuous, st.nonContinuousSelection) == Proceed
       && Gate(!f.conflictingNames && !NamesContinuous(sel.segments), st.conflictingNames) == Proceed
    {
      StraightenFittedRespects(st, f.microDogLegs, geo, w, sel);
    }
  }

  /** A hazard ends the run with an error only under `error`, and asks only under `warning`. */
  lemma OutcomeFollowsSetting(st: Settings, geo: Geodesy, w: World, sel: Selection, e: Entry)
    requires WellFormed(sel.segments, w)
    ensures Respects(st, Straighten(st, geo, w, sel, e))
  {
    if !IsCommit(e) && |sel.segments| > 1 {
      StraightenManyRespects(st, geo, w, sel, e.flags);
    }
  }

  /** The flags the accept path of hazard h re-enters with: h and every earlier hazard accepted. */
  function UpTo(h: Hazard): (f: Flags) {
    match h
    case TooManySegments => Flags(true, false, false, false, false)
    case NonContinuous => Flags(true, true, false, false, false)
    case ConflictingNames => Flags(true, true, true, false, false)
    case MicroDogLegs => Flags(true, true, true, true, false)
    case LongJnMove => Flags(true, true, true, true, true)
  }

  lemma UpToSetsEarlier(h: Hazard, g: Hazard)
    ensures Accepted(UpTo(h), g) <==> Rank(g) <= Rank(h)
  {
  }

  /**
   * How a confirmation of the multi-segment path looks: its hazard's flag
   * was clear (except for the flagless long-move gate), its accept path
   * sets the flags up to that hazard, and only the long move hands over
   * the plan.
   */
  predicate AcceptShape(f: Flags, o: Outcome<Entry>) {
    o.Confirm? ==>
      && (o.hazard != LongJnMove ==> !Accepted(f, o.hazard))
      && o.onAccept.flags == UpTo(o.hazard)
      && (o.onAccept.passed.Some? <==> o.hazard == LongJnMove)
  }

  lemma LongMoveStageAcceptShape(long: Setting, f: Flags, geo: Geodesy, w: World, segs: seq<Segment>, fit: Fit)
    requires fit.toMove == [] || fit.line.a != fit.line.b
    requires NodesLoaded(w, fit.toMove)
    ensures AcceptShape(f, LongMoveStage(long, geo, w, segs, fit))
  {
  }

  lemma StraightenFittedAcceptShape(mdl: Setting, long: Setting, f: Flags, geo: Geodesy, w: World, sel: Selection)
    requires |sel.segments| > 0
    requires WellFormed(sel.segments, w)
    ensures AcceptShape(f, StraightenFitted(mdl, long, f.microDogLegs, geo, w, sel))
  {
    var all := NodeIds(sel.segments);
    SelectionLoaded(sel.segments, w);
    LoadedByMembership(w, Distinct(all), all);
    if Gate(!f.microDogLegs && HasMicroDogLeg(geo, w, Distinct(all), None), mdl) == Proceed {
      var r := FitLine(w, sel);
      if r.Fitted? {
        LoadedByMembership(w, r.fit.toMove, all);
        LongMoveStageAcceptShape(long, f, geo, w, sel.segments, r.fit);
      }
    }
  }

  lemma StraightenManyAcceptShape(st: Settings, geo: Geodesy, w: World, sel: Selection, f: Flags)
    requires |sel.segments| > 1
    requires WellFormed(sel.segments, w)
    ensures AcceptShape(f, StraightenMany(st, geo, w, sel, f))
  {
    if && Gate(|sel.segments| > SanityLimit && !f.sanity, st.sanityCheck) == Proceed
       && Gate(sel.multipleConnectedComponents && !f.nonContinuous, st.nonContinuousSelection) == Proceed
       && Gate(!f.conflictingNames && !NamesContinuous(sel.segments), st.conflictingNames) == Proceed
    {
      StraightenFittedAcceptShape(st.microDogLegs, st.longJnMove, f, geo, w, sel);
    }
  }

  /**
   * The accept path of a confirmation in a run over several segments sets
   * the flag of that hazard and of every earlier one and clears the later
   * ones; the hazard's own flag was clear, unless it is the long move,
   * which has no flag check; only the long-move confirmation hands over
   * the plan.
   */
  lemma AcceptSetsEarlierFlags(st: Settings, geo: Geodesy, w: World, sel: Selection, e: Entry, g: Hazard)
    requires WellFormed(sel.segments, w)
    requires !IsCommit(e) && |sel.segments| > 1
    requires Straighten(st, geo, w, sel, e).Confirm?
    ensures var o := Straighten(st, geo, w, sel, e);
      && (o.hazard != LongJnMove ==> !Accepted(e.flags, o.hazard))
      && (Accepted(o.onAccept.flags, g) <==> Rank(g) <= Rank(o.hazard))
      && (o.onAccept.passed.Some? <==> o.hazard == LongJnMove)
  {
    StraightenManyAcceptShape(st, geo, w, sel, e.flags);
    UpToSetsEarlier(Straighten(st, geo, w, sel, e).hazard, g);
  }

  /** The single-segment confirmation is about micro-doglegs; its accept path sets that flag and clears the long-move one. */
  lemma SingleSegmentAccept(st: Settings, geo: Geodesy, w: World, sel: Selection, e: Entry)
    requires WellFormed(sel.segments, w)
    requires !IsCommit(e) && |sel.segments| == 1
    requires Straighten(st, geo, w, sel, e).Confirm?
    ensures var o := Straighten(st, geo, w, sel, e);
      && o.hazard == MicroDogLegs
      && !e.flags.microDogLegs
      && o.onAccept == Entry(e.flags.(microDogLegs := true, longJnMove := false), None)
  {
  }

  /** A confirmation that follows one of the accept shape, entered with its accept flags, is about a later hazard. */
  lemma ShapesAdvance(f: Flags, o: Outcome<Entry>, next: Outcome<Entry>)
    requires o.Confirm? && o.hazard != LongJnMove && AcceptShape(f, o)
    requires AcceptShape(UpTo(o.hazard), next)
    ensures next.Confirm? ==> Rank(next.hazard) > Rank(o.hazard)
  {
    if next.Confirm? && next.hazard != LongJnMove {
      UpToSetsEarlier(o.hazard, next.hazard);
    }
  }

  /** Over several segments, the run after accepting a flagged hazard confirms only a later one. */
  lemma ManyConfirmationsAdvance(st: Settings, geo: Geodesy, w: World, sel: Selection, f: Flags)
    requires |sel.segments| > 1
    requires WellFormed(sel.segments, w)
    requires StraightenMany(st, geo, w, sel, f).Confirm?
    requires StraightenMany(st, geo, w, sel, f).hazard != LongJnMove
    ensures var h := StraightenMany(st, geo, w, sel, f).hazard;
      var next := StraightenMany(st, geo, w, sel, UpTo(h));
      next.Confirm? ==> Rank(next.hazard) > Rank(h)
  {
    var o := StraightenMany(st, geo, w, sel, f);
    StraightenManyAcceptShape(st, geo, w, sel, f);
    StraightenManyAcceptShape(st, geo, w, sel, UpTo(o.hazard));
    ShapesAdvance(f, o, StraightenMany(st, geo, w, sel, UpTo(o.hazard)));
  }

  /** Over several segments, the entry a confirmation hands back runs into a later hazard, if any. */
  lemma ManyEntryAdvances(st: Settings, geo: Geodesy, w: World, sel: Selection, e: Entry)
    requires WellFormed(sel.segments, w)
    requires !IsCommit(e) && |sel.segments| > 1
    requires StraightenMany(st, geo, w, sel, e.flags).Confirm?
    ensures var o := StraightenMany(st, geo, w, sel, e.flags);
      var next := Straighten(st, geo, w, sel, o.onAccept);
      next.Confirm? ==> Rank(next.hazard) > Rank(o.hazard)
  {
    var o := StraightenMany(st, geo, w, sel, e.flags);
    StraightenManyAcceptShape(st, geo, w, sel, e.flags);
    if o.hazard != LongJnMove {
      assert !IsCommit(o.onAccept);
      ManyConfirmationsAdvance(st, geo, w, sel, e.flags);
    } else {
      assert IsCommit(o.onAccept);
    }
  }

  /** The single-segment confirmation is the last one: accepting it straightens the segment. */
  lemma SingleEntryCommits(st: Settings, geo: Geodesy, w: World, sel: Selection, e: Entry)
    requires WellFormed(sel.segments, w)
    requires !IsCommit(e) && |sel.segments| == 1
    requires Straighten(st, geo, w, sel, e).Confirm?
    ensures !Straighten(st, geo, w, sel, Straighten(st, geo, w, sel, e).onAccept).Confirm?
  {
    SingleSegmentAccept(st, geo, w, sel, e);
  }

  /**
   * Accepting a confirmation never brings back the same or an earlier
   * hazard: the next confirmation, if any, is about a later one.
   */
  lemma ConfirmationsAdvance(st: Settings, geo: Geodesy, w: World, sel: Selection, e: Entry)
    requires WellFormed(sel.segments, w)
    requires !IsCommit(e)
    requires Straighten(st, geo, w, sel, e).Confirm?
    ensures var o := Straighten(st, geo, w, sel, e);
      var next := Straighten(st, geo, w, sel, o.onAccept);
      next.Confirm? ==> Rank(next.hazard) > Rank(o.hazard)
  {
    if |sel.segments| > 1 {
      ManyEntryAdvances(st, geo, w, sel, e);
    } else {
      SingleEntryCommits(st, geo, w, sel, e);
    }
  }

  /** Once its flag is set, the micro-dogleg gate behaves as under `nowarning`. */
  lemma FittedAcceptedIsOff(mdl: Setting, long: Setting, geo: Geodesy, w: World, sel: Selection)
    requires |sel.segments| > 0
    requires WellFormed(sel.segments, w)
    ensures StraightenFitted(mdl, long, true, geo, w, sel) == StraightenFitted(NoWarning, long, false, geo, w, sel)
  {
  }

  /** When the long-move gate asks, the same run under `nowarning` commits the plan the question carries. */
  lemma FittedLongMoveOff(mdl: Setting, long: Setting, mdlAccepted: bool, geo: Geodesy, w: World, sel: Selection)
    requires |sel.segments| > 0
    requires WellFormed(sel.segments, w)
    requires StraightenFitted(mdl, long, mdlAccepted, geo, w, sel).Confirm?
    requires StraightenFitted(mdl, long, mdlAccepted, geo, w, sel).hazard == LongJnMove
    ensures var o := StraightenFitted(mdl, long, mdlAccepted, geo, w, sel);
      o.onAccept.passed.Some? &&
      StraightenFitted(mdl, NoWarning, mdlAccepted, geo, w, sel) == Applied(Commit(o.onAccept.passed.value))
  {
    var all := NodeIds(sel.segments);
    SelectionLoaded(sel.segments, w);
    LoadedByMembership(w, Distinct(all), all);
    assert Gate(!mdlAccepted && HasMicroDogLeg(geo, w, Distinct(all), None), mdl) == Proceed;
    var r := FitLine(w, sel);
    assert r.Fitted?;
    LoadedByMembership(w, r.fit.toMove, all);
    LongMoveStageOff(long, geo, w, sel.segments, r.fit);
  }

  /** When the long-move gate asks, the same gate under `nowarning` commits the plan the question carries. */
  lemma LongMoveStageOff(long: Setting, geo: Geodesy, w: World, segs: seq<Segment>, fit: Fit)
    requires fit.toMove == [] || fit.line.a != fit.line.b
    requires NodesLoaded(w, fit.toMove)
    requires LongMoveStage(long, geo, w, segs, fit).Confirm?
    ensures var o := LongMoveStage(long, geo, w, segs, fit);
      o.onAccept.passed.Some? &&
      LongMoveStage(NoWarning, geo, w, segs, fit) == Applied(Commit(o.onAccept.passed.value))
  {
  }

  lemma ManySwitchOff(st: Settings, geo: Geodesy, w: World, sel: Selection)
    requires |sel.segments| > 1
    requires WellFormed(sel.segments, w)
    requires StraightenMany(st, geo, w, sel, Initial.flags).Confirm?
    ensures var o := StraightenMany(st, geo, w, sel, Initial.flags);
      && (o.hazard != LongJnMove ==>
            StraightenMany(st, geo, w, sel, o.onAccept.flags)
              == StraightenMany(SwitchOff(st, o.hazard), geo, w, sel, Initial.flags))
      && (o.hazard == LongJnMove ==>
            o.onAccept.passed.Some? &&
            StraightenMany(SwitchOff(st, o.hazard), geo, w, sel, Initial.flags) == Applied(Commit(o.onAccept.passed.value)))
  {
    var o := StraightenMany(st, geo, w, sel, Initial.flags);
    StraightenManyAcceptShape(st, geo, w, sel, Initial.flags);
    match o.hazard
    case TooManySegments =>
    case NonContinuous =>
    case ConflictingNames =>
    case MicroDogLegs =>
      FittedAcceptedIsOff(st.microDogLegs, st.longJnMove, geo, w, sel);
    case LongJnMove =>
      FittedLongMoveOff(st.microDogLegs, st.longJnMove, false, geo, w, sel);
  }

  /**
   * From the toolbar button, accepting a confirmation does what a run with
   * that hazard set to `nowarning` does.
   */
  lemma AcceptingIsSwitchingOff(st: Settings, geo: Geodesy, w: World, sel: Selection)
    requires WellFormed(sel.segments, w)
    requires Straighten(st, geo, w, sel, Initial).Confirm?
    ensures var o := Straighten(st, geo, w, sel, Initial);
      Straighten(st, geo, w, sel, o.onAccept) == Straighten(SwitchOff(st, o.hazard), geo, w, sel, Initial)
  {
    if |sel.segments| > 1 {
      StraightenManyAcceptShape(st, geo, w, sel, Initial.flags);
      ManySwitchOff(st, geo, w, sel);
    }
  }

  /** More than ten segments under `error` fail the sanity check before anything else is looked at. */
  lemma SanityCheckedFirst(st: Settings, geo: Geodesy, w: World, sel: Selection, e: Entry)
    requires WellFormed(sel.segments, w)
    requires !IsCommit(e) && |sel.segments| > SanityLimit && !e.flags.sanity
    requires st.sanityCheck == Error
    ensures Straighten(st, geo, w, sel, e) == Failed(TooManySegments)
  {
  }

  /**
   * A run over several segments that applies edits has fitted its line
   * and commits every geometry update and then every node move.
   */
  lemma ManyAppliedCommitsPlan(st: Settings, geo: Geodesy, w: World, sel: Selection, e: Entry)
    requires WellFormed(sel.segments, w)
    requires !IsCommit(e) && |sel.segments| > 1
    requires Straighten(st, geo, w, sel, e).Applied?
    ensures FitLine(w, sel).Fitted?
    ensures var fit := FitLine(w, sel).fit;
      && NodesLoaded(w, fit.toMove)
      && (fit.toMove == [] || fit.line.a != fit.line.b)
      && Straighten(st, geo, w, sel, e).actions
           == GeometryUpdates(sel.segments) + NodeMoves(w, fit.line, fit.toMove)
  {
    SelectionLoaded(sel.segments, w);
    LoadedByMembership(w, FitLine(w, sel).fit.toMove, NodeIds(sel.segments));
  }

  /** In every commit, the geometry updates all come before the node moves. */
  lemma CommitOrder(st: Settings, geo: Geodesy, w: World, sel: Selection, e: Entry, k: int)
    requires WellFormed(sel.segments, w)
    requires !IsCommit(e) && |sel.segments| > 1
    requires Straighten(st, geo, w, sel, e).Applied?
    requires 0 <= k < |Straighten(st, geo, w, sel, e).actions|
    ensures var o := Straighten(st, geo, w, sel, e);
      k < |GeometryUpdates(sel.segments)| <==> o.actions[k].UpdateSegmentGeometry?
  {
    ManyAppliedCommitsPlan(st, geo, w, sel, e);
    UpdatesAreSimplifications(sel.segments);
  }

  /** A single segment is simplified to its two end points when it has more than two points, and left alone otherwise. */
  lemma SingleSegmentSimplifies(st: Settings, geo: Geodesy, w: World, sel: Selection, e: Entry)
    requires WellFormed(sel.segments, w)
    requires !IsCommit(e) && |sel.segments| == 1
    requires Straighten(st, geo, w, sel, e).Applied?
    ensures var s := sel.segments[0];
      var o := Straighten(st, geo, w, sel, e);
      && (|s.points| > 2 ==> o.actions == [UpdateSegmentGeometry(s.id, s.points, [s.points[0], s.points[|s.points| - 1]])])
      && (|s.points| <= 2 ==> o.actions == [])
  {
  }

// ------------------------------------------------------------ methods

  /** The commit branch: every geometry update, then every node move, each added in list order. */
  method CommitPlan(p: Plan, am: ActionManager)
    modifies am
    ensures am.actions == old(am.actions) + Commit(p)
  {
    var idx := 0;
    while idx < |p.geometryUpdates|
      invariant 0 <= idx <= |p.geometryUpdates|
      invariant am.actions == old(am.actions) + p.geometryUpdates[..idx]
    {
      am.Add(p.geometryUpdates[idx]);
      assert p.geometryUpdates[..idx + 1] == p.geometryUpdates[..idx] + [p.geometryUpdates[idx]];
      idx := idx + 1;
    }
    assert p.geometryUpdates[..idx] == p.geometryUpdates;
    idx := 0;
    while idx < |p.nodeMoves|
      invariant 0 <= idx <= |p.nodeMoves|
      invariant am.actions == old(am.actions) + p.geometryUpdates + p.nodeMoves[..idx]
    {
      am.Add(p.nodeMoves[idx]);
      assert p.nodeMoves[..idx + 1] == p.nodeMoves[..idx] + [p.nodeMoves[idx]];
      idx := idx + 1;
    }
    assert p.nodeMoves[..idx] == p.nodeMoves;
  }

  /**
   * doStraightenSegments: the commit of a passed plan, the run over several
   * segments, the run over one segment, or nothing when the selection is
   * empty. The result is the run's outcome; the action manager receives
   * exactly the edits that outcome applies.
   */
  method DoStraightenSegments(st: Settings, geo: Geodesy, w: World, sel: Selection, e: Entry, am: ActionManager)
    returns (o: Outcome<Entry>)
    requires WellFormed(sel.segments, w)
    modifies am
    ensures o == Straighten(st, geo, w, sel, e)
    ensures am.actions == old(am.actions) + Added(o)
    decreases if IsCommit(e) then 0 else 5
  {
    var segs := sel.segments;
    if e.flags.longJnMove && e.passed.Some? {
      CommitPlan(e.passed.value, am);
      o := Applied(Commit(e.passed.value));
    } else if |segs| > 1 {
      o := StraightenSelection(st, geo, w, sel, e.flags, am);
    } else if |segs| == 1 {
      var s := segs[0];
      assert segs == [s];
      if !e.flags.microDogLegs {
        var found := CheckForMicroDogLegs(geo, w, [s.fromNode, s.toNode], Some(s.id));
        if found {
          if st.microDogLegs == Error {
            return Failed(MicroDogLegs);
          }
          if st.microDogLegs == Warning {
            return Confirm(MicroDogLegs, Entry(e.flags.(microDogLegs := true, longJnMove := false), None));
          }
        }
      }
      if |s.points| > 2 {
        am.Add(Simplification(s));
        o := Applied([Simplification(s)]);
      } else {
        o := Applied([]);
      }
    } else {
      o := NoOp;
    }
  }

  /** The sanity, continuity and name gates of a run over several segments. */
  method StraightenSelection(st: Settings, geo: Geodesy, w: World, sel: Selection, f: Flags, am: ActionManager)
    returns (o: Outcome<Entry>)
    requires |sel.segments| > 1
    requires WellFormed(sel.segments, w)
    modifies am
    ensures o == StraightenMany(st, geo, w, sel, f)
    ensures am.actions == old(am.actions) + Added(o)
    decreases 4
  {
    var segs := sel.segments;
    var sanityContinue := f.sanity;
    var nonContinuousContinue := f.nonContinuous;
    var conflictingNamesContinue := f.conflictingNames;
    if |segs| > SanityLimit && !sanityContinue {
      if st.sanityCheck == Error {
        return Failed(TooManySegments);
      }
      if st.sanityCheck == Warning {
        return Confirm(TooManySegments, Entry(Flags(true, false, false, false, false), None));
      }
    }
    sanityContinue := true;
    if sel.multipleConnectedComponents && !nonContinuousContinue {
      if st.nonContinuousSelection == Error {
        return Failed(NonContinuous);
      }
      if st.nonContinuousSelection == Warning {
        return Confirm(NonContinuous, Entry(Flags(sanityContinue, true, false, false, false), None));
      }
    }
    nonContinuousContinue := true;
    if st.conflictingNames != NoWarning {
      var continuousNames := CheckNameContinuity(segs);
      if !continuousNames && !conflictingNamesContinue && st.conflictingNames == Error {
        return Failed(ConflictingNames);
      }
      if !continuousNames && !conflictingNamesContinue && st.conflictingNames == Warning {
        return Confirm(ConflictingNames, Entry(Flags(sanityContinue, nonContinuousContinue, true, false, false), None));
      }
    }
    conflictingNamesContinue := true;
    o := StraightenNodes(st, geo, w, sel,
      Flags(sanityContinue, nonContinuousContinue, conflictingNamesContinue, f.microDogLegs, f.longJnMove), am);
  }

  /** The node classification and the micro-dogleg gate on every distinct node. */
  method StraightenNodes(st: Settings, geo: Geodesy, w: World, sel: Selection, f: Flags, am: ActionManager)
    returns (o: Outcome<Entry>)
    requires |sel.segments| > 0
    requires WellFormed(sel.segments, w)
    requires f.sanity && f.nonContinuous && f.conflictingNames
    modifies am
    ensures o == StraightenFitted(st.microDogLegs, st.longJnMove, f.microDogLegs, geo, w, sel)
    ensures am.actions == old(am.actions) + Added(o)
    decreases 3
  {
    var segs := sel.segments;
    var allNodeIds, updates := CollectSelection(segs);
    var dupNodeIds := FindDupNodeIds(allNodeIds);
    var distinctNodes := Distinct(allNodeIds);
    SelectionLoaded(segs, w);
    LoadedByMembership(w, distinctNodes, allNodeIds);
    var microDogLegsContinue := f.microDogLegs;
    if !microDogLegsContinue {
      var found := CheckForMicroDogLegs(geo, w, distinctNodes, None);
      if found {
        if st.microDogLegs == Error {
          return Failed(MicroDogLegs);
        }
        if st.microDogLegs == Warning {
          return Confirm(MicroDogLegs, Entry(f.(microDogLegs := true, longJnMove := false), None));
        }
      }
    }
    microDogLegsContinue := true;
    o := AlignNodes(st, geo, w, sel, f.(microDogLegs := microDogLegsContinue), updates, distinctNodes, dupNodeIds, am);
  }

  /** The endpoint swap: geometries exchanged and the id list rotated in step when the first lies right of the second. */
  method OrderEnds(w: World, endPointNodeIds: seq<NodeId>) returns (ids: seq<NodeId>, g1: Point, g2: Point)
    requires |endPointNodeIds| >= 2 && endPointNodeIds[0] in w.nodes && endPointNodeIds[1] in w.nodes
    ensures Ends(ids, g1, g2) == OrderEndpoints(w, endPointNodeIds)
  {
    ids := endPointNodeIds;
    g1 := w.nodes[ids[0]].geometry;
    g2 := w.nodes[ids[1]].geometry;
    if GetDeltaDirect(g1.x, g2.x) < 0.0 {
      g1, g2 := g2, g1;
      ids := ids[1..] + [ids[0]];
    }
  }

  /**
   * The endpoints, their ordering and the line through them, with the
   * checks under which the host would fail: a missing second endpoint, or
   * a node to project while a == b.
   */
  method FitEndpoints(w: World, sel: Selection, distinctNodes: seq<NodeId>, dupNodeIds: seq<NodeId>)
    returns (r: Fitting)
    requires |sel.segments| > 0
    requires WellFormed(sel.segments, w)
    requires distinctNodes == Distinct(NodeIds(sel.segments))
    requires dupNodeIds == Dups(NodeIds(sel.segments))
    ensures r == FitLine(w, sel)
    ensures r.Fitted? ==> r.fit.toMove == Without(distinctNodes, r.fit.ends.ids)
  {
    var segs := sel.segments;
    SelectionLoaded(segs, w);
    var endPointNodeIds: seq<NodeId>;
    if !sel.multipleConnectedComponents {
      endPointNodeIds := Without(distinctNodes, dupNodeIds);
    } else {
      endPointNodeIds := [segs[0].fromNode, segs[|segs| - 1].toNode];
    }
    assert endPointNodeIds == EndpointIds(sel);
    if |endPointNodeIds| < 2 {
      return Unfit(MissingEndpoint);
    }
    assert endPointNodeIds[0] in endPointNodeIds && endPointNodeIds[1] in endPointNodeIds;
    LoadedByMembership(w, endPointNodeIds, NodeIds(segs));
    var g1, g2;
    endPointNodeIds, g1, g2 := OrderEnds(w, endPointNodeIds);
    var line := Line(g2.y - g1.y, g1.x - g2.x, g2.x * g1.y - g1.x * g2.y);
    assert line == LineThrough(g1, g2);
    var toMove := Without(distinctNodes, endPointNodeIds);
    if toMove != [] && line.a == line.b {
      return Unfit(DivisionByZero);
    }
    r := Fitted(Fit(Ends(endPointNodeIds, g1, g2), line, toMove));
  }

  /** The line fit, then the long-move gate over the planned edits. */
  method AlignNodes(st: Settings, geo: Geodesy, w: World, sel: Selection, f: Flags,
                    updates: seq<Action>, distinctNodes: seq<NodeId>, dupNodeIds: seq<NodeId>, am: ActionManager)
    returns (o: Outcome<Entry>)
    requires |sel.segments| > 0
    requires WellFormed(sel.segments, w)
    requires f.sanity && f.nonContinuous && f.conflictingNames && f.microDogLegs
    requires updates == GeometryUpdates(sel.segments)
    requires distinctNodes == Distinct(NodeIds(sel.segments))
    requires dupNodeIds == Dups(NodeIds(sel.segments))
    modifies am
    ensures o == FitAndCommit(st.longJnMove, geo, w, sel)
    ensures am.actions == old(am.actions) + Added(o)
    decreases 2
  {
    var r := FitEndpoints(w, sel, distinctNodes, dupNodeIds);
    if r.Unfit? {
      return Faulted(r.fault);
    }
    SelectionLoaded(sel.segments, w);
    LoadedByMembership(w, distinctNodes, NodeIds(sel.segments));
    LoadedByMembership(w, r.fit.toMove, NodeIds(sel.segments));
    o := ProjectAndGate(st, geo, w, sel, f, r.fit, updates, distinctNodes, am);
  }

  /**
   * The projection of every node that is not an endpoint and the long-move
   * gate; passing the gate re-enters with the plan to commit it.
   */
  method ProjectAndGate(st: Settings, geo: Geodesy, w: World, sel: Selection, f: Flags, fit: Fit,
                        updates: seq<Action>, distinctNodes: seq<NodeId>, am: ActionManager)
    returns (o: Outcome<Entry>)
    requires |sel.segments| > 0
    requires WellFormed(sel.segments, w)
    requires f.sanity && f.nonContinuous && f.conflictingNames && f.microDogLegs
    requires updates == GeometryUpdates(sel.segments)
    requires NodesLoaded(w, distinctNodes)
    requires fit.toMove == Without(distinctNodes, fit.ends.ids)
    requires fit.toMove == [] || fit.line.a != fit.line.b
    modifies am
    ensures NodesLoaded(w, fit.toMove)
    ensures o == LongMoveStage(st.longJnMove, geo, w, sel.segments, fit)
    ensures am.actions == old(am.actions) + Added(o)
    decreases 1
  {
    var moves, longMove := PlanNodeMoves(geo, w, fit.line, distinctNodes, fit.ends.ids);
    var plan := Plan(updates, moves);
    if longMove && st.longJnMove == Error {
      return Failed(LongJnMove);
    }
    if longMove && st.longJnMove == Warning {
      return Confirm(LongJnMove, Entry(f.(longJnMove := true), Some(plan)));
    }
    o := DoStraightenSegments(st, geo, w, sel, Entry(f.(longJnMove := true), Some(plan)), am);
  }
}
