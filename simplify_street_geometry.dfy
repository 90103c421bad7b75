/**
 * The WME Simplify Street Geometry engine (doSimplifyStreetGeometry): three
 * hazard gates, a line through the leftmost start and the rightmost end of
 * the whole selection, and then, segment by segment, the removal of the
 * interior shape points and the move of both end nodes onto that line.
 */
module SimplifyStreetGeometry {
  import opened Geometry
  import opened Editor
  import opened NameContinuity

  /** Selections larger than this trip the sanity check. */
  const SanityLimit: nat := 10

  datatype Settings = Settings(
    sanityCheck: Setting,
    nonContinuousSelection: Setting,
    conflictingNames: Setting)

  /** Every hazard defaults to `warning`. */
  const DefaultSettings := Settings(Warning, Warning, Warning)

  function SettingFor(st: Settings, h: Hazard): Setting
    requires Rank(h) <= 2
  {
    match h
    case TooManySegments => st.sanityCheck
    case NonContinuous => st.nonContinuousSelection
    case ConflictingNames => st.conflictingNames
  }

  /** The settings with one hazard turned to `nowarning`. */
  function SwitchOff(st: Settings, h: Hazard): (r: Settings)
    requires Rank(h) <= 2
    ensures SettingFor(r, h) == NoWarning
    ensures forall g :: Rank(g) <= 2 && g != h ==> SettingFor(r, g) == SettingFor(st, g)
  {
    match h
    case TooManySegments => st.(sanityCheck := NoWarning)
    case NonContinuous => st.(nonContinuousSelection := NoWarning)
    case ConflictingNames => st.(conflictingNames := NoWarning)
  }

  /** The three `...Continue` parameters. */
  datatype Flags = Flags(sanity: bool, nonContinuous: bool, conflictingNames: bool)

  /** The call made by the toolbar button: no flag set. */
  const Initial := Flags(false, false, false)

  /** Whether the flag of hazard h is set. */
  function Accepted(f: Flags, h: Hazard): bool
    requires Rank(h) <= 2
  {
    match h
    case TooManySegments => f.sanity
    case NonContinuous => f.nonContinuous
    case ConflictingNames => f.conflictingNames
  }

  // ------------------------------------------------------------ extent

  /** The first and last point of a segment, swapped when the first lies to the right (a1, a2). */
  datatype Span = Span(a1: Point, a2: Point)

  /** The leftmost start and the rightmost end found by the extent loop (t1, t2). */
  datatype Extent = Extent(t1: Point, t2: Point)

  /** The extent loop looks only at segments with more than one point. */
  predicate Spans(s: Segment) {
    |s.points| > 1
  }

  function Oriented(s: Segment): Span
    requires Spans(s)
  {
    var first, last := s.points[0], s.points[|s.points| - 1];
    if GetDeltaDirect(first.x, last.x) < 0.0 then Span(last, first) else Span(first, last)
  }

  /** The orientation puts the end with the smaller x first, and swaps exactly when the first point lies to the right. */
  lemma OrientedLeftToRight(s: Segment)
    requires Spans(s)
    ensures var first, last := s.points[0], s.points[|s.points| - 1];
      && Oriented(s).a1.x <= Oriented(s).a2.x
      && (first.x > last.x ==> Oriented(s) == Span(last, first))
      && (first.x <= last.x ==> Oriented(s) == Span(first, last))
  {
    DeltaNegativeIffGreater(s.points[0].x, s.points[|s.points| - 1].x);
  }

  /**
   * t1 and t2 after the extent loop: the first segment seeds them, and
   * every later segment that spans replaces t1 when it starts strictly
   * further left and t2 when it ends strictly further right.
   */
  function ExtentOf(segs: seq<Segment>): Extent
    requires |segs| > 0 && Spans(segs[0])
  {
    if |segs| == 1 then Extent(Oriented(segs[0]).a1, Oriented(segs[0]).a2)
    else
      var e := ExtentOf(segs[..|segs| - 1]);
      var s := segs[|segs| - 1];
      if !Spans(s) then e
      else
        var o := Oriented(s);
        Extent(if o.a1.x < e.t1.x then o.a1 else e.t1, if o.a2.x > e.t2.x then o.a2 else e.t2)
  }

  lemma ExtentSnoc(segs: seq<Segment>, s: Segment)
    requires |segs| > 0 && Spans(segs[0])
    ensures var e := ExtentOf(segs);
      ExtentOf(segs + [s]) ==
        if !Spans(s) then e
        else Extent(if Oriented(s).a1.x < e.t1.x then Oriented(s).a1 else e.t1,
                    if Oriented(s).a2.x > e.t2.x then Oriented(s).a2 else e.t2)
  {
    assert (segs + [s])[..|segs + [s]| - 1] == segs;
  }

  /** t1 lies no further right than any oriented start, and t2 no further left than any oriented end. */
  lemma {:induction false} ExtentBounds(segs: seq<Segment>, i: int)
    requires |segs| > 0 && Spans(segs[0])
    requires 0 <= i < |segs| && Spans(segs[i])
    ensures ExtentOf(segs).t1.x <= Oriented(segs[i]).a1.x
    ensures ExtentOf(segs).t2.x >= Oriented(segs[i]).a2.x
  {
    if |segs| > 1 && i < |segs| - 1 {
      var init := segs[..|segs| - 1];
      assert init[0] == segs[0] && init[i] == segs[i];
      ExtentBounds(init, i);
    }
  }

  /** So the line runs from left to right: t1.x <= t2.x. */
  lemma ExtentOrdered(segs: seq<Segment>)
    requires |segs| > 0 && Spans(segs[0])
    ensures ExtentOf(segs).t1.x <= ExtentOf(segs).t2.x
  {
    ExtentBounds(segs, 0);
    OrientedLeftToRight(segs[0]);
  }

  /** Segment i's oriented start is t1, and every earlier spanning segment's lies strictly further right. */
  predicate EarliestStart(segs: seq<Segment>, i: int) {
    && |segs| > 0 && Spans(segs[0])
    && 0 <= i < |segs| && Spans(segs[i]) && ExtentOf(segs).t1 == Oriented(segs[i]).a1
    && forall j :: 0 <= j < i && Spans(segs[j]) ==> Oriented(segs[j]).a1.x > ExtentOf(segs).t1.x
  }

  /** t1 is an oriented segment start, that of the earliest segment reaching the least x. */
  lemma {:induction false} ExtentEarliestStart(segs: seq<Segment>)
    requires |segs| > 0 && Spans(segs[0])
    ensures exists i :: EarliestStart(segs, i)
  {
    if |segs| == 1 {
      assert EarliestStart(segs, 0);
    } else {
      var init := segs[..|segs| - 1];
      var s := segs[|segs| - 1];
      assert segs == init + [s];
      assert init[0] == segs[0];
      ExtentSnoc(init, s);
      ExtentEarliestStart(init);
      var i :| EarliestStart(init, i);
      if Spans(s) && Oriented(s).a1.x < ExtentOf(init).t1.x {
        forall j | 0 <= j < |segs| - 1 && Spans(segs[j])
          ensures Oriented(segs[j]).a1.x > ExtentOf(segs).t1.x
        {
          assert init[j] == segs[j];
          ExtentBounds(init, j);
        }
        assert EarliestStart(segs, |segs| - 1);
      } else {
        assert segs[i] == init[i];
        forall j | 0 <= j < i && Spans(segs[j])
          ensures Oriented(segs[j]).a1.x > ExtentOf(segs).t1.x
        {
          assert init[j] == segs[j];
        }
        assert EarliestStart(segs, i);
      }
    }
  }

  /** Segment i's oriented end is t2, and every earlier spanning segment's lies strictly further left. */
  predicate EarliestEnd(segs: seq<Segment>, i: int) {
    && |segs| > 0 && Spans(segs[0])
    && 0 <= i < |segs| && Spans(segs[i]) && ExtentOf(segs).t2 == Oriented(segs[i]).a2
    && forall j :: 0 <= j < i && Spans(segs[j]) ==> Oriented(segs[j]).a2.x < ExtentOf(segs).t2.x
  }

  /** t2 is an oriented segment end, that of the earliest segment reaching the greatest x. */
  lemma {:induction false} ExtentEarliestEnd(segs: seq<Segment>)
    requires |segs| > 0 && Spans(segs[0])
    ensures exists i :: EarliestEnd(segs, i)
  {
    if |segs| == 1 {
      assert EarliestEnd(segs, 0);
    } else {
      var init := segs[..|segs| - 1];
      var s := segs[|segs| - 1];
      assert segs == init + [s];
      assert init[0] == segs[0];
      ExtentSnoc(init, s);
      ExtentEarliestEnd(init);
      var i :| EarliestEnd(init, i);
      if Spans(s) && Oriented(s).a2.x > ExtentOf(init).t2.x {
        forall j | 0 <= j < |segs| - 1 && Spans(segs[j])
          ensures Oriented(segs[j]).a2.x < ExtentOf(segs).t2.x
        {
          assert init[j] == segs[j];
          ExtentBounds(init, j);
        }
        assert EarliestEnd(segs, |segs| - 1);
      } else {
        assert segs[i] == init[i];
        forall j | 0 <= j < i && Spans(segs[j])
          ensures Oriented(segs[j]).a2.x < ExtentOf(segs).t2.x
        {
          assert init[j] == segs[j];
        }
        assert EarliestEnd(segs, i);
      }
    }
  }

  // ------------------------------------------------------------- line

  /** The alignment line through t1 and t2, or why the run cannot use one. */
  datatype Alignment = Unaligned(fault: Fault) | Aligned(extent: Extent, line: Line)

  function Align(segs: seq<Segment>): Alignment
    requires |segs| > 0
  {
    if !Spans(segs[0]) then Unaligned(UndefinedExtent)
    else
      var e := ExtentOf(segs);
      var l := LineThrough(e.t1, e.t2);
      if l.a == l.b then Unaligned(DivisionByZero) else Aligned(e, l)
  }

  /** Both ends of the extent lie on the line, and projecting them leaves them where they are. */
  lemma AlignedThroughExtent(segs: seq<Segment>)
    requires |segs| > 0
    requires Align(segs).Aligned?
    ensures var r := Align(segs);
      && r.extent == ExtentOf(segs)
      && r.line.a != r.line.b
      && OnLine(r.line, r.extent.t1) && OnLine(r.line, r.extent.t2)
      && Project(r.line, r.extent.t1) == r.extent.t1
      && Project(r.line, r.extent.t2) == r.extent.t2
  {
    var r := Align(segs);
    LineThroughPassesThrough(r.extent.t1, r.extent.t2);
    ProjectFixesPointsOnLine(r.line, r.extent.t1);
    ProjectFixesPointsOnLine(r.line, r.extent.t2);
  }

  // ---------------------------------------------------------- actions

  /** Both end nodes of s exist, and so does every segment they list. */
  predicate EndsLoaded(w: World, s: Segment) {
    && s.fromNode in w.nodes && s.toNode in w.nodes
    && NodeClosed(w, w.nodes[s.fromNode]) && NodeClosed(w, w.nodes[s.toNode])
  }

  predicate AllEndsLoaded(w: World, segs: seq<Segment>) {
    forall i :: 0 <= i < |segs| ==> EndsLoaded(w, segs[i])
  }

  lemma WellFormedEndsLoaded(segs: seq<Segment>, w: World, i: int)
    requires WellFormed(segs, w) && 0 <= i < |segs|
    ensures EndsLoaded(w, segs[i])
  {
  }

  /**
   * The edits queued for one segment: its simplification when it has more
   * than two points, the move of its from node with the geometries of the
   * from node's segments, then the move of its to node with the geometries
   * of both nodes' segments (connectedSegObjs is not reset in between).
   */
  function SegmentActions(w: World, l: Line, s: Segment): seq<Action>
    requires l.a != l.b
    requires EndsLoaded(w, s)
  {
    var n1, n2 := w.nodes[s.fromNode], w.nodes[s.toNode];
    var m1 := Snapshot(w, n1.segIds);
    (if |s.points| > 2 then [Simplification(s)] else []) +
    [ MoveNode(s.fromNode, n1.geometry, Project(l, n1.geometry), m1),
      MoveNode(s.toNode, n2.geometry, Project(l, n2.geometry), m1 + Snapshot(w, n2.segIds)) ]
  }

  /** The edits for the whole selection, segment after segment. */
  function AllActions(w: World, l: Line, segs: seq<Segment>): seq<Action>
    requires l.a != l.b
    requires AllEndsLoaded(w, segs)
  {
    if segs == [] then []
    else AllActions(w, l, segs[..|segs| - 1]) + SegmentActions(w, l, segs[|segs| - 1])
  }

  lemma AllActionsSnoc(w: World, l: Line, segs: seq<Segment>, s: Segment)
    requires l.a != l.b
    requires AllEndsLoaded(w, segs)
    requires EndsLoaded(w, s)
    ensures AllActions(w, l, segs + [s]) == AllActions(w, l, segs) + SegmentActions(w, l, s)
  {
    assert (segs + [s])[..|segs + [s]| - 1] == segs;
  }

  lemma AllEndsLoadedConcat(w: World, a: seq<Segment>, b: seq<Segment>)
    requires AllEndsLoaded(w, a) && AllEndsLoaded(w, b)
    ensures AllEndsLoaded(w, a + b)
  {
    assert forall i :: 0 <= i < |a + b| ==> (a + b)[i] == if i < |a| then a[i] else b[i - |a|];
  }

  lemma AllEndsLoadedSlices(w: World, segs: seq<Segment>, n: int)
    requires AllEndsLoaded(w, segs) && 0 <= n <= |segs|
    ensures AllEndsLoaded(w, segs[..n]) && AllEndsLoaded(w, segs[n..])
  {
    assert forall i :: 0 <= i < n ==> segs[..n][i] == segs[i];
    assert forall i :: 0 <= i < |segs| - n ==> segs[n..][i] == segs[n + i];
  }

  /** The edits of two consecutive parts of a selection are those of the first part, then those of the second. */
  lemma {:induction false} AllActionsConcat(w: World, l: Line, a: seq<Segment>, b: seq<Segment>)
    requires l.a != l.b
    requires AllEndsLoaded(w, a)
    requires AllEndsLoaded(w, b)
    ensures AllEndsLoaded(w, a + b)
    ensures AllActions(w, l, a + b) == AllActions(w, l, a) + AllActions(w, l, b)
  {
    AllEndsLoadedConcat(w, a, b);
    if b == [] {
      assert a + b == a;
    } else {
      var init, s := b[..|b| - 1], b[|b| - 1];
      assert b == init + [s];
      AllEndsLoadedSlices(w, b, |b| - 1);
      AllEndsLoadedConcat(w, a, init);
      AllActionsConcat(w, l, a, init);
      assert a + b == (a + init) + [s];
      AllActionsSnoc(w, l, a + init, s);
      AllActionsSnoc(w, l, init, s);
    }
  }

  /** Segment i's edits come after those of every earlier segment and before those of every later one. */
  lemma ActionsInSelectionOrder(w: World, l: Line, segs: seq<Segment>, i: int)
    requires l.a != l.b
    requires AllEndsLoaded(w, segs)
    requires 0 <= i < |segs|
    ensures AllEndsLoaded(w, segs[..i])
    ensures AllEndsLoaded(w, segs[i + 1..])
    ensures AllActions(w, l, segs) ==
      AllActions(w, l, segs[..i]) + SegmentActions(w, l, segs[i]) + AllActions(w, l, segs[i + 1..])
  {
    var pre, rest := segs[..i], segs[i + 1..];
    AllEndsLoadedSlices(w, segs, i);
    AllEndsLoadedSlices(w, segs, i + 1);
    assert segs[..i + 1] == pre + [segs[i]];
    assert segs == (pre + [segs[i]]) + rest;
    AllActionsSnoc(w, l, pre, segs[i]);
    AllActionsConcat(w, l, pre + [segs[i]], rest);
  }

  /**
   * The edits of one segment: an update to [first point, last point] with
   * the original geometry kept as the old one, exactly when it has more
   * than two points; then the move of its from node and of its to node,
   * each from where the node is onto the line along the perpendicular.
   */
  lemma SegmentActionsShape(w: World, l: Line, s: Segment)
    requires l.a != l.b
    requires EndsLoaded(w, s)
    ensures var r := SegmentActions(w, l, s);
      var n1, n2 := w.nodes[s.fromNode].geometry, w.nodes[s.toNode].geometry;
      && |r| == (if |s.points| > 2 then 3 else 2)
      && (r[0].UpdateSegmentGeometry? <==> |s.points| > 2)
      && (|s.points| > 2 ==>
            r[0] == UpdateSegmentGeometry(s.id, s.points, [s.points[0], s.points[|s.points| - 1]]))
      && r[|r| - 2].MoveNode? && r[|r| - 2].node == s.fromNode && r[|r| - 2].oldPosition == n1
      && r[|r| - 1].MoveNode? && r[|r| - 1].node == s.toNode && r[|r| - 1].oldPosition == n2
      && OnLine(l, r[|r| - 2].newPosition) && OnLine(l, r[|r| - 1].newPosition)
      && l.b * r[|r| - 2].newPosition.x - l.a * r[|r| - 2].newPosition.y + PerpendicularConstant(l, n1) == 0.0
      && l.b * r[|r| - 1].newPosition.x - l.a * r[|r| - 1].newPosition.y + PerpendicularConstant(l, n2) == 0.0
  {
    ProjectOnLine(l, w.nodes[s.fromNode].geometry);
    ProjectOnLine(l, w.nodes[s.toNode].geometry);
  }

  /**
   * The geometries handed over with the to-node move include every segment
   * of the from node, because the same connectedSegObjs map keeps growing.
   */
  lemma ToMoveCapturesFromNode(w: World, l: Line, s: Segment)
    requires l.a != l.b
    requires EndsLoaded(w, s)
    ensures var r := SegmentActions(w, l, s);
      var n1, n2 := w.nodes[s.fromNode], w.nodes[s.toNode];
      var m := r[|r| - 1].connectedSegments;
      && r[|r| - 1].MoveNode?
      && (forall sid :: sid in m <==> sid in n1.segIds || sid in n2.segIds)
      && (forall sid :: sid in m ==> m[sid] == w.segments[sid])
      && (forall sid :: sid in n1.segIds ==> sid in m)
  {
  }

  /** Every node move of the selection lands on the line. */
  lemma {:induction false} EveryMoveLandsOnLine(w: World, l: Line, segs: seq<Segment>)
    requires l.a != l.b
    requires AllEndsLoaded(w, segs)
    ensures forall k :: 0 <= k < |AllActions(w, l, segs)| && AllActions(w, l, segs)[k].MoveNode? ==>
      OnLine(l, AllActions(w, l, segs)[k].newPosition)
  {
    if segs != [] {
      var init := segs[..|segs| - 1];
      var s := segs[|segs| - 1];
      EveryMoveLandsOnLine(w, l, init);
      SegmentActionsShape(w, l, s);
      var prev, last := AllActions(w, l, init), SegmentActions(w, l, s);
      assert forall k :: 0 <= k < |last| && last[k].MoveNode? ==> k >= |last| - 2;
      assert forall k :: 0 <= k < |prev + last| ==> (prev + last)[k] == if k < |prev| then prev[k] else last[k - |prev|];
    }
  }

  /**
   * A node that already sits on the line is not displaced, and a moved
   * node moved again would stay put: the editor applies each move as it is
   * added, so a node shared by two segments is moved a second time from
   * its new position, to the same place.
   */
  lemma MovesAreStable(w: World, l: Line, segs: seq<Segment>, k: int)
    requires l.a != l.b
    requires AllEndsLoaded(w, segs)
    requires 0 <= k < |AllActions(w, l, segs)| && AllActions(w, l, segs)[k].MoveNode?
    ensures var m := AllActions(w, l, segs)[k];
      && (OnLine(l, m.oldPosition) ==> m.newPosition == m.oldPosition)
      && Project(l, m.newPosition) == m.newPosition
  {
    MovesAreProjections(w, l, segs);
    var m := AllActions(w, l, segs)[k];
    if OnLine(l, m.oldPosition) {
      ProjectFixesPointsOnLine(l, m.oldPosition);
    }
    ProjectIdempotent(l, m.oldPosition);
  }

  /** Every node move goes from the node's position to its projection. */
  lemma {:induction false} MovesAreProjections(w: World, l: Line, segs: seq<Segment>)
    requires l.a != l.b
    requires AllEndsLoaded(w, segs)
    ensures forall k :: 0 <= k < |AllActions(w, l, segs)| && AllActions(w, l, segs)[k].MoveNode? ==>
      AllActions(w, l, segs)[k].newPosition == Project(l, AllActions(w, l, segs)[k].oldPosition)
  {
    if segs != [] {
      var init := segs[..|segs| - 1];
      var s := segs[|segs| - 1];
      MovesAreProjections(w, l, init);
      var prev, last := AllActions(w, l, init), SegmentActions(w, l, s);
      assert forall k :: 0 <= k < |last| && last[k].MoveNode? ==> last[k].newPosition == Project(l, last[k].oldPosition);
      assert forall k :: 0 <= k < |prev + last| ==> (prev + last)[k] == if k < |prev| then prev[k] else last[k - |prev|];
    }
  }

  // ---------------------------------------------------------- pipeline

  /** The line fit and the edits for every segment. */
  function AlignSelection(w: World, segs: seq<Segment>): Outcome<Flags>
    requires |segs| > 0
    requires WellFormed(segs, w)
  {
    match Align(segs)
    case Unaligned(fault) => Faulted(fault)
    case Aligned(_, l) => Applied(AllActions(w, l, segs))
  }

  /**
   * More than one segment: the sanity, non-continuity and name gates, in
   * that order. A confirmation re-enters with the `...Continue` values the
   * run holds at that point, so a gate passed under `nowarning` reports its
   * flag as set.
   */
  function SimplifyMany(st: Settings, w: World, sel: Selection, f: Flags): Outcome<Flags>
    requires |sel.segments| > 1
    requires WellFormed(sel.segments, w)
  {
    var segs := sel.segments;
    match Gate(|segs| > SanityLimit && !f.sanity, st.sanityCheck)
    case Reject => Failed(TooManySegments)
    case Ask => Confirm(TooManySegments, Flags(true, false, false))
    case Proceed =>
    var sanity := f.sanity || |segs| > SanityLimit;
    match Gate(sel.multipleConnectedComponents && !f.nonContinuous, st.nonContinuousSelection)
    case Reject => Failed(NonContinuous)
    case Ask => Confirm(NonContinuous, Flags(sanity, true, false))
    case Proceed =>
    var nonContinuous := f.nonContinuous || sel.multipleConnectedComponents;
    match Gate(!f.conflictingNames && !NamesContinuous(segs), st.conflictingNames)
    case Reject => Failed(ConflictingNames)
    case Ask => Confirm(ConflictingNames, Flags(sanity, nonContinuous, true))
    case Proceed => AlignSelection(w, segs)
  }

  /** One call of doSimplifyStreetGeometry: one segment only informs, none does nothing. */
  function Simplify(st: Settings, w: World, sel: Selection, f: Flags): Outcome<Flags>
    requires WellFormed(sel.segments, w)
  {
    if |sel.segments| > 1 then SimplifyMany(st, w, sel, f)
    else if |sel.segments| == 1 then Info
    else NoOp
  }

  // ---------------------------------------------------- pipeline lemmas

  /** An outcome that reports a hazard under the setting that hazard has: `error` for a failure, `warning` for a question. */
  predicate Respects(st: Settings, o: Outcome<Flags>) {
    && (o.Failed? ==> Rank(o.error) <= 2 && SettingFor(st, o.error) == Error)
    && (o.Confirm? ==> Rank(o.hazard) <= 2 && SettingFor(st, o.hazard) == Warning)
  }

  /** A hazard ends the run with an error only under `error`, and asks only under `warning`; either way nothing is added. */
  lemma OutcomeFollowsSetting(st: Settings, w: World, sel: Selection, f: Flags)
    requires WellFormed(sel.segments, w)
    ensures var o := Simplify(st, w, sel, f);
      && Respects(st, o)
      && (o.Failed? || o.Confirm? ==> Added(o) == [])
  {
  }

  /**
   * A confirmation is about a hazard whose flag was clear. Its accept path
   * sets that flag, sets an earlier one exactly when it was set already or
   * that hazard fired (and was let through), and clears the later ones.
   */
  lemma AcceptSetsFlag(st: Settings, w: World, sel: Selection, f: Flags, g: Hazard)
    requires WellFormed(sel.segments, w)
    requires Simplify(st, w, sel, f).Confirm?
    requires Rank(g) <= 2
    ensures var o := Simplify(st, w, sel, f);
      && Rank(o.hazard) <= 2
      && !Accepted(f, o.hazard)
      && (Rank(g) < Rank(o.hazard) ==> (Accepted(o.onAccept, g) <==> Accepted(f, g) || Fires(sel, g)))
      && Accepted(o.onAccept, o.hazard)
      && (Rank(g) > Rank(o.hazard) ==> !Accepted(o.onAccept, g))
  {
  }

  /** Whether the condition of hazard h holds for the selection, regardless of flags and settings. */
  predicate Fires(sel: Selection, h: Hazard)
    requires Rank(h) <= 2
  {
    match h
    case TooManySegments => |sel.segments| > SanityLimit
    case NonContinuous => sel.multipleConnectedComponents
    case ConflictingNames => !NamesContinuous(sel.segments)
  }

  /** Accepting a confirmation never brings back the same or an earlier hazard. */
  lemma ConfirmationsAdvance(st: Settings, w: World, sel: Selection, f: Flags)
    requires WellFormed(sel.segments, w)
    requires Simplify(st, w, sel, f).Confirm?
    ensures var o := Simplify(st, w, sel, f);
      var next := Simplify(st, w, sel, o.onAccept);
      next.Confirm? ==> Rank(next.hazard) > Rank(o.hazard)
  {
  }

  /** From the toolbar button, accepting a confirmation does what the same click does with that hazard switched off. */
  lemma AcceptingIsSwitchingOff(st: Settings, w: World, sel: Selection)
    requires WellFormed(sel.segments, w)
    requires Simplify(st, w, sel, Initial).Confirm?
    ensures var o := Simplify(st, w, sel, Initial);
      Rank(o.hazard) <= 2 &&
      Simplify(st, w, sel, o.onAccept) == Simplify(SwitchOff(st, o.hazard), w, sel, Initial)
  {
  }

  /** More than ten segments under `error` fail the sanity check before anything else is looked at. */
  lemma SanityCheckedFirst(st: Settings, w: World, sel: Selection, f: Flags)
    requires WellFormed(sel.segments, w)
    requires |sel.segments| > SanityLimit && !f.sanity
    requires st.sanityCheck == Error
    ensures Simplify(st, w, sel, f) == Failed(TooManySegments)
  {
  }

  /** A selection of one segment only informs and one of none does nothing; neither adds an edit. */
  lemma FewSegmentsChangeNothing(st: Settings, w: World, sel: Selection, f: Flags)
    requires WellFormed(sel.segments, w)
    requires |sel.segments| <= 1
    ensures var o := Simplify(st, w, sel, f);
      && Added(o) == []
      && (o == Info <==> |sel.segments| == 1)
      && (o == NoOp <==> |sel.segments| == 0)
  {
  }

  /**
   * A run that adds edits has fitted its line through the extent, adds the
   * edits of every segment in selection order, and moves every node onto
   * that line.
   */
  lemma AppliedAlignsEverything(st: Settings, w: World, sel: Selection, f: Flags)
    requires WellFormed(sel.segments, w)
    requires Simplify(st, w, sel, f).Applied?
    ensures |sel.segments| > 1 && Align(sel.segments).Aligned?
    ensures var l := Align(sel.segments).line;
      var o := Simplify(st, w, sel, f);
      && l == LineThrough(ExtentOf(sel.segments).t1, ExtentOf(sel.segments).t2)
      && l.a != l.b
      && o.actions == AllActions(w, l, sel.segments)
      && forall k :: 0 <= k < |o.actions| && o.actions[k].MoveNode? ==> OnLine(l, o.actions[k].newPosition)
  {
    var l := Align(sel.segments).line;
    EveryMoveLandsOnLine(w, l, sel.segments);
  }

  // ----------------------------------------------------------- methods

  /** The extent loop and the line formula after it. */
  method FitExtent(segs: seq<Segment>) returns (r: Alignment)
    requires |segs| > 0
    ensures r == Align(segs)
  {
    if |segs[0].points| <= 1 {
      return Unaligned(UndefinedExtent);
    }
    var t1, t2 := segs[0].points[0], segs[0].points[0];
    ghost var done: seq<Segment> := [];
    var idx := 0;
    while idx < |segs|
      invariant 0 <= idx <= |segs|
      invariant done == segs[..idx]
      invariant idx > 0 ==> Extent(t1, t2) == ExtentOf(done)
    {
      var s := segs[idx];
      if |s.points| > 1 {
        var a1, a2 := s.points[0], s.points[|s.points| - 1];
        var dX := GetDeltaDirect(a1.x, a2.x);
        if dX < 0.0 {
          a1, a2 := a2, a1;
        }
        if idx == 0 {
          t1, t2 := a1, a2;
        } else {
          if a1.x < t1.x {
            t1 := a1;
          }
          if a2.x > t2.x {
            t2 := a2;
          }
        }
      }
      if idx > 0 {
        ExtentSnoc(done, s);
      }
      done := done + [s];
      assert done == segs[..idx + 1];
      idx := idx + 1;
    }
    assert done == segs;
    var a := t2.y - t1.y;
    var b := t1.x - t2.x;
    var c := t2.x * t1.y - t1.x * t2.y;
    var l := Line(a, b, c);
    assert l == LineThrough(t1, t2);
    if a == b {
      return Unaligned(DivisionByZero);
    }
    return Aligned(Extent(t1, t2), l);
  }

  /** The edits for one segment of the align loop. */
  method AlignSegment(w: World, l: Line, s: Segment, am: ActionManager)
    requires l.a != l.b
    requires EndsLoaded(w, s)
    modifies am
    ensures am.actions == old(am.actions) + SegmentActions(w, l, s)
  {
    var newGeo := s.points;
    var flagSimpled := false;
    if |newGeo| > 2 {
      newGeo := RemoveGeometryNodes(newGeo);
      flagSimpled := true;
    }
    if flagSimpled {
      am.Add(UpdateSegmentGeometry(s.id, s.points, newGeo));
    }
    var node := w.nodes[s.fromNode];
    var d := PerpendicularConstant(l, node.geometry);
    var r1 := GetIntersectCoord(l.a, l.b, l.c, d);
    var connectedSegObjs := CaptureGeometries(w, node.segIds, map[]);
    assert map[] + Snapshot(w, node.segIds) == Snapshot(w, node.segIds);
    am.Add(MoveNode(s.fromNode, node.geometry, r1, connectedSegObjs));
    var node2 := w.nodes[s.toNode];
    var d2 := PerpendicularConstant(l, node2.geometry);
    var r2 := GetIntersectCoord(l.a, l.b, l.c, d2);
    connectedSegObjs := CaptureGeometries(w, node2.segIds, connectedSegObjs);
    am.Add(MoveNode(s.toNode, node2.geometry, r2, connectedSegObjs));
  }

  /** The align loop: every segment's edits, in selection order. */
  method AlignSegments(w: World, l: Line, segs: seq<Segment>, am: ActionManager)
    requires l.a != l.b
    requires WellFormed(segs, w)
    modifies am
    ensures am.actions == old(am.actions) + AllActions(w, l, segs)
  {
    ghost var done: seq<Segment> := [];
    var idx := 0;
    while idx < |segs|
      invariant 0 <= idx <= |segs|
      invariant done == segs[..idx]
      invariant AllEndsLoaded(w, done)
      invariant am.actions == old(am.actions) + AllActions(w, l, done)
    {
      var s := segs[idx];
      WellFormedEndsLoaded(segs, w, idx);
      AllActionsSnoc(w, l, done, s);
      AlignSegment(w, l, s, am);
      done := done + [s];
      assert done == segs[..idx + 1];
      idx := idx + 1;
    }
    assert done == segs;
  }

  /** doSimplifyStreetGeometry with the `...Continue` arguments f. */
  method DoSimplifyStreetGeometry(st: Settings, w: World, sel: Selection, f: Flags, am: ActionManager)
    returns (o: Outcome<Flags>)
    requires WellFormed(sel.segments, w)
    modifies am
    ensures o == Simplify(st, w, sel, f)
    ensures am.actions == old(am.actions) + Added(o)
  {
    var segs := sel.segments;
    if |segs| > 1 {
      var sanityContinue := f.sanity;
      var nonContinuousContinue := f.nonContinuous;
      var conflictingNamesContinue := f.conflictingNames;
      if |segs| > SanityLimit && !sanityContinue {
        if st.sanityCheck == Error {
          return Failed(TooManySegments);
        }
        if st.sanityCheck == Warning {
          return Confirm(TooManySegments, Flags(true, false, false));
        }
        sanityContinue := true;
      }
      if sel.multipleConnectedComponents && !nonContinuousContinue {
        if st.nonContinuousSelection == Error {
          return Failed(NonContinuous);
        }
        if st.nonContinuousSelection == Warning {
          return Confirm(NonContinuous, Flags(sanityContinue, true, false));
        }
        nonContinuousContinue := true;
      }
      if st.conflictingNames != NoWarning {
        var continuousNames := CheckNameContinuity(segs);
        if !continuousNames && !conflictingNamesContinue && st.conflictingNames == Error {
          return Failed(ConflictingNames);
        }
        if !continuousNames && !conflictingNamesContinue && st.conflictingNames == Warning {
          return Confirm(ConflictingNames, Flags(sanityContinue, nonContinuousContinue, true));
        }
      }
      o := SimplifyAligned(w, segs, am);
    } else if |segs| == 1 {
      o := Info;
    } else {
      o := NoOp;
    }
  }

  /** The line fit and the align loop. */
  method SimplifyAligned(w: World, segs: seq<Segment>, am: ActionManager) returns (o: Outcome<Flags>)
    requires |segs| > 0
    requires WellFormed(segs, w)
    modifies am
    ensures o == AlignSelection(w, segs)
    ensures am.actions == old(am.actions) + Added(o)
  {
    var r := FitExtent(segs);
    if r.Unaligned? {
      return Faulted(r.fault);
    }
    AlignSegments(w, r.line, segs, am);
    o := Applied(AllActions(w, r.line, segs));
  }
}
