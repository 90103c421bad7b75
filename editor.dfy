/**
 * The part of the map editor the straightening engines talk to, as values:
 * selected segments, the node and segment repositories, the settings that
 * gate each hazard, the geographic distance, and the action manager that
 * receives the edits.
 */
module Editor {
  import opened Geometry

  datatype Option<T> = None | Some(value: T)

  type NodeId = int
  type SegmentId = int

  /**
   * A selected road segment: its id, its end nodes, its geometry (a
   * polyline whose first and last points sit on the end nodes), its
   * primary street id and its alternate street ids.
   */
  datatype Segment = Segment(
    id: SegmentId,
    fromNode: NodeId,
    toNode: NodeId,
    points: seq<Point>,
    primaryStreetId: int,
    streetIds: seq<int>)

  /** A junction node: where it is, and the ids of every segment attached to it. */
  datatype Node = Node(geometry: Point, segIds: seq<SegmentId>)

  /** The editor's data model: nodes by id and the current geometry of every segment by id. */
  datatype World = World(nodes: map<NodeId, Node>, segments: map<SegmentId, seq<Point>>)

  /** What the editor hands over on a click: the selection and whether it falls apart into pieces. */
  datatype Selection = Selection(segments: seq<Segment>, multipleConnectedComponents: bool)

  /**
   * The host's conversion to longitude/latitude and its geographic
   * distance in meters; only their thresholds are the engines' own logic.
   */
  datatype Geodesy = Geodesy(toLonLat: Point -> Point, meters: (Point, Point) -> real)

  /** The three values a hazard setting takes: nowarning, warning, error. */
  datatype Setting = NoWarning | Warning | Error

  /** The hazards, in the order the pipelines test them. */
  datatype Hazard = TooManySegments | NonContinuous | ConflictingNames | MicroDogLegs | LongJnMove

  function Rank(h: Hazard): nat {
    match h
    case TooManySegments => 0
    case NonContinuous => 1
    case ConflictingNames => 2
    case MicroDogLegs => 3
    case LongJnMove => 4
  }

  /** What one hazard check decides. */
  datatype Verdict = Proceed | Reject | Ask

  /**
   * A hazard that fires is reported as an error under `error`, turned into
   * a confirmation under `warning` and let through under `nowarning`.
   */
  function Gate(fires: bool, s: Setting): (v: Verdict)
    ensures v == Reject <==> fires && s == Error
    ensures v == Ask <==> fires && s == Warning
  {
    if fires && s == Error then Reject
    else if fires && s == Warning then Ask
    else Proceed
  }

  /** The two edits the engines queue: UpdateSegmentGeometry and MoveNode. */
  datatype Action =
    | UpdateSegmentGeometry(segment: SegmentId, oldGeometry: seq<Point>, newGeometry: seq<Point>)
    | MoveNode(node: NodeId, oldPosition: Point, newPosition: Point,
               connectedSegments: map<SegmentId, seq<Point>>)

  /** Why a run cannot complete in exact arithmetic. */
  datatype Fault =
    | MissingEndpoint   // fewer than two endpoint nodes: the host throws a TypeError
    | DivisionByZero    // a == b in getIntersectCoord: the host computes NaN or Infinity
    | UndefinedExtent   // the first segment has fewer than two points: t1 is never set and the host throws a TypeError

  /**
   * How one invocation of a pipeline ends. `Confirm` carries what the
   * accept callback re-enters with; declining does nothing.
   */
  datatype Outcome<E> =
    | Failed(error: Hazard)
    | Confirm(hazard: Hazard, onAccept: E)
    | Info
    | NoOp
    | Applied(actions: seq<Action>)
    | Faulted(fault: Fault)

  /** The edits an outcome hands to the action manager. */
  function Added<E>(o: Outcome<E>): seq<Action> {
    if o.Applied? then o.actions else []
  }

  /** The host's undoable action log; `add` appends and never removes. */
  class ActionManager {
    var actions: seq<Action>

    constructor ()
      ensures actions == []
    {
      actions := [];
    }

    method Add(a: Action)
      modifies this
      ensures actions == old(actions) + [a]
    {
      actions := actions + [a];
    }
  }

  /** Every node lists only segments the model holds. */
  predicate NodeClosed(w: World, n: Node) {
    forall j :: 0 <= j < |n.segIds| ==> n.segIds[j] in w.segments
  }

  /**
   * The host's model is closed under the lookups the engines make: every
   * end node of a selected segment exists, and every segment a node lists exists.
   */
  predicate WellFormed(segs: seq<Segment>, w: World) {
    && (forall i :: 0 <= i < |segs| ==> segs[i].fromNode in w.nodes && segs[i].toNode in w.nodes)
    && (forall id :: id in w.nodes ==> NodeClosed(w, w.nodes[id]))
  }

  /** The geometries captured for a node move, keyed by segment id (connectedSegObjs). */
  function Snapshot(w: World, ids: seq<SegmentId>): (m: map<SegmentId, seq<Point>>)
    requires forall j :: 0 <= j < |ids| ==> ids[j] in w.segments
    ensures forall s :: s in m <==> s in ids
    ensures forall s :: s in m ==> m[s] == w.segments[s]
  {
    map s | s in ids :: w.segments[s]
  }

  lemma SnapshotSnoc(w: World, ids: seq<SegmentId>, segId: SegmentId)
    requires forall j :: 0 <= j < |ids| ==> ids[j] in w.segments
    requires segId in w.segments
    ensures Snapshot(w, ids + [segId]) == Snapshot(w, ids)[segId := w.segments[segId]]
  {
    assert forall s :: s in ids + [segId] <==> s in ids || s == segId;
  }

  /**
   * The loop that clones the geometry of every listed segment into an
   * existing map (WME-SU.js:347-350, WME-SSG.js:293-296 and 305-308).
   */
  method CaptureGeometries(w: World, ids: seq<SegmentId>, m0: map<SegmentId, seq<Point>>)
    returns (m: map<SegmentId, seq<Point>>)
    requires forall j :: 0 <= j < |ids| ==> ids[j] in w.segments
    ensures m == m0 + Snapshot(w, ids)
  {
    m := m0;
    var idx := 0;
    while idx < |ids|
      invariant 0 <= idx <= |ids|
      invariant m == m0 + Snapshot(w, ids[..idx])
    {
      var segId := ids[idx];
      assert ids[..idx + 1] == ids[..idx] + [segId];
      SnapshotSnoc(w, ids[..idx], segId);
      m := m[segId := w.segments[segId]];
      idx := idx + 1;
    }
    assert ids[..idx] == ids;
  }

  /** The geometry left after splicing out every interior point: first and last only. */
  function RemoveGeometryNodes(points: seq<Point>): (r: seq<Point>)
    requires |points| > 2
    ensures r == [points[0], points[|points| - 1]]
  {
    points[..1] + points[|points| - 1..]
  }

  /** The geometry update queued for a segment with more than two points. */
  function Simplification(s: Segment): Action
    requires |s.points| > 2
  {
    UpdateSegmentGeometry(s.id, s.points, RemoveGeometryNodes(s.points))
  }
}
