# Straightening engines of WME Straighten Up and WME Simplify Street Geometry

Two userscripts for the Waze Map Editor straighten a selection of road segments.

- **WME Straighten Up** (`doStraightenSegments` in `WME-SU.js`) has five hazard gates:
  - more than ten segments;
  - a selection in several pieces;
  - conflicting street names;
  - micro-doglegs;
  - a junction moved more than ten meters.

  Each gate is configured `nowarning`, `warning` or `error`. A `warning` asks for confirmation and re-enters the engine with that hazard's flag set. Over several segments the engine works in this order:
  1. the sanity, continuity and name gates;
  2. one loop over the segments that collects their node ids and queues, for every segment with more than two points, the removal of its interior shape points;
  3. the classification of the node ids into distinct and duplicated ids;
  4. the micro-dogleg gate on the distinct nodes;
  5. the endpoint ids, ordered by x, and the line `a·x + b·y + c = 0` through them;
  6. the projection of every other node onto that line;
  7. the long-move gate on those projections.

  Edits are committed only after the last gate: geometry updates first, then node moves. With a single segment, the micro-dogleg gate runs on its two end nodes, and the segment's simplification, if it has more than two points, is added directly.
- **WME Simplify Street Geometry** (`doSimplifyStreetGeometry` in `WME-SSG.js`) is the older variant. It has three hazard gates. It fits its line through the leftmost start and the rightmost end over all segments. Then, segment by segment, it queues:
  1. the simplification of the segment, when it has more than two points;
  2. a move of its from node onto the line;
  3. a move of its to node onto the line.

The model is organised by concept, one module each:

- `Geometry`: `getDeltaDirect`, the line through two points, and `getIntersectCoord` as the foot of the perpendicular.
- `Editor`: segments, nodes, the editor's repositories, settings, hazard gates, edits, and the `ActionManager` class with its appended action log.
- `NameContinuity`: `checkNameContinuity`.
- `MicroDogLegs`: `checkForMicroDogLegs`.
- `NodeLists`: the node-id lists.
- `StraightenUp`: the WME-SU engine.
- `SimplifyStreetGeometry`: the WME-SSG engine.

The helpers `getIntersectCoord`, `getDeltaDirect` and `checkNameContinuity` are identical in both scripts, so each is modelled once. The table cites both copies.

Each engine is modelled twice:

- A specification function: `StraightenUp.Straighten` and `SimplifyStreetGeometry.Simplify`. It maps settings, selection, editor state and the `...Continue` arguments to an `Outcome`. The outcome is one of:
  - an error;
  - a confirmation carrying the arguments its accept path re-enters with;
  - info;
  - no-op;
  - applied edits;
  - a fault.
- An imperative method: `DoStraightenSegments` and `DoSimplifyStreetGeometry`. It has the source's loops and variables and appends to the `ActionManager`. Each method is proved to return the function's outcome and to append exactly that outcome's edits.

The host's geographic conversion and distance are a parameter, `Editor.Geodesy`. Only the thresholds (2 m and 10 m) and the structure of the tests are modelled.

## Model

| member | source | states |
|---|---|---|
| Geometry.DeltaDirectIsSign | WME-SU.js:113-120 | getDeltaDirect is 1, -1 or 0, is the sign of b - a, and is 0 only when a == b (same as WME-SSG.js:111-118) |
| Geometry.DeltaNegativeIffGreater | WME-SU.js:113-120 | the swap test `getDeltaDirect(a, b) < 0` holds exactly when a > b |
| Geometry.LineThroughPassesThrough | WME-SU.js:334-336 | the coefficients a = p2.y - p1.y, b = p1.x - p2.x, c = p2.x·p1.y - p1.x·p2.y vanish at both points |
| Geometry.LineThroughNonDegenerate | WME-SU.js:334-336 | two distinct points give a and b not both zero |
| Geometry.NormPositive | WME-SU.js:106 | the divisor a·a + b·b is positive when a and b are not both zero |
| Geometry.SolvesSystem | WME-SU.js:103-109 | the two quotients of getIntersectCoord solve a·x + b·y + c = 0 and b·x - a·y + d = 0 |
| Geometry.IntersectSolvesSystem | WME-SU.js:103-109 | given a != b, getIntersectCoord lies on the line and on its perpendicular with constant d (same as WME-SSG.js:101-107) |
| Geometry.SystemSolutionUnique | WME-SU.js:103-109 | that system has a single solution, so getIntersectCoord is the intersection of the two lines |
| Geometry.ProjectOnLine | WME-SU.js:341-342 | with d = q.y·a - q.x·b, the node's new position lies on the line and on the perpendicular through q |
| Geometry.ProjectAlongNormal | WME-SU.js:341-342 | the node moves along the normal (a, b) of the line |
| Geometry.ProjectFixesPointsOnLine | WME-SU.js:341-342 | a node already on the line is returned unchanged |
| Geometry.ProjectIdempotent | WME-SSG.js:284-301 | projecting a moved node again leaves it where it is |
| Geometry.ProjectIsNearest | WME-SU.js:341-342 | the new position is the point of the line nearest to the node |
| Editor.Gate | WME-SU.js:229-242 | a firing hazard is rejected exactly under `error`, asked about exactly under `warning`, and let through otherwise |
| Editor.ActionManager.Add | WME-SU.js:212 | `add` appends one action and removes none |
| Editor.Snapshot | WME-SU.js:346-350 | connectedSegObjs holds exactly the node's segment ids, each with that segment's current geometry |
| Editor.SnapshotSnoc | WME-SU.js:347-350 | capturing one more segment adds exactly that segment's geometry |
| Editor.CaptureGeometries | WME-SSG.js:293-296 | the cloning loop leaves the given map overwritten with the snapshot of the listed segments (same as WME-SSG.js:305-308 and WME-SU.js:347-350) |
| Editor.RemoveGeometryNodes | WME-SU.js:285-286 | splicing out the interior leaves exactly [first point, last point] |
| NameContinuity.FirstSegmentNames | WME-SU.js:145-150 | the name set holds the first segment's primary id when positive, and each of its alternate ids |
| NameContinuity.AnyAlternateIn | WME-SU.js:129-136 | the inner loop finds an alternate id in the set exactly when one exists |
| NameContinuity.CheckNameContinuity | WME-SU.js:122-153 | the result is true exactly when every later segment shares its positive primary id or an alternate with the first segment's set (same as WME-SSG.js:120-151) |
| NameContinuity.ShortSelectionsAreContinuous | WME-SU.js:122-153 | a selection of zero or one segments yields true |
| NameContinuity.UnnamedSegmentBreaksContinuity | WME-SU.js:126-143 | a later segment with no positive primary id and no alternates yields false |
| NameContinuity.ComparesWithFirstSegmentOnly | WME-SU.js:145-150 | each segment is compared with the first segment only, not with a running intersection |
| MicroDogLegs.EveryPointClear | WME-SU.js:173-180 | every point of a geometry passes checkGeoComp exactly when none is a dogleg point |
| MicroDogLegs.CheckNode | WME-SU.js:184-193 | the loop over one node's segments finds a dogleg exactly when a considered segment has a point that differs from the node and is under 2 m away |
| MicroDogLegs.CheckForMicroDogLegs | WME-SU.js:166-197 | the result is true exactly when some listed node has a considered segment with a dogleg point |
| MicroDogLegs.NoNodesNoDogLeg | WME-SU.js:167-168 | an empty id list yields false |
| MicroDogLegs.CoincidentPointIsNotDogLeg | WME-SU.js:175 | a point with the node's own longitude and latitude never counts |
| MicroDogLegs.SingleSegmentNarrows | WME-SU.js:188-189 | a dogleg found on the single segment is also found on the whole selection |
| MicroDogLegs.SingleSegmentOnlyThatSegment | WME-SU.js:188-189 | with a single segment id given, only points of that segment can raise the hazard |
| NodeLists.CountPositive | WME-SU.js:294 | an id is in a list exactly when it occurs in it at least once |
| NodeLists.NodeIds | WME-SU.js:279-281 | allNodeIds lists the from and the to node of every segment, in selection order |
| NodeLists.NodeIdsSnoc | WME-SU.js:280-281 | each segment pushes its from node, then its to node |
| NodeLists.InNodeIds | WME-SU.js:279-281 | an id is in allNodeIds exactly when it is an end node of some segment |
| NodeLists.Distinct | WME-SU.js:299 | distinctNodes holds exactly the ids of allNodeIds |
| NodeLists.DistinctNoDuplicates | WME-SU.js:299 | distinctNodes has no repeats |
| NodeLists.DistinctSnoc | WME-SU.js:299 | a seen id leaves distinctNodes unchanged, and a new one goes at the end |
| NodeLists.DistinctFirstOccurrenceOrder | WME-SU.js:299 | distinctNodes keeps first-occurrence order |
| NodeLists.Repeated | WME-SU.js:293-298 | the repeated ids are exactly the listed ids occurring at least twice |
| NodeLists.RepeatedSnoc | WME-SU.js:293-298 | one more id is kept exactly when it occurs at least twice |
| NodeLists.Without | WME-SU.js:316 | the filter keeps exactly the ids not excluded, in order |
| NodeLists.WithoutNoDuplicates | WME-SU.js:316 | filtering a list without repeats leaves a list without repeats |
| NodeLists.DupsAreRepeated | WME-SU.js:293-298 | dupNodeIds holds exactly the ids occurring at least twice |
| NodeLists.RepeatedNoDuplicates | WME-SU.js:293-298 | keeping the repeated ids of a list without repeats leaves a list without repeats |
| NodeLists.DupsNoDuplicates | WME-SU.js:295-296 | dupNodeIds lists no id twice |
| NodeLists.EndpointsSeenOnce | WME-SU.js:315-316 | for a connected selection, the endpoints are exactly the ids occurring once |
| NodeLists.RepeatedStep | WME-SU.js:294-296 | one scan step appends the id exactly when it occurs again later and is not yet listed |
| NodeLists.FindDupNodeIds | WME-SU.js:293-298 | the scan computes dupNodeIds: exactly the repeated ids (DupsAreRepeated) |
| StraightenUp.GeometryUpdatesSnoc | WME-SU.js:279-291 | a segment adds its simplification exactly when it has more than two points |
| StraightenUp.UpdatesAreSimplifications | WME-SU.js:285-290 | every queued update is the simplification of a selected segment with more than two points |
| StraightenUp.SimplifiedSegmentsAreUpdated | WME-SU.js:285-290 | every selected segment with more than two points has its simplification queued |
| StraightenUp.SimplificationKeepsEnds | WME-SU.js:283-289 | an update sets [first, last], keeps the original as the old geometry, and modifies only a clone |
| StraightenUp.CollectSelection | WME-SU.js:279-292 | the loop builds allNodeIds and the geometry updates of the selection |
| StraightenUp.NodeMoves | WME-SU.js:337-359 | one move per node to move, in order, each the relocation of that node |
| StraightenUp.NodeMovesLandOnLine | WME-SU.js:339-357 | each move takes its node from its geometry to its projection on the line, with the snapshot of its segments |
| StraightenUp.NodeMovesSnoc | WME-SU.js:355-357 | moving one more node appends its relocation |
| StraightenUp.AnyLongMove | WME-SU.js:351-354 | longMove holds exactly when some node to move travels further than 10 m (strict) |
| StraightenUp.AnyLongMoveSnoc | WME-SU.js:353-354 | longMove is or-ed with each node's test |
| StraightenUp.WithoutSnoc | WME-SU.js:338 | a node is moved exactly when it is not an endpoint |
| StraightenUp.MoveForNode | WME-SU.js:339-357 | one iteration computes the node's relocation and its long-move test |
| StraightenUp.PlanStep | WME-SU.js:337-338 | an endpoint adds no move; any other distinct node adds its relocation |
| StraightenUp.PlanNodeMoves | WME-SU.js:337-359 | the loop yields the moves of every distinct non-endpoint node, in order, and longMove over them |
| StraightenUp.SelectionLoaded | WME-SU.js:279-281 | every collected node id exists in the editor's model |
| StraightenUp.EndpointIds | WME-SU.js:315-318 | the endpoints are the ids seen once, or the first from node and the last to node for a selection in pieces, and always selected ids |
| StraightenUp.OrderEndpoints | WME-SU.js:319-333 | the swap fires exactly when the first endpoint lies right of the second, rotates ids and geometries in step, and leaves p1.x <= p2.x |
| StraightenUp.OrderEnds | WME-SU.js:319-333 | the in-place swap of x, y, ids and objects computes the ordered endpoints |
| StraightenUp.FitLine | WME-SU.js:315-338 | fewer than two endpoints is a fault, and the nodes to move are selected ids with a usable line |
| StraightenUp.FitLineProperties | WME-SU.js:319-338 | the line passes through both ordered endpoints, and the nodes to move are exactly the non-endpoint ids, each once |
| StraightenUp.ConnectedEndpointsSeenOnce | WME-SU.js:315-316 | for a connected selection, the endpoints are exactly the ids seen once |
| StraightenUp.MovedNodeIds | WME-SU.js:355-357 | move k is a move of node k |
| StraightenUp.EndpointsStay | WME-SU.js:338 | no endpoint gets a move |
| StraightenUp.InteriorNodesMoveOnce | WME-SU.js:337-359 | every other node of the selection gets exactly one move |
| StraightenUp.FitEndpoints | WME-SU.js:315-336 | the endpoint filter, the swap and the line coefficients compute the line fit |
| StraightenUp.LongMoveStageRespects | WME-SU.js:360-375 | the long-move gate errs only under `error` and asks only under `warning` |
| StraightenUp.StraightenFittedRespects | WME-SU.js:300-313 | the micro-dogleg gate and the later stages respect their settings |
| StraightenUp.StraightenManyRespects | WME-SU.js:229-274 | the sanity, continuity and name gates respect their settings |
| StraightenUp.OutcomeFollowsSetting | WME-SU.js:199-415 | every error and every question is about a hazard set to `error` or `warning` respectively |
| StraightenUp.UpToSetsEarlier | WME-SU.js:236-307 | the accept path of hazard h sets exactly the flags of h and of every earlier hazard |
| StraightenUp.LongMoveStageAcceptShape | WME-SU.js:362-375 | the long-move question carries the plan and sets every flag |
| StraightenUp.StraightenFittedAcceptShape | WME-SU.js:300-313 | the micro-dogleg question is asked only with that flag clear, and its accept path sets the flags up to it |
| StraightenUp.StraightenManyAcceptShape | WME-SU.js:229-274 | each question is asked only with its flag clear, and its accept path sets the flags up to that hazard |
| StraightenUp.AcceptSetsEarlierFlags | WME-SU.js:229-378 | a question's accept path sets exactly its own flag and the earlier ones, and only the long-move question hands over the plan |
| StraightenUp.SingleSegmentAccept | WME-SU.js:384-397 | the single-segment question is about micro-doglegs and re-enters with that flag set |
| StraightenUp.ShapesAdvance | WME-SU.js:229-313 | a question about a later gate follows from re-entering with the flags up to a question |
| StraightenUp.ManyConfirmationsAdvance | WME-SU.js:229-313 | over several segments, accepting a flagged question leads only to a later question |
| StraightenUp.ManyEntryAdvances | WME-SU.js:229-378 | over several segments, the entry a question hands back asks only about a later hazard, and the long move commits |
| StraightenUp.SingleEntryCommits | WME-SU.js:384-408 | accepting the single-segment question asks nothing more |
| StraightenUp.ConfirmationsAdvance | WME-SU.js:199-415 | accepting a question never brings back the same or an earlier hazard |
| StraightenUp.FittedAcceptedIsOff | WME-SU.js:300 | once its flag is set, the micro-dogleg gate behaves as under `nowarning` |
| StraightenUp.LongMoveStageOff | WME-SU.js:360-378 | under `nowarning`, the long-move gate commits the same plan the question carries |
| StraightenUp.FittedLongMoveOff | WME-SU.js:300-378 | when the long move asks, the same run under `nowarning` commits the plan the question carries |
| StraightenUp.ManySwitchOff | WME-SU.js:229-378 | from the toolbar over several segments, accepting a question does what switching that hazard off does |
| StraightenUp.AcceptingIsSwitchingOff | WME-SU.js:199-415 | from the toolbar, accepting a question equals rerunning with that hazard set to `nowarning` |
| StraightenUp.SanityCheckedFirst | WME-SU.js:229-231 | more than ten segments under `error` fail before any other check |
| StraightenUp.ManyAppliedCommitsPlan | WME-SU.js:202-225 | an applied run over several segments commits every geometry update, then every node move of the fitted line |
| StraightenUp.CommitOrder | WME-SU.js:209-224 | in a commit, all geometry updates precede all node moves |
| StraightenUp.SingleSegmentSimplifies | WME-SU.js:380-408 | a single segment is simplified to [first, last] exactly when it has more than two points, and gets no edit otherwise |
| StraightenUp.CommitPlan | WME-SU.js:209-224 | the commit branch appends every update, then every move, in list order |
| StraightenUp.DoStraightenSegments | WME-SU.js:199-415 | the engine returns the specified outcome and appends exactly the edits that outcome applies |
| StraightenUp.StraightenSelection | WME-SU.js:226-274 | the three first gates, with the `...Continue` values the run holds, then the rest of the run |
| StraightenUp.StraightenNodes | WME-SU.js:275-314 | the node classification and the micro-dogleg gate on every distinct node |
| StraightenUp.AlignNodes | WME-SU.js:315-359 | the endpoint fit and the projection of the other nodes |
| StraightenUp.ProjectAndGate | WME-SU.js:337-378 | the projection loop, the long-move gate and the re-entry that commits the plan |
| SimplifyStreetGeometry.OrientedLeftToRight | WME-SSG.js:221-237 | a segment's ends are swapped exactly when the first lies right of the last, so a1.x <= a2.x |
| SimplifyStreetGeometry.ExtentSnoc | WME-SSG.js:238-251 | a later spanning segment replaces t1 on a strictly smaller start and t2 on a strictly larger end |
| SimplifyStreetGeometry.ExtentBounds | WME-SSG.js:238-251 | t1.x is at most every oriented a1.x, and t2.x at least every oriented a2.x |
| SimplifyStreetGeometry.ExtentOrdered | WME-SSG.js:238-251 | t1.x <= t2.x |
| SimplifyStreetGeometry.ExtentEarliestStart | WME-SSG.js:238-247 | t1 is the oriented start of the earliest segment reaching the least x |
| SimplifyStreetGeometry.ExtentEarliestEnd | WME-SSG.js:238-251 | t2 is the oriented end of the earliest segment reaching the greatest x |
| SimplifyStreetGeometry.AlignedThroughExtent | WME-SSG.js:259-261 | t1 and t2 lie on the computed line, and projecting them leaves them in place |
| SimplifyStreetGeometry.FitExtent | WME-SSG.js:212-261 | the extent loop and the line formula compute the line through the extent, or the fault that stops the run |
| SimplifyStreetGeometry.AllActionsSnoc | WME-SSG.js:266-311 | each segment appends its own edits after those of the earlier segments |
| SimplifyStreetGeometry.AllActionsConcat | WME-SSG.js:266-311 | the edits of consecutive parts of a selection are concatenated in order |
| SimplifyStreetGeometry.ActionsInSelectionOrder | WME-SSG.js:266-311 | segment i's edits come after those of all earlier segments and before those of all later ones |
| SimplifyStreetGeometry.SegmentActionsShape | WME-SSG.js:270-309 | a segment queues an update to [first, last] exactly when it has more than two points, then a move of its from node and a move of its to node onto the line along the perpendicular |
| SimplifyStreetGeometry.ToMoveCapturesFromNode | WME-SSG.js:291-309 | the to-node move carries the geometries of both nodes' segments, because connectedSegObjs is reused |
| SimplifyStreetGeometry.EveryMoveLandsOnLine | WME-SSG.js:284-309 | every node move of the selection lands on the line |
| SimplifyStreetGeometry.MovesAreProjections | WME-SSG.js:284-309 | every node move goes from where the node is to its projection on the line |
| SimplifyStreetGeometry.MovesAreStable | WME-SSG.js:284-309 | a node on the line is not displaced, and a moved node would not move again |
| SimplifyStreetGeometry.AlignSegment | WME-SSG.js:266-311 | one iteration appends the segment's simplification when due, then its two node moves |
| SimplifyStreetGeometry.AlignSegments | WME-SSG.js:266-315 | the align loop appends the edits of every segment, in selection order |
| SimplifyStreetGeometry.OutcomeFollowsSetting | WME-SSG.js:153-202 | errors and questions occur only under `error` and `warning`, and neither adds an edit |
| SimplifyStreetGeometry.AcceptSetsFlag | WME-SSG.js:157-202 | a question is asked only with its flag clear; its accept path sets that flag, sets an earlier flag exactly when it was set or that hazard fired, and clears the later ones |
| SimplifyStreetGeometry.ConfirmationsAdvance | WME-SSG.js:157-202 | accepting a question never brings back the same or an earlier hazard |
| SimplifyStreetGeometry.AcceptingIsSwitchingOff | WME-SSG.js:157-202 | from the toolbar, accepting a question equals rerunning with that hazard set to `nowarning` |
| SimplifyStreetGeometry.SanityCheckedFirst | WME-SSG.js:157-159 | more than ten segments under `error` fail before any other check |
| SimplifyStreetGeometry.FewSegmentsChangeNothing | WME-SSG.js:317-322 | one segment gives info, none gives a no-op, and neither adds an edit |
| SimplifyStreetGeometry.AppliedAlignsEverything | WME-SSG.js:153-324 | an applied run fitted the line through the extent, adds every segment's edits, and moves every node onto that line |
| SimplifyStreetGeometry.SimplifyAligned | WME-SSG.js:212-315 | the line fit and the align loop return the specified outcome and append exactly its edits |
| SimplifyStreetGeometry.DoSimplifyStreetGeometry | WME-SSG.js:153-324 | the engine returns the specified outcome and appends exactly the edits that outcome applies |

## Left out

- Geodesy: the haversine `distanceBetweenPoints` and `WazeWrap.Geometry.ConvertTo4326` are abstract functions. Only the `< 2` and `> 10` meter thresholds are modelled (floating-point trigonometry).
- Coordinates are exact reals. IEEE-754 rounding in the line fit and the projection is not modelled.
- Fault outcomes stand where the host code throws or degenerates, and carry no edits:
  - `MissingEndpoint`: fewer than two endpoint ids in WME-SU, where the host throws a TypeError at WME-SU.js:320-321.
  - `UndefinedExtent`: a first segment with fewer than two points in WME-SSG, where t1 stays undefined.
  - `DivisionByZero`: a == b. This holds when the line has slope -1, and also when the two points that define it coincide (a = b = 0). The points coincide, for example, for a WME-SU selection in pieces whose first from node is its last to node, or when WME-SSG's t1 equals t2. WME-SU reports the fault only when some node is to be moved; WME-SSG always does. The host would divide by zero in getIntersectCoord and queue moves to NaN or Infinity coordinates. It would also queue every simplification: WME-SU in its commit branch, WME-SSG before each segment's moves (WME-SSG.js:274-281). The model instead stops with the fault and no edits.
- The host applies each action as it is added. The model only logs it and reads the editor state as it was before the run. This matters in WME-SSG, where a node shared by two segments is moved twice, and later snapshots see earlier edits. `MovesAreStable` shows that the second move of such a node lands where the first one did.
- Aliasing of `connectedSegObjs` with objects held by the editor is not modelled. The map is a value.
- Settings persistence (`loadSettingsFromStorage`, `saveSettingsToStorage`), timers and bootstrap, translations, buttons, DOM events, alerts and logging are left out. Settings are an input. A confirmation is a returned outcome, not an asynchronous callback.
- `passedObj` carries only the plan. Its `distinctNodes` and `endPointNodeIds` fields serve logging only.
- Selected features that are not segments (the `type === 'segment'` checks) are left out. Every selected feature is a segment.
- The order in which `getByIds` returns nodes is taken as the order of the ids.
- WME-SSG's `tX`, `tY` and `dY` feed logging only and are not modelled.
- `Editor.WellFormed` is taken for granted of the host. Every end node of a selected segment exists, and every segment a node lists exists.
- The model follows the code where a reader might expect otherwise:
  - the name check compares with the first segment's names only (WME-SU.js:145-150), although the ConflictingNames messages (WME-SU.js:439, 465) speak of a name common to all the segments;
  - the endpoint swap has no tie-break on y (WME-SU.js:322);
  - no fallback exists for a == b;
  - zero-length moves are still queued.
