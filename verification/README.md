# NEXUS verified model

NEXUS coordinates emergency operations. This project models five of its parts and proves what they promise.

| part | files |
|---|---|
| Emergency routing over a dynamic overlay | `StateOverlay`, `RoadGraph`, `Policy`, `Paths`, `SearchTheory`, `Search`, `Solvers`, `Router`, `Rerouting`, `GraphBuilder` |
| The event-sourced digital twin and what-if previews | `TwinEntities`, `TwinState`, `TwinRules`, `TwinReplay`, `ReplayTheory`, `TwinMirror`, `TwinMeaning`, `TwinManager`, `Simulation` |
| Offline synchronisation | `Roles`, `Sync`, `Incidents` |
| Recommendation governance | `Governance` |
| Greedy resource allocation | `Allocation` |

`Basics` holds shared vocabulary. Code that changes state is modelled by classes and loops, each proved equal to a
function on values; the properties are lemmas about those functions, over every input, run or interleaving. What each
function means is stated independently of it, in the statuses, roles, limits and roads themselves: the overlay's effect
on an edge by `RoadGraph.Shows`, a policy's by `Policy.Admits`, an event's by `TwinMeaning`, a delivery's by
`Sync.DeliveryMeans`, a decision's by `Governance.ApproveMeans` and its companions.

- **Routing.** Dijkstra and A\* share one loop with a heap of tentative scores, lazy deletion, a closed set that is never
  reopened, and early exit. Scores are exact reals; lengths and durations are rounded half-even to two decimals. The
  network is any finite directed multigraph, seen through the overlay and filtered by the policy (`Queries.NetOf`).
  "Within eps per edge" means at most the path's cost plus eps times its length (`Paths.PaddedIsCostPlus`).
- **Digital twin.** `TwinState.Apply` is one call of `apply_event`, including the cascade that re-enters it for the road
  of a failed bridge; `TwinState.Run` is a sequence of calls, raising ones included.
- **Synchronisation.** The pipeline is generic in the domain behind it; `Incidents` instantiates it with the incident
  service on top of the twin.
- **Governance.** Calls are split at the lock: the idempotency key is checked in one step, the locked part runs in a
  later one, and any other step may come between.

## Where the code and its documentation differ

The model follows the code. Each difference is a theorem, with its exact extent where one is stated.

- The A\* heuristic is documented as never overestimating and monotone. It is neither, because it is rounded
  (`Solvers.HeuristicCanOverestimate`). In distance mode it is consistent up to eps per edge exactly when eps is at least
  a centimetre (`Solvers.DistanceSlackIsExact`), in travel-time mode exactly when it is at least 5.3 ms
  (`Solvers.TravelSlackIsExact`) and no usable edge is faster than 120 km/h (`Solvers.SpeedCapIsExact`). Above that speed
  the path A\* returns can itself miss the bound (`Solvers.AstarMissesFastDetour`); the map import accepts km/h tags up to
  150 and mph tags of any size.
- A\* and Dijkstra are documented as equivalent. The rounding breaks that even in distance mode on lengths measured as the
  import measures them (`Solvers.AstarMissesShortSteps`); they agree whenever the heuristic is consistent without slack.
- Replay is documented as identical to live execution. It is so exactly when no cascade was dropped live as a
  duplicate of an id that the log does not account for (`ReplayTheory.ReplayRebuildsIff`), and up to roads and bridges
  that events without effect created at their defaults (`ReplayTheory.NoOpCreationIsNotReplayed`).
- Twin and overlay are documented as free of conflict. They are in every run under conditions on the start state and the
  submitted ids (`TwinMirror.EveryRunAgrees`), and one bridge change keeps them so exactly under
  `TwinMirror.MirrorsCleanly` (`TwinMirror.BridgeEventAgreesIff`). Cascade ids are not injective, and two failures whose
  cascades collide break it (`TwinMirror.CollidingCascadeBreaksAgreement`).
- An event that asserts what already holds is documented as a no-op. Incident creation never is, nor is a group update
  with an empty location (`TwinRules.RepeatIsNoOpIff`).
- An event whose overlay target is the empty road id raises after it has been committed
  (`TwinState.EmptyTargetCommitsAndRaises`); a raise is atomic exactly otherwise
  (`TwinState.RaisingIsAtomicUnlessTargetEmpty`).
- A capacity update is refused when it lowers the total below the old availability, even if well-formed
  (`TwinRules.WellFormedCapacityRefusedIff`).
- Rerouting settles on every network exactly when the router's own policy allows whatever the request allows
  (`Rerouting.SettlesIffRouterPermissive`); the default policy forbids private roads. On built networks the defaults
  are enough, because built edges carry no access tag (`GraphBuilder.BuiltNetworksSettleUnderDefaults`).
- A chosen path with an edge the segment model refuses is reported by the rerouter as no path, because the validation
  error is a `ValueError` (`Rerouting.MalformedEdgeHidesAPath`). `Rerouting.RefusalPossibleIff` says on which networks a
  cheapest path can be refused; built ones are not among them (`GraphBuilder.ValidSegmentsAreNeverRefused`). Out-of-range
  coordinates raise an error that is not one, and escape (`Rerouting.DynamicRerouter.EvaluateAndReroute` says exactly
  when).
- A reversed one-way tag is ignored on motorways and roundabouts (`GraphBuilder.ReverseTagHonouredIff`).
- Saving a recommendation keeps any non-pending status but logs it as PENDING (`Governance.SavedStatusIsMisreported`); a
  failed operational precondition expires a recommendation without an audit event
  (`Governance.FailedPreconditionExpiresSilently`).
- A repeated approval under one key is documented as returning the cached decision. One that passed the unlocked check
  before the decision was recorded is refused instead (`Governance.LateRetryIsRefused`), and after the id is saved again
  the old key answers with a pending recommendation (`Governance.ResavedKeyAnswersPending`).
- A sync operation's base version is compared with the twin's version by the conflict engine and with the incident's own
  version by the incident service (`Incidents.BasedUpdateNeedsBothCounters`); status or severity as plain text never
  passes (`Incidents.PlainTextUpdatesFail`); an incident DELETE is accepted without effect
  (`Incidents.DeleteIsAcceptedWithoutEffect`).
- A coverage ratio reads 1.0 from 99.5% on (`Allocation.CoverageReadsFullIff`).

## Model

| member | source | states |
|---|---|---|
| `Overlay.StateOverlay.SetRoadOverride` | geospatial/routing/state_overlay.py:45-89 | Refuses the empty road id and changes nothing; otherwise stores the override, raises the version and records the change with the previous status. |
| `Overlay.StateOverlay.SetBridgeOverride` | geospatial/routing/state_overlay.py:91-112 | Overrides the road indexed for the bridge, or the one its name implies; fails exactly when that is empty. |
| `Overlay.StateOverlay.ClearRoadOverride` | geospatial/routing/state_overlay.py:114-140 | Removes the override and records it, or reports that there was none. |
| `Overlay.StateOverlay.ClearAllOverrides` | geospatial/routing/state_overlay.py:142-158 | Removes everything under one version step, and returns how many there were. |
| `Overlay.StateOverlay.RegisterRoadEdge` | geospatial/routing/state_overlay.py:36-43 | Indexes the edge and its bridge; overrides, version and events stay. |
| `Overlay.StateOverlay.Clone` | geospatial/routing/state_overlay.py:198-209 | A fresh object in the same state. |
| `Overlay.EveryRunKeepsHistory` | geospatial/routing/state_overlay.py:45-158 | In every sequence of calls the overlay is exactly its event history: version counts events, event i carries version i + 2, folding the events gives the statuses, each previous status is the fold before it. |
| `Overlay.FreshRunsAreTheirHistory` | geospatial/routing/state_overlay.py:24-29 | The same for every overlay from its creation on, no road name being special. |
| `Overlay.BridgeNamesBecomeRoadNames` | geospatial/routing/state_overlay.py:102-104 | The naming fallback replaces the first "BRIDGE-" of a name and then those behind it, and keeps everything else. |
| `Overlay.CallsMean` | geospatial/routing/state_overlay.py:36-158 | What each call leaves in overrides, version and events: a status set on a road with an id or on the road a bridge resolves to, one removed, or none left. |
| `RoadGraph.ClearedRoadIsBase` | geospatial/routing/state_overlay.py:172-196 | Clearing a road gives back exactly its base edges. |
| `RoadGraph.EffectiveIsShown` | geospatial/routing/state_overlay.py:172-196 | An edge of an overridden road shows the override's status, and its accessibility and speed limit when given; any other shows its own; ids, length, geometry and tags are always its own. |
| `RoadGraph.EdgesBetweenAreArcs` | geospatial/routing/road_graph.py:75-85 | The edges between two nodes are exactly the effective forms of the arcs that join them. |
| `RoadGraph.RoutingGraphAdapter.constructor` | geospatial/routing/road_graph.py:42-51 | Indexes every edge by id, the first with an id being kept. |
| `RoadGraph.DistinctIdsIndexAgrees` | geospatial/routing/road_graph.py:42-46 | With distinct ids every edge is found under its own id, and nothing else is. |
| `RoadGraph.FirstArcIsKept` | geospatial/routing/road_graph.py:42-46 | Under an id that several edges share, the first of them is kept. |
| `RoadGraph.RoutingGraphAdapter.SetOverlay` | geospatial/routing/road_graph.py:98-107 | Attaching an overlay registers every indexed edge of a named road with it. |
| `RoadGraph.RegistrationInverts` | geospatial/routing/road_graph.py:98-107 | Registration makes the overlay's road-to-edges index the inverse of the edges' road ids, on top of what it had. |
| `RoadGraph.RegistrationIndexesBridges` | geospatial/routing/road_graph.py:98-107 | After registration a bridge resolves to the road of an edge that carries it, or to the road it had when none does. |
| `RoadGraph.RegistrationIsQuiet` | geospatial/routing/road_graph.py:98-107 | Registration leaves overrides, version and events alone. |
| `RoadGraph.RoutingGraphAdapter.GetEdgeById` | geospatial/routing/road_graph.py:87-92 | The indexed edge as the overlay shows it, or nothing. |
| `Policy.PermissiveIffAcceptsMore` | geospatial/routing/constraints.py:23-68 | One policy accepts every edge and vehicle another does exactly when it has all its permissions. |
| `Policy.TraversableIffAdmitted` | geospatial/routing/constraints.py:36-68 | An edge is usable exactly when it is not impassable, not high-clearance for an ambulance, and neither blocked, restricted, unknown, emergency-only nor private without the flag for it or, if private, an emergency tag. |
| `Policy.RefusalIsTrue` | geospatial/routing/constraints.py:36-68 | The reason given for a refusal is true of the edge. |
| `Policy.FallbackSpeeds` | geospatial/routing/costs.py:12-39 | The speed of every road type without a positive limit of its own, and of unlisted types. |
| `Policy.CostMeans` | geospatial/routing/costs.py:42-76 | The cost is the length, or the time at the edge's speed and at least half a metre per second to the nearest hundredth, times the penalty on a restricted road. |
| `Solvers.TooFastIff` | geospatial/routing/costs.py:29-49 | An edge beats 120 km/h exactly when it has an explicit limit above it. |
| `Queries.HopsAreEffectiveArcs` | geospatial/routing/router.py:155-164 | A usable hop is exactly a traversable effective edge between the two nodes. |
| `Queries.HopsMean` | geospatial/routing/router.py:155-164 | A hop is exactly an arc between the two nodes, as the overrides show it, that the policy admits. |
| `Queries.ClosuresNeverHelp` | geospatial/routing/state_overlay.py:172-196 | Under further BLOCKED overrides nothing becomes reachable and no cost lower bound is undercut. |
| `Search.PopMin` | geospatial/routing/router.py:146 | The popped entry is least by priority, score and node id. |
| `Search.SuccessorsAscending` | geospatial/routing/router.py:156 | Successors are visited in strictly increasing order. |
| `Search.BestHop` | geospatial/routing/router.py:158-175 | The cheapest traversable parallel edge, ties broken by edge id, or nothing when all are refused. |
| `SearchTheory.RelaxKeepsRooted` | geospatial/routing/router.py:253-260 | For any heuristic, relaxing even a closed node keeps the parent maps acyclic and rooted: parents come strictly first by score and then by time set. |
| `SearchTheory.FrontierBound` | geospatial/routing/router.py:234-262 | With a heuristic consistent up to eps, no path out of the closed region undercuts the heap's least priority by more than eps per edge. |
| `SearchTheory.CloseKeepsBounded` | geospatial/routing/router.py:236-243 | Each node closes within eps per edge of the cost of every path to it, although it is never reopened. |
| `SearchTheory.ClosedPathIsFocused` | geospatial/routing/router.py:234-262 | For any heuristic, a search path avoids every interior node whose cheapest path plus heuristic exceeds a direct edge to the target. |
| `SearchTheory.ExhaustedClosesPaths` | geospatial/routing/router.py:143-182 | When the heap runs empty, every reachable node has been closed. |
| `Search.Explore` | geospatial/routing/router.py:137-179 | The loop terminates; for any heuristic the target is scored exactly when reachable; with eps-consistency its score is within eps per edge of every path. |
| `Search.Reconstruct` | geospatial/routing/router.py:184-193 | Following parents back terminates, repeats no node, and yields a usable path costing at most the target's score. |
| `Solvers.SolveDijkstra` | geospatial/routing/router.py:124-193 | Sound, complete, optimal: empty exactly when unreachable, else a repetition-free usable path no other undercuts. |
| `Solvers.SolveAstar` | geospatial/routing/router.py:195-278 | Sound and complete for any heuristic; within eps per edge of every path when it is eps-consistent. |
| `Solvers.EstimateMeans` | geospatial/routing/router.py:209-223 | The heuristic is the rounded distance to the target, or that distance at 120 km/h in seconds, and zero at a node without coordinates. |
| `Solvers.GeodesicIsNearlyConsistent` | geospatial/routing/router.py:215-223 | The rounded geodesic heuristic is consistent up to 0.01 m, or 0.0053 s when no usable edge exceeds 120 km/h. |
| `Solvers.DistanceSlackIsExact` | geospatial/routing/router.py:202-207 | A slack of eps suffices in distance mode on every surveyed network exactly when eps is at least 0.01. |
| `Solvers.TravelSlackIsExact` | geospatial/routing/router.py:202-207 | A slack of eps suffices in travel-time mode on every surveyed network within the speed cap exactly when eps is at least 0.0053. |
| `Solvers.SpeedCapIsExact` | geospatial/routing/router.py:202-207 | The travel-time heuristic is consistent up to that slack under a speed cap on every surveyed network exactly when the cap is at most 120 km/h. |
| `Solvers.FocusedPathMissesDetour` | geospatial/routing/router.py:234-262 | With a fast detour above 120 km/h, any path A\* can return takes the slower direct road and misses the bound. |
| `Solvers.AstarMissesFastDetour` | geospatial/routing/router.py:195-278 | For every speed above 120 km/h A\* returns, on a surveyed network within that speed whose legs are long enough (as `LongEnough` provides), a path worse than its bound. |
| `Solvers.FocusedPathMissesSteps` | geospatial/routing/router.py:234-262 | On five points millimetres apart, any path A\* can return costs two centimetres, and one of one centimetre exists. |
| `Solvers.AstarMissesShortSteps` | docs/architecture/emergency-routing.md:98 | In distance mode, on a network whose lengths are exactly the rounded distances, A\* returns a path at least twice as costly as Dijkstra's. |
| `Solvers.HeuristicCanOverestimate` | geospatial/routing/router.py:202-207 | On a correctly surveyed network the heuristic exceeds the true cost: it is not admissible. |
| `Router.FindNearestNode` | geospatial/routing/nearest_node.py:16-63 | The node nearest by rounded distance, least id among equals, within the radius; each failure exactly when it is due. |
| `Basics.StrLeqIsLexicographic` | geospatial/routing/nearest_node.py:48 | Names are ordered lexicographically: a prefix first, else by the first difference. |
| `Router.ReconstructRoute` | geospatial/routing/route.py:17-114 | Segments, both totals and line of the chosen edges, the line being the node's own point when there are none; fails exactly when some edge is no valid segment. |
| `Router.SegmentLimits` | geospatial/routing/models.py:25-36 | A segment is valid exactly with two points or more and a length of zero or more. |
| `Router.RouteLineIsClean` | geospatial/routing/route.py:70-73 | The stitched line never repeats a point consecutively, has exactly the edges' points, and ends where the last edge ends. |
| `Router.TotalsAreCosts` | geospatial/routing/route.py:41-53 | With multiplier 1 the reported sums are the very cost the search minimised. |
| `Router.ReportedObjective` | geospatial/routing/route.py:105-106 | Rounding the total changes nothing, durations always and lengths when they have two decimals. |
| `Router.Route` | geospatial/routing/router.py:38-122 | Success is a valid usable path between the snapped ends, every segment an arc as the overlay shows it that the request allows, reported with its segments, both totals and line as reconstructed, whose objective is its cost, optimal for Dijkstra and within the rounding slack for A\*; invalid coordinates, nothing nearby and no route are each raised exactly when due; a segment is refused only on a path chosen as promised. |
| `Router.RequestHopsMean` | geospatial/routing/router.py:78-86 | The hops of a request are exactly the arcs, as the overrides show them, that its own flags allow. |
| `Router.GoodRoutesDriveAllowedArcs` | geospatial/routing/router.py:155-164 | Every segment of a route is an arc between its two nodes, as the overrides show it, that the request allows; no road overridden BLOCKED or IMPASSABLE is driven. |
| `Rerouting.DynamicRerouter.constructor` | geospatial/routing/rerouting.py:59-63 | The adapter is wired to the rerouter's overlay and indexed there. |
| `Rerouting.DynamicRerouter.IsRouteValid` | geospatial/routing/rerouting.py:65-101 | Valid exactly when every segment's edge exists and, as the overlay shows it now, nothing speaks against it; otherwise lists each problem. |
| `Rerouting.ProblemsAreReal` | geospatial/routing/rerouting.py:82-98 | Each problem blames a segment that cannot be used now, by its edge and road, and each such segment is blamed. |
| `Rerouting.DynamicRerouter.EvaluateAndReroute` | geospatial/routing/rerouting.py:103-204 | Raises exactly when some segment is unusable and the request's coordinates are invalid; otherwise no reroute exactly when every segment is usable; a new route is for the caller's request or else the route's own, keeps every promise of `Route` under the current overlay and, under a permissive router, is valid at once; no-path means nothing within reach, no usable path, or a refused one. |
| `Rerouting.RequestForMeans` | geospatial/routing/rerouting.py:135-144 | The caller's request comes first, then the route's own, then one for the same trip with the defaults. |
| `Rerouting.MalformedEdgeHidesAPath` | geospatial/routing/rerouting.py:147-170 | On a network with one malformed edge the rerouter reports no path although a usable path joins the ends. |
| `Rerouting.RefusalPossibleIff` | geospatial/routing/route.py:56-68 | Between some ends a cheapest path has a refused edge exactly where a refused edge is a cheapest way between its own two nodes. |
| `Rerouting.UndercutEdgesAreNeverRefused` | geospatial/routing/rerouting.py:147-170 | Where every refused edge is undercut, a Dijkstra request that finds no path has none. |
| `Rerouting.SettlesIffRouterPermissive` | geospatial/routing/rerouting.py:76-77 | Every path found under a request revalidates on every network exactly when the router's policy is at least as permissive. |
| `Rerouting.ClosuresNeverImproveTheObjective` | geospatial/routing/route_comparison.py:55-56 | After pure closures from an optimal route the chosen objective's delta is never negative. |
| `GraphBuilder.WaysAreSorted` | geospatial/osm/roads/graph_builder.py:65-66 | Ways are processed by id, stably, none lost or repeated. |
| `GraphBuilder.AllArcsAreEmitted` | geospatial/osm/roads/graph_builder.py:74-180 | An edge is emitted exactly when a known segment of some way allows its direction, with all its attributes. |
| `GraphBuilder.EmissionMeans` | geospatial/osm/roads/graph_builder.py:25-48 | Which directions of a segment are emitted, by the values of the one-way, highway and junction tags. |
| `GraphBuilder.DirectionsAreRespected` | geospatial/osm/roads/graph_builder.py:129-145 | Bidirectional ways are closed under reversal; one-way ways emit only their own direction. |
| `GraphBuilder.EdgeNameInjective` | geospatial/osm/roads/graph_builder.py:148 | An edge id determines its way and both ends. |
| `Basics.DecimalRendering` | geospatial/osm/roads/graph_builder.py:148 | Numbers in ids are decimal, most significant digit first, with a minus sign in front. |
| `GraphBuilder.SameIdSameArc` | geospatial/osm/roads/graph_builder.py:147-180 | Even when a way revisits a node pair, edges with one id are equal. |
| `GraphBuilder.BuiltIdsDetermineKeys` | geospatial/osm/roads/graph_builder.py:147-180 | Edges of any ways that share an id share both ends, so an edge id stands for the graph's key of ends and id. |
| `GraphBuilder.DefinitionAgreesWithGraph` | geospatial/osm/roads/graph_builder.py:165-191 | The definition keyed by edge id and the multigraph keyed by ends and id hold the same edges, one for one, with equal attributes. |
| `GraphBuilder.SharedIdsWouldSplit` | geospatial/osm/roads/graph_builder.py:167-170 | One id on two pairs of nodes would be two edges of the graph and one of the definition, so agreement rests on the id format. |
| `GraphBuilder.BuildRoadGraph` | geospatial/osm/roads/graph_builder.py:51-193 | Definition and graph, keyed by ends and id, hold exactly the emitted edges and the same nodes at the same coordinates, each listed once; the nodes are exactly the ends of the edges, at their map coordinates. |
| `GraphBuilder.BuildWay` | geospatial/osm/roads/graph_builder.py:85-180 | One way appends exactly its segments' edges, skipping unknown nodes. |
| `GraphBuilder.BuiltIdsAreDistinct` | geospatial/osm/roads/graph_builder.py:147-180 | Because ids determine ends, a built network has distinct edge ids and the adapter finds every edge under its own. |
| `GraphBuilder.BuiltNetworksAreSurveyed` | geospatial/osm/roads/graph_builder.py:123-127 | Built networks meet the A\* bound's hypothesis and every edge is a valid segment, under any overlay. |
| `GraphBuilder.ValidSegmentsAreNeverRefused` | geospatial/routing/rerouting.py:147-170 | Where every edge is a valid segment no chosen path is refused, so no-path means no path. |
| `GraphBuilder.BuiltNetworksSettleUnderDefaults` | geospatial/osm/roads/graph_builder.py:167-180 | On built networks a default router accepts every path any request can find. |
| `GraphBuilder.BridgeFallbackFindsRoad` | geospatial/routing/state_overlay.py:102-104 | The naming fallback sends a built bridge to its own road. |
| `GraphBuilder.FreshOverlayIndexesBuiltNetwork` | geospatial/routing/road_graph.py:98-107 | A fresh overlay on a built network indexes exactly each road's edges and resolves every bridge to its own road. |
| `TwinEntities.TransitIgnoresDefaults` | digital_twin/state/state_manager.py:330-339 | A road or bridge at its defaults is indistinguishable from an absent one to every rule. |
| `TwinRules.RepeatIsNoOpIff` | docs/architecture/digital-twin.md:85 | Repeating an applied event's content is a no-op, except exactly incident creation and group updates with an empty location. |
| `TwinRules.EveryRunKeepsFacilities` | digital_twin/state/transitions.py:107-157 | In every run availability stays between zero and capacity and statuses within their enumerations. |
| `TwinRules.WellFormedCapacityRefusedIff` | digital_twin/state/transitions.py:123-151 | A well-formed capacity update of a registered hospital or shelter is refused exactly when it lowers the total below the old availability. |
| `TwinRules.CapacityCanBeLoweredInTwoSteps` | digital_twin/state/transitions.py:123-151 | Such an update goes through after one that lowers availability alone. |
| `TwinState.EveryStepKeepsLog` | digital_twin/state/state_manager.py:283-328 | A call advances the version by 0, 1 or 2 (2 only through a cascade), in step with the log and with its result; the re-entrant call terminates. |
| `TwinState.EveryRunKeepsLog` | digital_twin/state/state_manager.py:579-588 | In every run the version counts the log, logged ids are distinct, and each logged version is its position and what the seen map holds. |
| `TwinState.RaisesWhen` | digital_twin/state/state_manager.py:283-328 | An unseen event raises exactly when its rule refuses it or it changes something whose overlay target is empty. |
| `TwinState.RaisingIsAtomicUnlessTargetEmpty` | digital_twin/state/state_manager.py:353-358 | A raising event leaves the twin untouched exactly unless it is a change with an empty overlay target. |
| `TwinState.EmptyTargetCommitsAndRaises` | digital_twin/state/state_manager.py:353-358 | Closing the road with the empty id is committed, logged and marked as seen, and then raises. |
| `TwinReplay.OverlayIsWriteOnly` | digital_twin/state/state_manager.py:357-358 | The overlay never feeds back: twins equal but for it stay so, with equal results. |
| `TwinReplay.ForkBehavesLikeLive` | digital_twin/state/state_manager.py:647-662 | The same events on fork and live twin give equal results, entities, versions, logs and seen ids. |
| `ReplayTheory.ReplayRebuildsIff` | digital_twin/state/state_manager.py:627-645 | Replaying a twin's own log from a snapshot rebuilds version, time, log and entities (up to defaults) exactly when no cascade was silenced. |
| `ReplayTheory.CleanRunsAreHeard` | digital_twin/state/state_manager.py:405-417 | When no submitted id has cascade form and none causes a cascade id from before the snapshot, no cascade is silenced. |
| `ReplayTheory.CascadeFormNoOpBreaksReplay` | digital_twin/state/state_manager.py:341-344 | A no-op submitted under a cascade-form id makes the replay end one version ahead. |
| `ReplayTheory.NoOpCreationIsNotReplayed` | digital_twin/state/state_manager.py:332-344 | A no-op on an unknown road creates it live but not in the replay. |
| `TwinMirror.BridgeEventAgreesIff` | digital_twin/state/state_manager.py:388-417 | Exactly when a bridge change keeps every override at its road's status. |
| `TwinMirror.RoadEventKeepsAgreement` | digital_twin/state/state_manager.py:353-358 | A road event keeps twin and overlay in agreement and sets that road alone. |
| `TwinMirror.EveryRunAgrees` | digital_twin/state/state_manager.py:353-417 | Twin and overlay agree after every event of every run, given agreement at the start, bridges whose road is the one the overlay resolves, propagating events on registered bridges, and clean submitted ids, none a dash prefix of another. |
| `TwinMirror.CollidingCascadeBreaksAgreement` | digital_twin/state/state_manager.py:405 | A run of two bridge failures whose cascades claim one id: every other hypothesis holds, and the second leaves twin and overlay in disagreement. |
| `TwinMirror.ApplyKeepsHistory` | digital_twin/state/state_manager.py:669-699 | Driven by the twin, the overlay stays its event history. |
| `TwinMeaning.SeenEventMeans` | digital_twin/state/state_manager.py:295-303 | A repeated event id is a duplicate and changes nothing. |
| `TwinMeaning.RoadEventMeans` | digital_twin/state/state_manager.py:330-365 | A road event sets its road in twin and overlay to what it says and keeps what it leaves open, or changes nothing but the seen ids. |
| `TwinMeaning.SameBridgeStatusMeans` | digital_twin/state/state_manager.py:376-386 | A bridge event that asserts the present status changes nothing but the seen ids. |
| `TwinMeaning.BridgeEventMeans` | digital_twin/state/state_manager.py:388-425 | A bridge change leaves the road it carries, if it propagates under an unused id, and always the override of the road it resolves to, BLOCKED for blocked, collapsed or closed, RESTRICTED for restricted or submerged, OPEN for open; the cascade is logged with its cause; nothing else moves. |
| `TwinMeaning.RoadMirrorMeans` | digital_twin/state/state_manager.py:669-682 | A road is mirrored at its own status and speed, without an access level. |
| `TwinMeaning.BridgeMirrorMeans` | digital_twin/state/state_manager.py:683-699 | A bridge is mirrored on the road it resolves to, at what its status leaves of it. |
| `TwinMeaning.OtherEventMeans` | digital_twin/state/state_manager.py:427-577 | Every other event does what its rule says, and leaves roads, bridges, teams and overlay alone. |
| `TwinMeaning.IncidentCreationMeans` | digital_twin/state/state_manager.py:487-510 | An incident is created as reported. |
| `TwinMeaning.IncidentChangeMeans` | services/api/app/schemas/incident_lifecycle.py:17-56 | An incident moves exactly along open, acknowledged, in progress, resolved, or from any of the first three to cancelled. |
| `TwinMeaning.CapacityMeans` | digital_twin/state/transitions.py:107-157 | When a capacity update is refused, without effect or taken, and what it sets. |
| `TwinMeaning.FacilityStatusMeans` | digital_twin/state/transitions.py:37-58 | A facility takes exactly the statuses its kind knows. |
| `TwinMeaning.FloodMeans` | digital_twin/state/transitions.py:187-211 | When a flood update changes its zone, and to what. |
| `TwinMeaning.GroupMeans` | digital_twin/state/transitions.py:214-238 | When a group update changes its group, and to what. |
| `TwinMeaning.PopulationMeans` | digital_twin/state/transitions.py:241-258 | When a population update changes its region, and to what. |
| `TwinMeaning.UnsupportedMeans` | digital_twin/state/state_manager.py:325-326 | An event of any other type is refused. |
| `TwinManager.DigitalTwinStateManager.CommitEvent` | digital_twin/state/state_manager.py:579-588 | Version, time, seen ids and log move together, the log entry stamped with the new version. |
| `TwinManager.DigitalTwinStateManager.ApplyEvent` | digital_twin/state/state_manager.py:283-577 | The object's whole new state and result are those of the value-level step, cascade included. |
| `TwinManager.DigitalTwinStateManager.RegisterRoad` | digital_twin/state/state_manager.py:152-156 | Stores the road and mirrors it; an empty id is refused by the overlay after being stored. |
| `TwinManager.DigitalTwinStateManager.RegisterBridge` | digital_twin/state/state_manager.py:158-162 | Stores the bridge and mirrors it onto the road it resolves to. |
| `TwinManager.DigitalTwinStateManager.SyncAllRoadsToOverlay` | digital_twin/state/state_manager.py:701-707 | Succeeds exactly when no road and no resolved bridge target has the empty id; then every road has an override, at its own status or that of a bridge resolving to it. |
| `TwinManager.DigitalTwinStateManager.RestoreFromSnapshot` | digital_twin/state/state_manager.py:610-625 | Replaces entities, version and time; log and seen ids stay; succeeds exactly when the snapshot can be mirrored. |
| `TwinManager.DigitalTwinStateManager.Replay` | digital_twin/state/state_manager.py:627-645 | A fresh manager in the state of the value-level replay, exactly when the snapshot can be mirrored and no event raises. |
| `TwinManager.DigitalTwinStateManager.Fork` | digital_twin/state/state_manager.py:647-662 | Exactly when the twin can be mirrored: fresh objects with the same entities, version, log, seen ids and bridge index; nothing existing is modified. |
| `Simulation.ApplyIgnoresTeams` | digital_twin/state/state_manager.py:283-328 | No event reads or writes rescue teams. |
| `Simulation.EventsMean` | services/simulation/executor.py:126-198 | The events of a bridge failure or a capacity change, value by value. |
| `Simulation.FloodEventsMean` | services/simulation/executor.py:253-310 | A flood becomes one zone event and a closure of each road it recommends to close. |
| `Simulation.AllEventsMean` | services/simulation/executor.py:122-322 | Modification by modification, in order. |
| `Simulation.FailureBlocks` | services/simulation/executor.py:126-156 | A previewed bridge failure blocks its bridge and, when it propagates, the road it carries. |
| `Simulation.ValidMeans` | services/simulation/validator.py:28-99 | Bridges and facilities must exist, and no facility may offer more than it has. |
| `Simulation.DisableTeams` | services/simulation/executor.py:227-236 | Stands down min(shortage, available) available teams of the fork and touches no others. |
| `Simulation.FirstShortage` | services/simulation/executor.py:224-236 | The first shortage stands down exactly the teams available beyond the quantity it leaves. |
| `Simulation.RunScenario` | services/simulation/executor.py:122-322 | Succeeds exactly when none of the scenario's events would raise on the live twin, and then leaves the fork where the live twin would be, teams aside; shortage by shortage it stands down what is asked for or all that is left, no team twice. |
| `Simulation.ExecutePreview` | services/simulation/executor.py:82-338 | Modifies nothing that existed; succeeds exactly on a matching version, valid modifications, a twin that can be forked and events that do not raise, each failure having its cause; reports the version the same events would give the live twin, exactly the roads they would leave BLOCKED or RESTRICTED that were not, and for each shortage the right number of formerly available teams. |
| `Sync.StoredIdsAreInert` | services/sync/queue/processor.py:139-175 | A delivery of a stored id changes nothing; it gets the cached result as DUPLICATE, a key-reuse conflict, or a rejection, depending on payload and checks alone. |
| `Sync.StoredIffAccepted` | services/sync/queue/processor.py:216-255 | An id enters the store exactly by being accepted, never leaves or changes, and nothing but acceptance has any effect. |
| `Sync.DeliveryMeans` | services/sync/queue/processor.py:90-274 | Every way a delivery can end, when, with what status and reason, and what it leaves of domain, store and ledger. |
| `Sync.AcceptedIff` | services/sync/queue/processor.py:105-255 | Accepted exactly with the current schema, a submitting role, a fresh id, no conflict and a mutation that succeeds; then the domain is the mutation's result and the outcome is on record. |
| `Sync.DomainIsFoldOfAccepted` | services/sync/queue/processor.py:53-88 | In any stream every accepted operation takes effect once: the final domain is their mutations applied in order. |
| `Sync.RedeliveriesCanBeDeleted` | services/sync/queue/processor.py:53-88 | Deleting a redelivery of an accepted operation from any stream changes neither final state nor any other result. |
| `Sync.AllRedeliveriesCanBeDeleted` | services/sync/queue/processor.py:53-88 | Dropping all redeliveries of accepted operations from a stream leaves the final state and every remaining result as they were. |
| `Sync.AcceptedAtMostOnce` | services/sync/queue/processor.py:90-274 | In any stream an operation id is accepted at most once. |
| `Sync.AcceptedUpdateWasCurrent` | services/sync/queue/processor.py:177-219 | An accepted non-CREATE is on an existing incident from a base absent or not behind the twin; other entity types only ever get CREATE accepted. |
| `Sync.NoLostUpdates` | services/sync/conflict_resolution/engine.py:32-47 | Of the updates sharing base b, at most b - v + 1 that advance the version are accepted from version v on, and none once the twin is past b. |
| `Sync.OneWinnerPerVersion` | services/sync/conflict_resolution/engine.py:32-47 | Of the updates based on the present version at most one that advances it is accepted. |
| `Sync.IdempotencyStore.CheckAndRegister` | services/sync/idempotency/store.py:59-83 | Unseen, seen with this payload, or an error for another payload. |
| `Sync.IdempotencyStore.SaveRecord` | services/sync/idempotency/store.py:85-110 | Stores the record under its id and touches no other. |
| `Sync.SyncQueueProcessor.ProcessSingleOperation` | services/sync/queue/processor.py:90-274 | The object's new state and result are those of the value-level step that `Sync.DeliveryMeans` describes. |
| `Sync.SyncQueueProcessor.ProcessBatch` | services/sync/queue/processor.py:53-88 | Processes the batch in order; the four counters count the results by status and add up to its size. |
| `Sync.CountsTheStatus` | services/sync/queue/processor.py:62-78 | A counter is the number of results with its status. |
| `Incidents.IncidentsNeverDropTheVersion` | services/api/app/repositories/incident_service.py:184-244 | The incident service never lowers the twin's version, so the no-lost-update theorems apply to it. |
| `Incidents.MutationSucceedsIff` | services/sync/queue/processor.py:276-318 | A creation goes through exactly for a new incident on the map, an update exactly when record and base match, its values are members, and record and twin can both take the status; everything else goes through without effect. |
| `Incidents.AcceptedCreateMeans` | services/api/app/repositories/incident_service.py:73-139 | An accepted creation leaves the report on record at version 1, and, its event being new, in the twin. |
| `Incidents.AcceptedStatusUpdateMeans` | services/api/app/repositories/incident_service.py:184-244 | An accepted status update moves the record along the lifecycle or keeps it, raises its version, and takes the twin along. |
| `Incidents.AcceptedDetailUpdateMeans` | services/api/app/repositories/incident_service.py:246-294 | An accepted detail update sets what it names, raises the version only on a change, and leaves the twin alone. |
| `Incidents.OneChangePerBase` | services/api/app/repositories/incident_service.py:184-294 | Of the accepted updates of one incident naming one base version at most one changes its record, detail updates included, and none once the record is past it. |
| `Incidents.BasedUpdateNeedsBothCounters` | services/sync/queue/processor.py:286-303 | An accepted update with a base version names the incident's own version, and the twin is not past it. |
| `Incidents.BasedUpdatesStarve` | services/sync/queue/processor.py:286-303 | Once the twin is past an incident's own counter, no based update of it is accepted. |
| `Incidents.PlainTextUpdatesFail` | services/api/app/repositories/incident_service.py:209-213 | A status or severity given as plain text is never accepted. |
| `Governance.EveryInterleavingIsGoverned` | services/recommendations/service.py:205-379 | In every interleaving each recommendation has since its last save at most one decision and one verdict event, present exactly when it was saved pending and is approved or rejected, agreeing on actor, verdict and versions; the actor is an approver, commander or admin, and approvals are fresh, not of simulations or demos, and of recommendations that need a human. |
| `Governance.FromEmpty` | services/recommendations/service.py:52-65 | The same for everything reachable from an empty service. |
| `Governance.SettledStays` | services/recommendations/governance/state_machine.py:48-57 | No step but a save of the same id moves a recommendation that is not pending. |
| `Governance.LeavesPendingOnce` | services/recommendations/governance/state_machine.py:48-91 | In every interleaving a recommendation leaves PENDING at most once until its id is saved again. |
| `Governance.ApprovalSucceedsIff` | services/recommendations/service.py:213-309 | An approval succeeds exactly for an approver, commander or admin, on a known pending recommendation that needs a human, made from the current state, not simulated, with no facility or incident in the way; only then a decision is added. |
| `Governance.ApproveMeans` | services/recommendations/service.py:213-309 | Every way an approval can end, when, and the exact statuses, events and decisions it leaves; any other role ends unauthorised with one blocked event. |
| `Governance.RejectMeans` | services/recommendations/service.py:329-379 | The same for a rejection. |
| `Governance.ExpireMeans` | services/recommendations/service.py:381-408 | Only commanders and admins expire by hand, only what is pending, with its event. |
| `Governance.GetMeans` | services/recommendations/service.py:113-150 | A look expires what is stale and logs it, and logs a named viewer. |
| `Governance.ListMeans` | services/recommendations/service.py:152-162 | A listing looks at every recommendation. |
| `Governance.SaveMeans` | services/recommendations/service.py:67-111 | The recommendation is stored as it is, under its mode, and its creation logged. |
| `Governance.DecidedKeyStaysHit` | services/recommendations/service.py:205-211 | A retry under the key of a recorded decision is answered without reaching the lock, in every later interleaving in which no call uses the key for another recommendation. |
| `Governance.LateRetryIsRefused` | services/recommendations/service.py:205-230 | A retry that passed the check before the decision is refused with an invalid transition and changes nothing, until the id is saved again. |
| `Governance.ResavedKeyAnswersPending` | services/recommendations/service.py:206-211 | After the id is saved again, the old key answers with the pending recommendation. |
| `Governance.SavedStatusIsMisreported` | services/recommendations/service.py:77-97 | A recommendation saved with another status keeps it while its creation is logged as PENDING. |
| `Governance.MatchingFinds` | services/recommendations/service.py:163-183 | A listing holds exactly the stored recommendations of the requested status. |
| `Governance.RecommendationService.SaveRecommendation` | services/recommendations/service.py:67-111 | Stores the recommendation with its mode and logs its creation, and changes nothing else. |
| `Governance.RecommendationService.GetRecommendation` | services/recommendations/service.py:113-150 | Expires a stale pending recommendation, logs the view, returns it. |
| `Governance.RecommendationService.ListRecommendations` | services/recommendations/service.py:152-183 | Expires every stale pending recommendation and returns all those with the status, in order. |
| `Governance.RecommendationService.ApproveLocked` | services/recommendations/service.py:213-309 | The locked part: new state and outcome of the value-level step. |
| `Governance.RecommendationService.ApproveRecommendation` | services/recommendations/service.py:187-309 | A key hit changes nothing and answers from the store; otherwise the locked part. |
| `Governance.RecommendationService.RejectLocked` | services/recommendations/service.py:329-379 | The locked part of a rejection. |
| `Governance.RecommendationService.RejectRecommendation` | services/recommendations/service.py:322-379 | A key hit changes nothing and answers from the store; otherwise the locked part. |
| `Governance.RecommendationService.ExpireRecommendation` | services/recommendations/service.py:381-408 | Expires a pending recommendation for an authorised actor, with an audit event. |
| `Governance.RecommendationService.SaveDecisionRecord` | services/recommendations/governance/audit_ledger.py:35-45 | Appends the decision and files it under its key. |
| `Allocation.SortedByRisk` | services/recommendations/resource_allocation/optimizer.py:51 | Sectors are served by descending risk. |
| `Allocation.SortKeepsAll` | services/recommendations/resource_allocation/optimizer.py:51 | No sector is lost or repeated. |
| `Allocation.SortIsStable` | services/recommendations/resource_allocation/optimizer.py:51 | Sectors of equal risk keep their order. |
| `Allocation.AllocationIsGreedy` | services/recommendations/resource_allocation/optimizer.py:57-75 | Each kind's grants are the greedy vector over the needs. |
| `Allocation.AllocationIsBest` | services/recommendations/resource_allocation/optimizer.py:57-75 | No feasible allocation is lexicographically greater in risk order; sector i gets min(need, what riskier sectors leave); the total is min(demand, supply). |
| `Allocation.GrantsAreReported` | services/recommendations/resource_allocation/optimizer.py:57-86 | Proposal i names sector i and lists the ids of exactly that many boats and then teams of the pool. |
| `Allocation.PoolIsConserved` | services/recommendations/resource_allocation/optimizer.py:52-75 | Granted plus left over is exactly the available pool. |
| `Allocation.AvailableAreConserved` | services/recommendations/resource_allocation/optimizer.py:52-75 | Of the resources given, granted plus left over holds each available one as often as given, and no other. |
| `Allocation.ReportedAreAvailable` | services/recommendations/resource_allocation/optimizer.py:52-75 | Every reported id is that of an available boat or team. |
| `Allocation.TakenAreFirst` | services/recommendations/resource_allocation/optimizer.py:60-75 | What is taken of a kind are the first of the kind, and the others keep their order. |
| `Allocation.NoResourceIsReportedTwice` | services/recommendations/resource_allocation/optimizer.py:60-75 | With different ids in the pool no id is reported twice, and every reported id is of the pool. |
| `Allocation.NeedsAreAccountedFor` | services/recommendations/resource_allocation/optimizer.py:60-75 | Over the whole allocation, each sector's grants and reported shortfalls of a kind add up to its need. |
| `Allocation.ReportIsExact` | services/recommendations/resource_allocation/optimizer.py:45-92 | Both hold of what is reported for any sectors and resources with different ids. |
| `Allocation.CoverageReadsFullIff` | services/recommendations/resource_allocation/optimizer.py:77-84 | Coverage reads 1.0 exactly when at least 99.5% of the need was granted. |
| `Allocation.CoverageMeans` | services/recommendations/resource_allocation/optimizer.py:77-84 | The reported coverage is the granted share of the need to the nearest hundredth, or 1 without a need. |
| `Allocation.Fulfil` | services/recommendations/resource_allocation/optimizer.py:60-66 | One inner loop takes the first resources of the kind, reports each missing one, and leaves the rest. |
| `Allocation.Optimize` | services/recommendations/resource_allocation/optimizer.py:45-92 | Proposals and shortfalls are those of the value-level allocation over the sorted sectors and available pool; every reported id is that of an available boat or team. |

## Left out

- Floating point and trigonometry: arithmetic is on exact reals, and great-circle distance is any function, with triangle inequality, symmetry or sign as hypotheses where needed.
- Clock readings, generated ids, message strings and warnings; the reason texts of cascades and scenarios are fixed markers.
- The heap's array layout: it is a multiset popped at its minimum. Dijkstra's pair entries are triples with equal priority and score.
- `Search.PopMin`: finds the minimum by a scan where the library sifts a heap array; only the result is the same.
- Normalisation of tag strings (case, blanks) and of units: tags are already classified values.
- Source and target node fields of segments, snap distances, override reasons and metadata, and the edge and node sets of a route comparison.
- Node coordinates outside the valid ranges, which make the distance function raise.
- The adapter built with a serialised definition: only the graph path is a constructor; `GraphBuilder.DefinitionAgreesWithGraph` covers the definition's index.
- `Solvers.SolveAstar`: its bound is for heuristics consistent up to eps; how far others can be off is not characterised.
- `TwinManager.DigitalTwinStateManager.SyncAllRoadsToOverlay`: dictionary order is arbitrary, so which of several bridges on one road wins is not stated.
- `TwinManager.DigitalTwinStateManager.RestoreFromSnapshot`: on a used manager it keeps log and seen ids; the run theorems start from fresh or forked managers.
- `Simulation.DisableTeams`: which available teams are chosen follows dictionary order and is not stated.
- `Simulation.ExecutePreview`: flood simulation and the closures it recommends are inputs, and a test route is not evaluated. Each shortage counts from the live baseline, as in the code, so several do not compose.
- `Overlay.StateOverlay.Clone`: registries are immutable values, so isolation is proved for manager and overlay objects only; shared dictionaries or entities inside them cannot arise in the model.
- `TwinManager.DigitalTwinStateManager.Fork`: likewise, aliasing of dictionaries and entities is not modelled.
- `Rerouting.RefusalPossibleIff`: about cheapest paths, so for A\* requests only the conditions on all edges apply; which of several cheapest paths is chosen is not stated.
- Entity fields that no event changes (names, capacities by type, evidence) and the queries over entities, events and overrides.
- Concurrent batches: the processor holds no lock across check and save, so exactly-once is proved for sequential processing only.
- Payload hashing is taken to be injective; records keep the payload.
- `Incidents.IncidentsNeverDropTheVersion`: event sources and times of the service's events are fixed, and its audit history is not modelled.
- Recommendation filters by action and mode, sorting by creation time, the reason check on rejection, superseding links and metadata that overrides the mode.
- User interface, HTTP routes, persistence, map fetching, machine learning, hazard scoring, SMS parsing and health checks: outside the modelled core or only easy members.
