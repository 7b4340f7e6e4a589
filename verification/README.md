# A verified model of a room-acoustics simulator

This project models the discrete, stateful and algebraic machinery of a Go room-acoustics toolkit and proves what
that machinery promises, over every input and every run. `dafny verify dfyconfig.toml` checks the whole project.

What is modelled, by component:

- **Rooms, portals and propagation paths** (`Portals`, `SceneGraph`, `PathSearch`, `SceneSearch`,
  `PropagationGraph`, `BuildPPG`, `GroupSignature`, `DynamicPlan`). Rooms joined by open portals form groups. A
  depth-first search with an explicit stack enumerates the propagation paths between groups and prunes them by
  band. The search tree is folded into a directed graph and ordered. A plan is renewed when a portal is toggled.
- **Immersed-boundary FDTD** (`IBMGrid`, `GridClassifier`, `IBMStencil`, `StencilLaws`, `FDTDStep`). Grid nodes are
  classified against a convex room, and a full and a compressed stencil step the same sound field, with auxiliary state
  at the walls. Where the field is quadratic the steps obey the wave equation.
- **Composition along a path and its caches** (`ImpulseTrains`, `EventComposition`, `PathChain`, `Histograms`,
  `LateField`, `RayBooks`, `RayWalk`, `RayRecord`, `RayTrace`, `ResponseCache`, `RenderHistory`, `FactorRendering`). The
  early field is composed sparsely, as events, and densely, as complex responses; the late field is composed from energy
  histograms split by direction, which the ray tracer fills. A per-plan memo and a byte-budgeted cache stand before the
  simulation.
- **Meshes** (`Vectors`, `Intersections`, `TriangleHits`, `BVH`, `MeshVolume`, `Solids`, `FaceCut`). A bounding-volume
  hierarchy, the volume of a closed mesh, and the cutting of rectangular holes out of a wall.
- **Image sources** (`ImageAxis`, `ImageLattice`, `CachedSolver`). The lattice of image sources of a box room, the
  folding of a straight line into a reflection path, and a solver that regenerates only what changed.
- **Binaural rendering of one band** (`BinauralBands`). The impulse response of an ear is applied before the band
  filter and the window's edges are corrected afterwards.

`Finite`, `Sorting`, `WorkList` and `Wrappers` hold shared facts about finite sets, stable sorting, a termination
measure for stack-driven loops, and optional values and results.

Code that updates fields, arrays or lists step by step is modelled by classes and by methods with loops, each proved
against a specification; code that only computes is modelled by functions. Floating-point numbers are reals. A hash
is modelled by the content it is computed from, which makes it injective. A level in decibels is modelled by the
linear value it stands for.

Where code and comments differ, the code is followed:

- hybrid/network.go:38-40 says that bands cleared by `ActiveBands` are left at zero. A chain of one factor is passed
  on as it is, with those bands (`PathChain.Resolve`).
- crossroom/paths.go:53-54 says that a stored factor must never be written through. A cached factor is written
  through if and only if it is the memoised factor of the hop being rendered, something is missing, and it can be
  simulated (`FactorRendering.RenderKnownGroup`); `FactorRendering.CachedFactorIsWritten` is such a session. What holds
  throughout is that a half, once present, is correct and never changes (`FactorRendering.Run`).

The renderers of this repository always ask a hop for at least one half (crossroom/network.go:490,
crossroom/paths.go:146, 192 and 381). For such wants no half that is present is ever simulated again, also when renders
fail (`FactorRendering.Run`, `RenderHistory.NothingTwice`). A want that names no half is accepted by the code and
modelled too: the memo stays exact if and only if some half is wanted or known (`FactorRendering.RenderHop`), and
`FactorRendering.StrandedHalfIsSimulatedAgain` shows what can follow where none is.

One more promise has an exact condition:

- geometry/bvh.go:34 promises the closest hit. It is found on every mesh exactly for rays whose direction components
  are zero or at least 1e-12 (`BVH.Intersect`, `BVH.OnlyResolvableRaysAgree`).

## Model

| member | source | states |
|---|---|---|
| `Portals.ClosedSetHoldsJoined` | scene/graph.go:197-246 | a set of rooms that no open portal leaves holds every room joined to one of its rooms |
| `SceneGraph.GroupingIsUnique` | scene/graph.go:189-196 | for a portal configuration there is only one grouping into components numbered by lowest room, so group identifiers are stable |
| `SceneGraph.LowestRoom` | scene/graph.go:197-246 | the first room of a group is the lowest room outside the earlier groups |
| `SceneGraph.BuildIncident` | scene/graph.go:123-131 | every portal is filed once forward and once reversed, under the room each view looks out of |
| `SceneGraph.SortRooms` | scene/graph.go:373-379 | the result is ascending and a permutation of the rooms |
| `SceneGraph.VisitRoom` | scene/graph.go:227-236 | after the visit every open neighbour of the room is labelled, all labelled rooms are joined to the start, and either nothing changed or fewer rooms are unlabelled |
| `SceneGraph.CollectGroup` | scene/graph.go:213-240 | a room gets the new label if and only if a chain of open portals joins it to the start |
| `SceneGraph.CollectedAll` | scene/graph.go:223-237 | once the queue is empty the labelled rooms are the whole component |
| `SceneGraph.FinishedGrouping` | scene/graph.go:197-246 | when all rooms are visited the labels and room lists are the grouping |
| `SceneGraph.StateIsNotWiring` | scene/graph.go:166-187 | changing a portal's state leaves the incidence lists right |
| `SceneGraph.AcousticSceneGraph.constructor` | scene/graph.go:116-133 | the graph of valid portals is wired and grouped |
| `SceneGraph.NewAcousticSceneGraph` | scene/graph.go:101-136 | a scene has a graph, wired and grouped, if and only if it has rooms and every portal joins two of them |
| `SceneGraph.AcousticSceneGraph.UpdateRoomGroups` | scene/graph.go:197-246 | groups are exactly the connected components of open portals, numbered by lowest room, each listed in ascending order |
| `SceneGraph.AcousticSceneGraph.SetPortalState` | scene/graph.go:166-187 | succeeds exactly for a known portal and a supported state, changes only that portal, and leaves the groups right; a failure changes nothing |
| `SceneGraph.RoomEdges` | scene/graph.go:326-339 | the closed portals of one room that lead to another group, each once |
| `SceneGraph.AcousticSceneGraph.GroupPortalViews` | scene/graph.go:318-342 | the result lists exactly the closed portals that lead out of the group, each once |
| `SceneGraph.AcousticSceneGraph.SortedGroupEdges` | scene/path_search.go:265-276 | the same edges, by ascending portal index, forward before reverse |
| `PathSearch.PathSearchTree.PathTo` | scene/path_search.go:78-92 | the chain of parents from the root to the node, and nothing for an unknown node |
| `PathSearch.ParentsPrecede` | scene/path_search.go:243-254 | every node of a search tree comes after its parent, and only the root has none |
| `PathSearch.ChainSpellsPath` | scene/path_search.go:78-107 | the nodes from the root to a node stand for the prefixes of that node's path |
| `PathSearch.AdmissiblePrefix` | scene/path_search.go:200-261 | prefixes of simple, surviving paths are simple and survive |
| `PathSearch.GainBounds` | scene/path_search.go:220-227 | with coefficients in [0, 1] a path's transmission is in [0, 1] and never rises along the path |
| `PathSearch.PruningIsLossless` | scene/path_search.go:220-234 | pruning hop by hop keeps exactly the paths whose own transmission is above the floor in some band |
| `PathSearch.AccumulateBands` | scene/path_search.go:221-230 | per-band products, the bands above the floor, and whether any is |
| `PathSearch.GrowPath` | scene/path_search.go:200-261 | a child is added if and only if the longer path is simple, within the maximal depth, audible and within the node cap; the truncation flag is set exactly for a rejection other than a revisit |
| `PathSearch.ConsiderEdge` | scene/path_search.go:174-194 | one turn keeps the search invariant and lowers a measure that does not mention the node cap |
| `PathSearch.ExpandPaths` | scene/path_search.go:168-195 | the stack loop ends without help from the node cap, with a tree that is exhaustive below the cap and an exact truncation flag |
| `PathSearch.SearchPaths` | scene/path_search.go:117-158 | the tree holds distinct admissible paths, all of them unless the cap was reached; not truncated means every simple path is in it |
| `PathSearch.LeavesAreTheAudiblePaths` | scene/path_search.go:117-261 | below the node cap the leaves correspond one to one to the simple closed-portal paths of at most the maximal depth that end at a receiver's group and are audible in some band |
| `SceneSearch.SearchScene` | scene/path_search.go:117-158 | the search on a scene walks exactly the scene's closed portals with their material transmissions towards the given receivers, after defaults; it fails exactly for an unknown group or no bands |
| `SceneSearch.WithDefaults` | scene/path_search.go:16-40 | unset limits become 6 hops, 100000 nodes and -60 dB, and unset bands the scene's; no bands at all is an error |
| `SceneSearch.MaterialPasses` | scene/material.go:111-141 | explicit coefficients come before sound reduction indices, a single value stands for every band, and nothing passes where neither covers the band |
| `SceneSearch.PortalPasses` | scene/portal.go:99-112 | an open portal passes everything, a closed one what its material passes, an unknown material nothing |
| `SceneSearch.ScenePathsAreSimple` | scene/path_search.go:168-212 | the simple paths of the group graph are the paths through the scene's closed portals that re-enter no group |
| `SceneSearch.SceneGainIsGain` | scene/path_search.go:220-227 | a path's accumulated coefficient is the product of the transmissions of its portals |
| `SceneSearch.LeavesAreTheHeardPaths` | scene/path_search.go:117-261 | below the node cap the leaves are, one to one, the paths of the scene that end in a receiver's group and are heard there in some band |
| `PropagationGraph.OrderExcludesCycles` | hybrid/ppg.go:191-231 | a graph with a topological order has no cycle |
| `PropagationGraph.StuckHoldsCycle` | hybrid/ppg.go:226-228 | a set of nodes each entered from within the set holds a cycle |
| `PropagationGraph.CountEdges` | hybrid/ppg.go:195-206 | in-degrees are the numbers of entering edges, and the queue holds exactly the nodes without any |
| `PropagationGraph.Release` | hybrid/ppg.go:216-223 | removing a node's edges keeps the counts and queues exactly the nodes that lose their last entering edge |
| `PropagationGraph.LeftoverIsStuck` | hybrid/ppg.go:226-228 | if nodes are left over there is a cycle |
| `PropagationGraph.Finished` | hybrid/ppg.go:208-231 | all nodes are ordered if and only if there is no cycle, and then every edge leads forward |
| `PropagationGraph.TopologicalOrder` | hybrid/ppg.go:194-231 | on every consistent graph: succeeds if and only if there is no cycle, with a permutation of all nodes in which every edge leads forward |
| `BuildPPG.SearchTreesQualify` | scene/path_search.go:117-158 | every tree of the path search is one the construction accepts |
| `BuildPPG.NumberPortals` | hybrid/ppg.go:108-132 | tree nodes share a graph node exactly when they cross the same portal in the same direction at the same depth |
| `BuildPPG.PPG.constructor` | hybrid/ppg.go:101-103 | a new graph has its nodes and no edges |
| `BuildPPG.PPG.MergeEdge` | hybrid/ppg.go:239-270 | the edge of a key has the union of its contributors' bands and the per-band maximum of their transmissions; out-lists and in-lists file every edge once, under the node it leaves and the node it enters |
| `BuildPPG.MergeNode` | hybrid/ppg.go:134-147 | a tree node contributes once to the edge of each child, and to the receiver's edge at a leaf |
| `BuildPPG.Build` | hybrid/ppg.go:92-150 | every tree node's residency is in the graph, and each edge merges exactly its contributors |
| `BuildPPG.EdgesDescend` | hybrid/ppg.go:63-69 | every edge leads one depth layer further, or to the receiver |
| `BuildPPG.LayersRise` | hybrid/ppg.go:63-69 | along any walk the layer rises |
| `BuildPPG.PPGIsAcyclic` | hybrid/ppg.go:63-69 | the graph of every search tree is acyclic by construction |
| `BuildPPG.ShareIsCarried` | hybrid/ppg.go:239-270 | an edge carries every contributor's bands and at least its transmission |
| `BuildPPG.LeafPathIsWalk` | hybrid/ppg.go:92-150 | every path from the root to a leaf is a walk of the graph from source to receiver through the same portals and groups |
| `BuildPPG.NoNeededBandIsSkipped` | hybrid/ppg.go:239-270 | a band alive at a leaf is active on every edge of that leaf's walk |
| `BuildPPG.GainFalls` | scene/path_search.go:220-227 | a path's transmission is at most that of each of its prefixes |
| `BuildPPG.Plan` | hybrid/ppg.go:92-231 | building fails only on a tree without nodes, and ordering never fails on a search tree |
| `GroupSignature.ComputeSignature` | scene/group_signature.go:12-39 | writes the content that `SignatureIsContent` reads back: rooms, touching portals in index order, and the coefficients of all their materials |
| `GroupSignature.SignatureNamesRooms` | scene/group_signature.go:19-22 | equal signatures name the same rooms, whatever the portal states |
| `GroupSignature.EntriesOfPortal` | scene/group_signature.go:29-36 | a portal is written if and only if it touches the group, as it is |
| `GroupSignature.SignatureShowsPortal` | scene/group_signature.go:29-36 | a group that touches a portal shows that portal's state |
| `GroupSignature.UntouchedEntries` | scene/group_signature.go:29-36 | changes of portals that do not touch a group do not show in its signature |
| `GroupSignature.SignatureIsContent` | scene/group_signature.go:12-100 | two groups, of two scenes even, have one signature if and only if their rooms are the same in number and content, the portals leading into them are the same in place and state, and every material these name has the same coefficients |
| `DynamicPlan.ComponentsStay` | scene/graph.go:197-246 | toggling a portal joins nothing new to a room that is joined to neither end |
| `DynamicPlan.UntouchedComponent` | scene/graph.go:197-246 | a component without either end is the same before and after |
| `DynamicPlan.OpenPortalJoinsEnds` | scene/graph.go:227-236 | the ends of an open portal share a group |
| `DynamicPlan.SignaturesDiffer` | scene/group_signature.go:42-53 | different groups of a scene have different signatures |
| `DynamicPlan.UntouchedGroupSurvives` | crossroom/dynamic.go:146-169 | a group holding neither end is found again after a toggle, with the same signature |
| `DynamicPlan.TouchedGroupDissolves` | crossroom/dynamic.go:146-169 | after a real change no group has the signature of a group that held an end |
| `DynamicPlan.ToggleIsLocal` | crossroom/dynamic.go:112-118 | a signature survives a toggle if and only if nothing changed or its group holds neither end |
| `DynamicPlan.HeldSignatures` | crossroom/dynamic.go:77-100 | a plan's signatures are exactly those of its groups, one per group |
| `DynamicPlan.LostSignatures` | crossroom/dynamic.go:165-169 | a real change takes away one signature if the ends shared a group, two otherwise |
| `DynamicPlan.Split` | crossroom/dynamic.go:150-169 | lists each missing signature once and counts the shared ones; together they are all |
| `DynamicPlan.Plan.Prepare` | crossroom/dynamic.go:77-100 | groups and signatures belong to the current portal states |
| `DynamicPlan.Plan.Apply` | crossroom/dynamic.go:36-175 | a failed change restores everything; otherwise the portal is open if and only if opening was asked for at full aperture, a partly open one is closed; added and removed are exact; added plus reused is the group count; opening adds one signature and removes one or two, closing removes one and adds one or two |
| `IBMGrid.SlotsAreDistinct` | pde/ibm_grid.go:103-128 | different slots hold different active nodes |
| `IBMGrid.NodeHasSlot` | pde/ibm_grid.go:103-128 | every active node has a slot |
| `IBMGrid.SlotsAreCounted` | pde/ibm_grid.go:81-88 | there are as many slots as active nodes |
| `IBMGrid.BuildCompactMap` | pde/ibm_grid.go:108-125 | the map sends the active nodes one to one onto the slots and every other node to -1 |
| `IBMGrid.Grid.constructor` | pde/ibm_grid.go:59-79 | a new grid is uncompressed |
| `IBMGrid.Grid.EnableCompression` | pde/ibm_grid.go:103-128 | afterwards the compact map is a bijection of active nodes and slots; a second call changes nothing |
| `IBMGrid.Grid.FieldSize` | pde/ibm_grid.go:130-147 | a pressure field has one value for every active node if compressed, and for every node otherwise |
| `GridClassifier.PointInside` | pde/convex.go:72-80 | inside means strictly on the inner side of every wall |
| `GridClassifier.NearestWall` | pde/convex.go:93-104 | the first wall at the smallest distance, or -1 without walls |
| `GridClassifier.Snap` | pde/ibm_grid.go:407-417 | the pinned fraction is in (0, 1] and differs from the measured one only near the ends |
| `GridClassifier.FracToWall` | pde/ibm_grid.go:383-418 | the fraction is that of the first wall crossed in the direction; the search fails, with fraction 1, if and only if no wall is crossed |
| `GridClassifier.LeavesAtFirstCrossing` | pde/ibm_grid.go:383-403 | a walk from an inside point is inside exactly before the first crossing |
| `GridClassifier.OutsideMeansCrossing` | pde/ibm_grid.go:383-403 | between an inside and an outside point there is a crossing |
| `GridClassifier.MarkInside` | pde/ibm_grid.go:214-229 | every node is marked by the position it has |
| `GridClassifier.HasExterior` | pde/ibm_grid.go:250-265 | true exactly if some neighbour is off the grid or outside |
| `GridClassifier.BoundaryInfoAt` | pde/ibm_grid.go:273-310 | fractions are 0 exactly towards inside neighbours and measured towards all others, and the wall kept is the first of the nearest |
| `GridClassifier.ClassifyNodes` | pde/ibm_grid.go:231-313 | interior nodes have six inside neighbours, boundary nodes have not, and a node has boundary data if and only if it is a boundary node |
| `GridClassifier.BuildActiveNodeLists` | pde/ibm_grid.go:323-346 | each active node is listed once, in its own list, boundary nodes with their coordinates |
| `GridClassifier.LayoutIsValid` | pde/ibm_grid.go:22-47 | in the classified grid all six neighbours of an interior node are active; a boundary fraction is 0 exactly where the neighbour is active, and in (0, 1] elsewhere |
| `GridClassifier.FractionIsExit` | pde/ibm_grid.go:383-418 | towards an exterior neighbour the fraction measures where the walk leaves the room |
| `GridClassifier.InteriorNeighbors` | pde/ibm_grid.go:250-269 | all six neighbours of an interior node are on the grid, by their coordinates, and active |
| `GridClassifier.BoundingBox` | pde/convex.go:108-128 | the smallest box around the vertices, moved out by the padding on every side and proper on every axis |
| `GridClassifier.FrameOver` | pde/ibm_grid.go:181-213 | the grid spans the box, with the spacing asked for |
| `GridClassifier.ClassifyGrid` | pde/ibm_grid.go:181-319 | a node is active if and only if its position is inside the room; interior nodes have six active neighbours on the grid; the layout is valid; every wall fraction measures an exit and every boundary node keeps its nearest wall; the grid spans the padded room |
| `IBMStencil.Sigma` | pde/ibm_stencil.go:554-585 | for R in (-1, 1) the damping of a boundary node is not negative |
| `IBMStencil.InteriorReadsActive` | pde/ibm_stencil.go:112-142 | the Laplacian of an interior node depends on active samples only |
| `IBMStencil.BoundaryReadsActive` | pde/ibm_stencil.go:327-374 | so does that of a boundary node, under every wall condition |
| `IBMStencil.InteriorExpands` | pde/ibm_stencil.go:287-310 | the compact interior stencil computes what the full one does on the expanded field |
| `IBMStencil.BoundaryExpands` | pde/ibm_stencil.go:377-465 | so does the compact boundary stencil, ghost values included |
| `IBMStencil.AuxIsDetermined` | pde/ibm_stencil.go:152-224 | the next auxiliary state depends on active samples and the old auxiliary state only |
| `IBMStencil.StepKeepsCoupling` | pde/ibm_stencil.go:265-283 | a full and a compressed step from coupled fields give coupled fields |
| `IBMStencil.CompressionIsExact` | pde/ibm_stencil.go:112-585 | runs of any length, with any wall condition and any parameters from step to step, keep equal pressures at active nodes and equal auxiliary state |
| `IBMStencil.FlatAxis` | pde/ibm_stencil.go:327-374 | the unequal-arm difference of a constant is zero |
| `IBMStencil.UniformPressureStays` | pde/ibm_stencil.go:265-283 | with rigid walls a uniform pressure is a fixed point of every step |
| `IBMStencil.ExteriorNeverLeaksIn` | pde/ibm_stencil.go:112-142 | whatever exterior samples hold, at the start or after any step, the pressures at active nodes and the auxiliary state of the whole run are the same |
| `FDTDStep.ApplyLaplacian` | pde/ibm_stencil.go:112-142 | in either storage the destination holds the negated Laplacian of every active node |
| `FDTDStep.UpdateInterior` | pde/ibm_stencil.go:510-529 | every interior Laplacian is replaced by the node's next pressure, and nothing else changes |
| `FDTDStep.UpdateBoundary` | pde/ibm_stencil.go:554-585 | every boundary Laplacian is replaced by the damped next pressure, and nothing else changes |
| `FDTDStep.UpdateADE` | pde/ibm_stencil.go:152-224 | the auxiliary variables of every boundary node that has some advance by one step |
| `FDTDStep.Stencil.constructor` | pde/ibm_stencil.go:79-101 | auxiliary variables start at rest at every boundary node |
| `FDTDStep.Stencil.FDTDStep` | pde/ibm_stencil.go:265-283 | the three passes over one buffer make exactly the step relation, full or compressed; what that relation is, the rows of `StencilLaws` say |
| `StencilLaws.ArmsAreExact` | pde/ibm_stencil.go:313-327 | a parabola's unequal-arm second difference is its curvature, for arms of any two lengths |
| `StencilLaws.BoundaryTermIsExact` | pde/ibm_stencil.go:327-374 | the boundary stencil gives the negated Laplacian of every quadratic field, whatever the six arms |
| `StencilLaws.InteriorTermIsExact` | pde/ibm_stencil.go:119-131 | so does the seven-point stencil |
| `StencilLaws.BoundaryLapIsExact` | pde/ibm_stencil.go:327-374 | on the grid: if neighbours and wall values are those of a quadratic field, the node's Laplacian is the field's |
| `StencilLaws.InteriorLapIsExact` | pde/ibm_stencil.go:112-131 | on the grid, for interior nodes |
| `StencilLaws.GhostFalls` | pde/ibm_stencil.go:468-508 | the pressure falls towards a wall by nothing if rigid, by 1 - R of it at an impedance, and by the sum of the auxiliary variables at a filtered wall |
| `StencilLaws.FlatFieldAtWall` | pde/ibm_stencil.go:327-374 | a uniform field is curved at a boundary node only by that fall, side by side, over the product of own arm and both arms |
| `StencilLaws.WallsAreCounted` | pde/ibm_stencil.go:563-577 | the number of walls of a boundary node is that of its positive fractions |
| `StencilLaws.NearestIsClosest` | pde/ibm_stencil.go:563-577 | the damping uses the smallest of them, at most one cell |
| `StencilLaws.DampedWave` | pde/ibm_stencil.go:554-585 | at an absorbing impedance wall the update is the wave equation with a centred velocity term, whose weight times distance, cell size and 1 + R is walls times 1 - R, sound speed and time step |
| `StencilLaws.AuxSeries` | pde/ibm_stencil.go:196-220 | at constant pressure every auxiliary variable follows, over a run of any length, a geometric series driven by the pressure over the distance of the closest wall |
| `StencilLaws.AuxDecays` | pde/ibm_stencil.go:205-220 | away from walls it only decays |
| `StencilLaws.InteriorObeysWaves` | pde/ibm_stencil.go:265-283 | where the field around an interior node is quadratic, a step obeys the wave equation exactly |
| `StencilLaws.BoundaryObeysWaves` | pde/ibm_stencil.go:265-283 | so it does at a boundary node, damped at an absorbing impedance wall and undamped at any other |
| `Intersections.RayBox` | geometry/intersect.go:22-63 | a hit gives exactly the interval of parameters within all slabs; a miss means no positive parameter is |
| `Intersections.SlabsAreTheBox` | geometry/intersect.go:22-63 | for resolvable directions being within the slabs is being in the box |
| `Intersections.Cramer` | geometry/triangle.go:68-101 | the three numerators solve the linear system of ray and triangle |
| `Intersections.HitLiesInTriangle` | geometry/triangle.go:68-101 | a reported hit is a point of the ray with barycentric coordinates in the triangle |
| `TriangleHits.CrossingIsReported` | geometry/triangle.go:68-101 | a ray that faces a triangle and is inside it at a parameter beyond the tolerance is reported at that parameter |
| `TriangleHits.TriangleTestIsExact` | geometry/triangle.go:68-101 | the test reports a parameter if and only if the ray faces the triangle and is there in it, in coordinates |
| `Intersections.HitLiesInBox` | geometry/triangle.go:68-101 | a box around the corners holds every hit point |
| `Intersections.RotationKeepsHits` | geometry/triangle.go:68-101 | renaming the axes in a circle changes no hit |
| `Intersections.UnresolvableRayIsFooled` | geometry/intersect.go:31-38 | for every other direction there is a triangle that is hit and lies beside the ray along an axis the slab test calls parallel |
| `BVH.BoundsFor` | geometry/bvh.go:190-197 | the box bounds every listed triangle |
| `BVH.CentroidBounds` | geometry/bvh.go:199-218 | the box holds every centroid |
| `BVH.Partition` | geometry/bvh.go:62-71 | a split by the pivot that loses and repeats nothing, each side in its old order |
| `BVH.Split` | geometry/bvh.go:58-89 | both parts are non-empty and together are the given triangles |
| `BVH.Build` | geometry/bvh.go:43-102 | every box bounds all triangles below it, and the leaves partition the given triangles |
| `BVH.SearchBoth` | geometry/bvh.go:144-161 | searching a second part with the bound the first left finds the nearest hit of both |
| `BVH.HitInsideNode` | geometry/bvh.go:104-127 | a hit below a node lies within the slabs of its box |
| `BVH.NothingNearer` | geometry/bvh.go:104-127 | a node missed, or entered beyond the bound, holds nothing nearer |
| `BVH.IntersectLeaf` | geometry/bvh.go:129-142 | the nearest hit in a leaf below the bound |
| `BVH.TraversalFor` | geometry/bvh.go:177-188 | the child's entry is that of the slab test |
| `BVH.IntersectNearest` | geometry/bvh.go:104-127 | the nearest hit below a node that is closer than the bound, if and only if there is one |
| `BVH.IntersectChild` | geometry/bvh.go:144-161 | skipping a child loses nothing nearer |
| `BVH.BuildBVH` | geometry/bvh.go:21-32 | a mesh with triangles has one root whose leaves list each triangle once; an empty mesh has none |
| `BVH.Intersect` | geometry/bvh.go:35-41 | for resolvable rays: a hit exactly when the ray is in some triangle it faces, at the smallest such parameter, with a triangle that has it; a ray beside the root's box hits nothing |
| `BVH.HitsAreCrossings` | geometry/bvh.go:129-142 | what the triangle test reports on a mesh are exactly the crossings of its triangles |
| `BVH.OnlyResolvableRaysAgree` | geometry/bvh.go:35-41 | for every other ray there is a mesh it hits and the hierarchy misses |
| `ImpulseTrains.EventsCarryPhase` | ir/banded_response.go:175-185 | true exactly if some event has a quadrature part beyond the tolerance |
| `ImpulseTrains.Accumulate` | ir/banded_response.go:144-164 | adding an event to the bands adds its impulse to the train they hold |
| `ImpulseTrains.ValidateEvents` | ir/render_banded.go:67-80 | accepts exactly the events that are not before time zero and have no or one gain per band |
| `ImpulseTrains.BandedFromEvents` | ir/banded_response.go:122-167 | fails exactly without bands, without a sample rate or on an invalid event; otherwise every sample of every band is the sum of the events at it, with a quadrature part exactly if some event carries phase |
| `ImpulseTrains.TrainOfConcat` | ir/banded_response.go:122-167 | the train of two lists together is the sum of their trains |
| `ImpulseTrains.ResponseIsTrain` | ir/banded_response.go:122-167 | the built response is the complex impulse train of its events when no phase is below the tolerance |
| `ImpulseTrains.LostPhaseIsSmall` | ir/banded_response.go:169-185 | whatever the phases, the in-phase part is exact; without a quadrature band the error is within the tolerance times the weights of the events at the sample; the response is the train if and only if some event carries phase or nothing was to be lost |
| `EventComposition.CombinedContribution` | crossroom/events.go:86-120 | combining two events multiplies their complex contributions and the portal's gain, so phases add |
| `EventComposition.RowTrain` | crossroom/events.go:86-120 | one event combined with a hop is that hop's train, delayed and scaled |
| `EventComposition.ProductIsConvolution` | crossroom/events.go:86-120 | the train of the cartesian product is the convolution of the trains, scaled by the portal |
| `EventComposition.FindPeak` | crossroom/events.go:130-133 | the largest magnitude of any event |
| `EventComposition.KeepLouder` | crossroom/events.go:141-147 | the events above the threshold, in their order |
| `EventComposition.Prune` | crossroom/events.go:125-159 | what is below the floor relative to the peak goes, then what is beyond the cap, and what went is counted |
| `EventComposition.LoudnessIs` | crossroom/events.go:161-172 | an event's magnitude is its amplitude, or the largest of its amplitudes in the bands |
| `EventComposition.FloorKeeps` | crossroom/events.go:125-147 | without a cap exactly the events within 80 dB of the loudest are kept, and none is counted as dropped |
| `EventComposition.PrunedMembers` | crossroom/events.go:125-159 | pruning makes no event up |
| `EventComposition.CapKeepsTheLoudest` | crossroom/events.go:149-156 | no event the cap removes is louder than one it keeps |
| `EventComposition.PrunedTrain` | crossroom/events.go:125-159 | a prune that removes only silence leaves the train as it was |
| `EventComposition.CombineEvents` | crossroom/events.go:86-120 | the nested loops give the pruned cartesian product |
| `EventComposition.ComposedInTime` | crossroom/events.go:41-68 | composed events never arrive before time zero |
| `EventComposition.ComposePathEvents` | crossroom/events.go:41-68 | the pruned products of all hops in turn, with the number of dropped events; nothing for no hops |
| `PathChain.FourConvolutions` | hybrid/network.go:108-153 | the complex convolution is made of the four real ones |
| `PathChain.ConvolveBand` | hybrid/network.go:111-153 | a band becomes the complex convolution times the gain, cut to the length, with or without quadrature |
| `PathChain.ConvolveActive` | hybrid/network.go:73-106 | fails exactly on different band counts; active bands are convolved, the others silent |
| `PathChain.BeyondTheEnd` | hybrid/network.go:82-85 | a convolution is silent beyond the sum of the lengths |
| `PathChain.StepFollows` | hybrid/network.go:57-68 | a truncated handoff keeps every sample below the limit equal to the untruncated path |
| `PathChain.Resolve` | hybrid/network.go:45-71 | succeeds exactly on compatible chains; for factors of any lengths and any limit, the result up to the limit is the untruncated composed path on every active band, with exact length; in chains of more than one factor the bands switched off are silent |
| `PathChain.SparseIsDense` | crossroom/events.go:41-120 | on the sample grid, with prunes that lose nothing, the impulse train of the composed events is the dense chain, for any number of hops |
| `PathChain.BuildFactors` | ir/banded_response.go:122-167 | each hop's response stands for its events |
| `PathChain.ResolvePathEarly` | crossroom/paths.go:217-239 | rendering a path densely gives, on every active band and sample, the impulse train of the path's sparse events |
| `Histograms.NewHistogram` | raytrace/accumulate.go:27-43 | the bins fit duration, bin duration and bands |
| `Histograms.ScaleHistogram` | hybrid/network.go:252-277 | fails exactly on another gain count; each band is multiplied by its gain |
| `Histograms.ConvolveRow` | hybrid/network.go:301-312 | one row of the loops adds one term to every bin |
| `Histograms.ConvolveHistograms` | hybrid/network.go:286-315 | fails exactly on different bands or bin durations; the result is the convolution within the first histogram's duration |
| `Histograms.ConvolutionAddsUp` | hybrid/network.go:286-315 | convolving the total and every direction with one histogram keeps the directions adding up to the total |
| `Histograms.AddHistogram` | crossroom/paths.go:450-460 | bin by bin and band by band the sum, as far as both histograms reach |
| `Histograms.SumHistograms` | crossroom/paths.go:438-464 | the sum of all histograms on the first one's grid, or nothing if there is none |
| `Histograms.AccumulateDirectional` | crossroom/paths.go:417-435 | direction by direction the sum on the running grid; fails exactly on two different direction counts |
| `Histograms.SumsAddUp` | crossroom/paths.go:417-464 | summing totals and, direction by direction, their splits keeps them adding up |
| `LateField.ComposeDirectional` | crossroom/paths.go:308-338 | every direction convolved with what comes before it, or unchanged for a single hop |
| `LateField.HopFollows` | crossroom/paths.go:275-295 | scaling and folding one more hop composes one more hop of the path |
| `LateField.DirectionFollows` | crossroom/paths.go:308-338 | a direction of the last hop, folded with what comes before, is the path that ends in that direction alone |
| `LateField.ComposePathLate` | crossroom/paths.go:260-303 | fails exactly if a traced hop or a direction cannot be folded; nothing exactly if a hop was not traced; otherwise the total and every direction are the composed path, and the directions add up to the total |
| `LateField.TotalAddsUp` | crossroom/paths.go:370-412 | totals and directions summed over the same paths add up |
| `LateField.SumLateHistograms` | crossroom/paths.go:370-412 | succeeds exactly if every path composes and one can be heard; total and directions are the sums over the paths, add up bin by bin and band by band, and give probabilities that sum to one |
| `LateField.SlotProbabilities` | raytrace/directivity_group.go:143-161 | a slot's probabilities sum to 1: shares of its energy, or equal shares when there is none |
| `LateField.SlotCount` | raytrace/directivity_group.go:120-134 | the number of bins of the longest histogram |
| `LateField.Probabilities` | raytrace/directivity_group.go:115-164 | probabilities exist exactly if some direction has a bin; in every slot they are the shares of the directions and sum to 1 |
| `RayBooks.DepositAddsUp` | raytrace/raytrace.go:148-154 | the same energy added to the total and to one direction keeps them adding up |
| `RayBooks.AddAllOfConcat` | raytrace/accumulate.go:46-70 | adding two lists of deposits in turn is adding them together |
| `RayBooks.DepositsAreConserved` | raytrace/accumulate.go:46-70 | every bin gains exactly the energy of the deposits that fall into it |
| `RayBooks.EnergyHistogram.constructor` | raytrace/accumulate.go:27-43 | a new histogram is empty |
| `RayBooks.EnergyHistogram.Add` | raytrace/accumulate.go:46-70 | only the bin that covers the moment gains, band by band; moments outside are ignored |
| `RayBooks.ClassifyDirection` | raytrace/directivity_group.go:60-93 | the first of the nearest sectors, always a valid index |
| `RayBooks.EntriesBalance` | raytrace/raytrace.go:148-213 | books that balance do so after any list of deposits |
| `RayWalk.ChildrenAreLighter` | raytrace/raytrace.go:109-273 | the branches of a state weigh less than the state |
| `RayWalk.WalkBranches` | raytrace/raytrace.go:121-272 | every branch has more bounces behind it than the state it leaves, and there are boundedly many |
| `RayWalk.WorkShrinks` | raytrace/raytrace.go:109-273 | replacing a state by its branches lowers the work left, whatever the rays meet |
| `RayTrace.RayTracer.constructor` | raytrace/raytrace.go:70-74 | empty histograms balance |
| `RayTrace.RayTracer.Enter` | raytrace/raytrace.go:148-154 | a deposit is entered in the total and in its own sector, and the books balance |
| `RayTrace.RayTracer.EnterInTime` | raytrace/raytrace.go:138-155 | only a deposit that arrives in time is entered |
| `RayTrace.RayTracer.EnterAll` | raytrace/raytrace.go:164-173 | all deposits are entered, in order |
| `RayTrace.RayTracer.Bounce` | raytrace/raytrace.go:121-271 | one bounce enters exactly its direct, edge and rain deposits and starts exactly its branches |
| `RayTrace.RayTracer.Follow` | raytrace/raytrace.go:117-272 | following a state enters the deposits and starts the branches of all its bounces |
| `RayTrace.RayTracer.Exhaust` | raytrace/raytrace.go:109-273 | the work list empties for every environment, and the books then hold exactly the deposits of the run |
| `RayTrace.Trace` | raytrace/raytrace.go:27-276 | runs exactly on a valid setup; afterwards every bin and band of the total is the sum over the directions, and the books hold exactly what the flights of the run owe |
| `RayWalk.MaxEnergy` | raytrace/reflection.go:68-77 | the largest of the energies, or zero |
| `RayRecord.WalkIsLegs` | raytrace/raytrace.go:117-272 | following a state flies exactly the legs of its ray, which owe its deposits and start its branches |
| `RayRecord.HeardIsOwed` | raytrace/raytrace.go:109-273 | what a run hears is what its flights owe, in order: a direct detection by the origin of the flight, edge deposits, and the rain of its wall |
| `RayRecord.FlightsHaveSources` | raytrace/raytrace.go:109-273 | every flight was launched or follows an earlier one, by what that one's segment holds |
| `RayRecord.FlightsAreFollowed` | raytrace/raytrace.go:109-273 | whatever follows a flight flies too, if its energy, bounces and path are within the limits |
| `RayRecord.SourceTells` | raytrace/raytrace.go:219-267 | a flight's origin, energy, path and bounce count are those that the kind of the bounce gives |
| `RayRecord.CountedOnce` | raytrace/raytrace.go:138-267 | for all strategies and whole runs: a ray that met no wall, came off an edge or was mirrored is detected; one that was scattered or blended is detected if and only if its wall did not rain, so its energy is counted once |
| `ResponseCache.LongestFitIsUnique` | crossroom/cache.go:168-178 | only one prefix is the longest that fits the budget |
| `ResponseCache.FitsAlone` | crossroom/cache.go:111-138 | the newest entry survives its own insertion if and only if it fits by itself |
| `ResponseCache.KeptOthers` | crossroom/cache.go:142-166 | what remains after an invalidation is what has another signature |
| `ResponseCache.Cache.constructor` | crossroom/cache.go:59-69 | an empty cache with the given or the default budget and no hits, misses or evictions counted |
| `ResponseCache.Cache.Get` | crossroom/cache.go:87-108 | a hit returns the stored factor and makes it the most recent; entries and bytes stay; hits and misses are counted |
| `ResponseCache.Cache.Put` | crossroom/cache.go:111-138 | leaves the longest prefix of the updated recency order that fits; the key is kept if and only if its entry fits alone; without evictions everything is kept; evictions are counted |
| `ResponseCache.Cache.RemoveLocked` | crossroom/cache.go:180-185 | list, map and byte count lose the same entry |
| `ResponseCache.Cache.Evict` | crossroom/cache.go:168-178 | evicting from the back leaves the longest prefix that fits |
| `ResponseCache.Cache.InvalidateSignature` | crossroom/cache.go:142-166 | removes exactly the entries of the signature, keeps the order of the rest and counts the removed |
| `FactorRendering.GroupFactor.constructor` | crossroom/factors.go:150-153 | a new factor has no half |
| `FactorRendering.GroupFactor.Copy` | crossroom/network.go:249-257 | a copy has the same halves |
| `FactorRendering.PathPlan.constructor` | crossroom/network.go:522-599 | a new plan has an empty memo |
| `RenderHistory.MissingIsExact` | crossroom/network.go:221-232 | what is missing is the least that satisfies the want, and asks for nothing that is there |
| `RenderHistory.HeldIsKnown` | crossroom/paths.go:46-57 | the memo is at least as complete as the cache, so the halves present anywhere are those a render starts from |
| `RenderHistory.StepSettles` | crossroom/paths.go:46-82 | every render, replanning and invalidation keeps the memo at least as complete as the cache |
| `RenderHistory.AlwaysSettled` | crossroom/paths.go:46-50 | it is so at every point of every history |
| `RenderHistory.NothingPresentIsSimulated` | crossroom/paths.go:59-72 | no half present in the memoised or in the cached factor is tried again, whether or not the render succeeds |
| `RenderHistory.HistoriesSimulateNothingAgain` | crossroom/paths.go:59-72 | the same for every turn of every history |
| `RenderHistory.NotedStays` | crossroom/network.go:273-279 | until a new plan is made the memo forgets no half, whatever is evicted or dropped |
| `RenderHistory.EvictionsOnlyRise` | crossroom/cache.go:168-178 | the eviction count never falls |
| `RenderHistory.CachedStays` | crossroom/cache.go:111-138 | until something is evicted or the group is dropped the cache forgets no half, whatever is replanned |
| `RenderHistory.NothingTwice` | crossroom/paths.go:29-84 | in every history a half once simulated with success is simulated again only after a new plan was made and the cache evicted something or dropped the group |
| `FactorRendering.HopDeterminesContent` | crossroom/network.go:191-202 | group, entry and exit portal determine the content of a hop |
| `FactorRendering.ContentIsOwn` | crossroom/network.go:170-202 | where groups differ in their signatures, hops differ in their contents |
| `FactorRendering.SolveFactor` | crossroom/factors.go:137-175 | succeeds exactly if the wanted halves can be simulated; halves present before do not change; a failure leaves at most a correct early half behind |
| `FactorRendering.FactorBytes` | crossroom/cache.go:189-208 | the size counted is that of the samples, bins and events of the halves present |
| `FactorRendering.StartFactor` | crossroom/paths.go:40-57 | the memoised factor itself, a copy of the cached one, or a new one, with the halves known of it |
| `FactorRendering.FillFactor` | crossroom/paths.go:69-72 | filling a shared factor in place leaves memo and cache coherent and shows in the cache under its own key only |
| `FactorRendering.StoreFactor` | crossroom/network.go:273-279 | the hop is noted with factor and halves, and coherence stays |
| `FactorRendering.Publish` | crossroom/paths.go:74-78 | the same factor goes into memo and cache, and both stay coherent; without evictions the cache keeps everything else |
| `FactorRendering.MissingDecides` | crossroom/paths.go:61-72 | whether the missing halves can be simulated is whether the wanted ones can |
| `FactorRendering.KeepHop` | crossroom/paths.go:61-67 | a hop whose wanted halves are all there is noted, and nothing is simulated |
| `FactorRendering.NothingStranded` | crossroom/factors.go:155-174 | where some half is known, a failed simulation leaves nothing behind |
| `FactorRendering.FillHop` | crossroom/paths.go:69-80 | the missing halves are simulated, noted and cached if and only if the want can be simulated; from an exact memo a failure changes nothing |
| `FactorRendering.FinishHop` | crossroom/paths.go:61-80 | the hop is noted with the known and the wanted halves if and only if they can be simulated; from an exact memo this is one step of the history; a cached factor is written if and only if it is the memoised one, something was missing and could be simulated |
| `FactorRendering.RenderHop` | crossroom/paths.go:39-81 | simulates exactly the halves not known; every half present stays as it was; from an exact memo this is one step of the history, and the memo stays exact if and only if some half is wanted or known |
| `FactorRendering.RenderKnownGroup` | crossroom/paths.go:39-81 | the same for a known group; a cached factor is written through if and only if it is the memoised factor of the hop, something is missing, and it can be simulated |
| `FactorRendering.CachedFactorIsWritten` | crossroom/paths.go:59-78 | rendering a hop early and then with both halves writes to the factor the cache holds |
| `FactorRendering.StrandedHalfIsSimulatedAgain` | crossroom/paths.go:59-74 | after a want that names no half, an early half stranded by a failing late one is simulated again |
| `FactorRendering.NextHop` | crossroom/paths.go:39-81 | one more hop is one more turn of the history, unless its group is unknown |
| `FactorRendering.RenderPathFactors` | crossroom/paths.go:29-84 | succeeds exactly if a fresh simulation of every hop would; then there is one factor per hop, holding at least the wanted halves, each equal to the fresh simulation; for wants that name a half the attempts are a history, also when the render fails |
| `FactorRendering.Invalidate` | crossroom/cache.go:142-166 | exactly the entries of the signature go, and the rest is coherent and as it was |
| `FactorRendering.Replan` | crossroom/dynamic.go:119-175 | a new plan on an old cache is coherent |
| `FactorRendering.Act` | crossroom/dynamic.go:119-175 | a render, toggle or invalidation undoes nothing answered before and takes its turns of the history |
| `FactorRendering.Run` | crossroom/paths.go:29-84 | after any sequence of renders, toggles, invalidations and evictions, every factor ever returned still is the fresh simulation of its hop, every render succeeded exactly if a fresh one would, and what was simulated is a history in which no half present in the memoised or the cached factor is simulated again |
| `MeshVolume.SameKey` | geometry/mesh.go:383-419 | two directed edges share a key exactly if they are equal or opposite |
| `MeshVolume.AddMeshEdgeUse` | geometry/mesh.go:336-355 | the map records every directed edge seen so far: count, balance and triangles |
| `MeshVolume.OriginShift` | geometry/mesh.go:305-307 | moving the origin changes a triangle's volume by what its three directed edges contribute |
| `MeshVolume.PartnerIsOpposite` | geometry/mesh.go:315-318 | where edges are used twice and balanced, each directed edge has one partner, running the other way |
| `MeshVolume.VolumeIgnoresOrigin` | geometry/mesh.go:288-334 | a watertight mesh has the same signed volume from every origin |
| `MeshVolume.MeshTrianglesConnected` | geometry/mesh.go:357-381 | true if and only if a chain of shared sides joins any two triangles |
| `MeshVolume.RecordsShowWatertight` | geometry/mesh.go:315-318 | the recorded counts and balances decide whether the mesh is watertight |
| `MeshVolume.BuildAdjacency` | geometry/mesh.go:313-322 | succeeds exactly on watertight meshes, with the triangles that share a side |
| `MeshVolume.EnclosedVolume` | geometry/mesh.go:288-334 | accepts exactly the meshes that enclose a region; the positive volume is the same seen from every origin, and `Solids.BoxVolume` and `Solids.TetrahedronVolume` say what it comes to |
| `Solids.ClosesUp` | geometry/mesh.go:313-322 | a mesh whose faces close up and hang together by corner numbers is watertight and connected wherever its corners are |
| `Solids.BoxHasPattern` | geometry/mesh.go:63-102 | the twelve triangles of a box follow such a pattern |
| `Solids.BoxVolume` | geometry/mesh.go:63-102 | the mesh of every box has a volume if and only if each face exceeds the smallest area, and it is width times depth times height |
| `Solids.TetrahedronVolume` | geometry/mesh.go:288-334 | a tetrahedron without degenerate faces is accepted, with a third of base area times height |
| `FaceCut.ContainsPointIsNearby` | geometry/plane_frame.go:235-238 | a point is taken to be in a rectangle if and only if it is within the tolerance of one of its points |
| `FaceCut.ContainsIsNearby` | geometry/plane_frame.go:221-225 | a rectangle is taken to be in another if and only if all its points are within the tolerance of it |
| `FaceCut.OverlapIsShared` | geometry/plane_frame.go:227-232 | rectangles overlap if and only if both hold a rectangle wider and higher than the tolerance |
| `FaceCut.ValidateHoles` | geometry/face_cut.go:54-72 | accepts exactly valid holes within the face that do not overlap |
| `FaceCut.Deduplicate` | geometry/face_cut.go:87-95 | the kept lines ascend by more than the tolerance; if lines are equal or far apart only repetitions go |
| `FaceCut.CutLines` | geometry/face_cut.go:76-96 | for separated bounds the lines are exactly the bounds of face and holes, in ascending order |
| `FaceCut.CellIsInsideAnyHole` | geometry/face_cut.go:102-111 | true exactly if the cell's centre is in some hole |
| `FaceCut.EmitCells` | geometry/face_cut.go:40-49 | the nested loops emit exactly the grid cells outside the holes |
| `FaceCut.HolesLieWithin` | geometry/face_cut.go:54-72 | separated holes that pass the tolerant check lie exactly within the face |
| `FaceCut.HolesAreDisjoint` | geometry/face_cut.go:54-72 | and their interiors do not meet |
| `FaceCut.CellsTile` | geometry/face_cut.go:25-52 | every point off the grid lines is in exactly one emitted cell if it is in no hole, and in none otherwise |
| `FaceCut.CellsStayInside` | geometry/face_cut.go:25-52 | no cell reaches beyond the face |
| `FaceCut.RectangleIsItsCells` | geometry/face_cut.go:40-49 | the cells of a rectangle on the grid add up to its area |
| `FaceCut.CellAreasAddUp` | geometry/face_cut.go:25-52 | the cells have the area of the face minus the areas of the holes |
| `FaceCut.CutRectangularHoles` | geometry/face_cut.go:25-52 | fails exactly on an invalid face or invalid holes; for separated bounds the cells tile the face minus the holes, lie within the face and add up in area |
| `ImageAxis.ImageIsInItsRoom` | ism/image.go:94-100 | an image sits strictly inside the image room of its order |
| `ImageAxis.FoldRoom` | ism/audibility.go:140-167 | folding an image room mirrors it exactly if its index is odd |
| `ImageAxis.FoldPlane` | ism/audibility.go:140-167 | odd planes fold onto the far wall, even ones onto the near wall |
| `ImageAxis.FoldingReturnsTheSource` | ism/audibility.go:140-167 | folding an image coordinate returns the source coordinate |
| `ImageAxis.CrossingIsBetween` | ism/audibility.go:96-130 | every crossing lies strictly between receiver and image, on its plane |
| `ImageAxis.CrossingsAscend` | ism/audibility.go:96-130 | crossings of an axis come one after the other |
| `ImageAxis.CrossingFoldsOntoItsWall` | ism/audibility.go:96-130 | a crossing folds onto the wall it names |
| `ImageAxis.PlaneMetIsCrossing` | ism/audibility.go:96-130 | every plane met on the way is one of the crossings |
| `ImageAxis.ElsewhereInside` | ism/audibility.go:140-167 | where no plane is met the coordinate folds strictly inside the room |
| `ImageAxis.AccumulateAxisWallHits` | ism/image.go:111-133 | the two counts add up to the order, the wall met first having the odd one |
| `ImageAxis.CrossingsMatchCounts` | ism/image.go:102-133 | the crossings meet each wall as often as the counts say |
| `ImageLattice.MaskShowsHits` | ism/image.go:135-162 | a wall's bit is set exactly if its count is positive |
| `ImageLattice.GenerateImageSources` | ism/image.go:41-92 | one image for every order triple within the total order, each once, nearest orders first; none for a negative order |
| `ImageLattice.AppendAxisCrossings` | ism/audibility.go:96-130 | appends all crossings of an axis, or fails exactly if image and receiver coincide along it |
| `ImageLattice.CrossingEvents` | ism/audibility.go:73-94 | the crossings of all three axes |
| `ImageLattice.CrossingCount` | ism/audibility.go:73-94 | an image of order N has exactly N crossings |
| `ImageLattice.CrossingIsOnItsWall` | ism/audibility.go:169-186 | without ties every crossing is in the open interior of the wall it names |
| `ImageLattice.HasTies` | ism/audibility.go:46-50 | true exactly if two neighbours in time are within the tolerance |
| `ImageLattice.FoldCrossings` | ism/audibility.go:52-70 | the folded points in order, or a crossing that is not on its wall |
| `ImageLattice.ReflectionPath` | ism/audibility.go:28-71 | an accepted path has one point per order, in time order; at zero tolerance, for a source and a receiver strictly inside, it is accepted if and only if image and receiver differ and no two crossings coincide |
| `ImageLattice.PathMeetsCountedWalls` | ism/image.go:102-133 | the path of an image meets every wall as often as its wall count says |
| `ImageLattice.MaskShowsPath` | ism/image.go:135-162 | an image's mask has the bit of a wall exactly when its path meets that wall |
| `ImageLattice.ImagesInOrder` | ism/image.go:72-92 | images come by rising order, those of one order by position |
| `CachedSolver.Fresh` | ism/cached_solver.go:54-100 | a solver without memory refuses exactly the unsupported orders and scenes, and else generates the images of every source anew, at the given speed of sound or else the standard one |
| `CachedSolver.CachedISMSolver.constructor` | ism/cached_solver.go:33-50 | a new solver has nothing cached |
| `CachedSolver.CachedISMSolver.Invalidate` | ism/cached_solver.go:106-118 | everything is forgotten |
| `CachedSolver.CachedISMSolver.SolveShoebox` | ism/cached_solver.go:120-158 | the images are those generated afresh for the current room, order and sources, and are remembered as such; those of a mesh are forgotten |
| `CachedSolver.CachedISMSolver.PlanesFor` | ism/cached_solver.go:169-174 | the plane map is that of the current room |
| `CachedSolver.CachedISMSolver.MeshImagesFor` | ism/cached_solver.go:182-202 | regenerating only what may have changed gives the fresh images of every source |
| `CachedSolver.CachedISMSolver.RememberMesh` | ism/cached_solver.go:204-213 | what is remembered is what was generated; images of a shoebox are forgotten |
| `CachedSolver.CachedISMSolver.SolveMesh` | ism/cached_solver.go:160-216 | images and plane map are those generated afresh |
| `CachedSolver.CachedISMSolver.Solve` | ism/cached_solver.go:54-100 | whatever was solved before, the solution is that of a fresh solver |
| `CachedSolver.Run` | ism/cached_solver.go:54-216 | for every history of solves and invalidations each solution is the fresh one for its own call |
| `BinauralBands.UnboundedDelayIsSilent` | ir/render_binaural.go:323-330 | a delay out of bounds puts every tap outside the window |
| `BinauralBands.LagInRange` | ir/render_binaural.go:247-273 | every lag the correction looks up is within one kernel length |
| `BinauralBands.InputInRange` | ir/render_binaural.go:224-245 | every wrapped input position is inside the buffer |
| `BinauralBands.TapIsExact` | ir/render_binaural.go:247-297 | filtering a tap's input and correcting the edges is the tap applied to the cropped signal, in the direct and in the subtracting branch |
| `BinauralBands.EventIsExact` | ir/render_binaural.go:224-273 | the same for all taps of an event |
| `BinauralBands.SkippedIsSilent` | ir/render_binaural.go:323-330 | leaving out an event with an unbounded delay loses nothing |
| `BinauralBands.BandIsExact` | ir/render_binaural.go:181-222 | the same for all events of a band |
| `BinauralBands.AccumulateInput` | ir/render_binaural.go:224-245 | the buffer gains exactly the event's taps |
| `BinauralBands.GatherInput` | ir/render_binaural.go:182-189 | the filter input of a band is the sum of the taps of all its events |
| `BinauralBands.CorrectTap` | ir/render_binaural.go:247-273 | the output gains exactly a tap's correction |
| `BinauralBands.CorrectEdges` | ir/render_binaural.go:247-273 | the output gains exactly the event's corrections |
| `BinauralBands.RenderBand` | ir/render_binaural.go:181-222 | running output and running correction together gain, for every event, the impulse filtered by the band, cropped to the window and convolved with its response |
| `BinauralBands.RenderEar` | ir/render_binaural.go:135-179 | an ear's samples gain, over all bands and events, the impulses filtered, cropped to the window and then convolved with their responses |
| `BinauralBands.RoundIsNearest` | ir/render_binaural.go:323-330 | a delay is rounded to the nearest sample, halves away from zero |
| `BinauralBands.EventIsConvolution` | ir/render_binaural.go:181-222 | the plain form of an event is the cropped band impulse, with the kernel going round, delayed by the nearest number of samples and convolved with its response, or passed as it is where there is none |

## Left out

- Rounding: numbers are exact reals, so NaN, infinities and rounding errors do not occur.
- Hash collisions and byte encodings: signatures, endpoint hashes and configuration hashes are their contents.
- Decibel conversion: floors and thresholds are given in linear units.
- Physics of the simulators: air absorption, directivity, diffraction formulas, material tables and random draws are
  parameters or abstract functions.
- External libraries: the FFT filter is circular convolution with a given kernel, linear convolution is exact, and
  the Helmholtz solver is not part of the model.
- Geometry heuristics of scene/graph_geometry.go, the caches of group geometry, and the validation of scenes.
- Locks and one-time initialisation: operations are modelled one at a time.
- Reading and writing of files, the command line and the browser demo.
- Nil receivers, nil scenes and nil histograms.
- The one-hop renderer, path ranking, portal crossfades, summation of early responses over paths, and the mono and
  binaural mixes.
- `RenderBinaural` replaces the plan's receiver after its endpoints are hashed (crossroom/network.go:374); the model
  keeps a plan's endpoints fixed, so the given receiver must be the scene's.
- SceneGraph.AcousticSceneGraph.constructor: takes valid portals; `SceneGraph.NewAcousticSceneGraph` refuses others.
- FactorRendering.Run: plans use the cache one after the other, not several at a time; that nothing is simulated again is
  stated for wants that name a half and for plans whose groups differ in their signatures.
- RayBooks.ClassifyDirection: the squared angular distances are inputs; the spherical angles are not computed.
- RayTrace.Trace: what a segment meets, the detections and the energies of branches come from an environment indexed
  by step; lengths of branches follow the code, but no timing property is stated for them.
- PathChain.ConvolveActive: responses are not empty, so the error of the convolution library on empty input does not arise.
- PathChain.Resolve: factors are not empty, so the error of the convolution library on empty input does not arise.
- PathChain.ResolvePathEarly: events have arrival times on the sample grid, phases are held by cosine and sine, hops
  have responses of the rendered length, every quadrature part is zero or above the tolerance, and prunes remove only
  silence.
- ImpulseTrains.BandedFromEvents: events carry no kind or direction, and arrival times are sample indices.
- FaceCut.CutRectangularHoles: works in the plane; cells are not lifted to triangles in space, and tiling is stated
  for bounds that are equal or more than the tolerance apart.
- ImageLattice.ReflectionPath: the exact acceptance condition is stated at zero tolerance.
- BinauralBands.RenderEar: one ear; the transforms of both ears are not modelled as spectra, and the bands' impulse
  responses are given.
- FDTDStep.Stencil.constructor: the error for a different number of poles and residues is not modelled.
- CachedSolver.CachedISMSolver.Solve: returns the image sources and the plane map; the events evaluated from them
  and their sorting are not modelled.
