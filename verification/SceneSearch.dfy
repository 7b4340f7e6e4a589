/** The path search started from a scene graph: configuration defaults, portal coefficients
    and the edges of the group graph (scene/path_search.go, scene/portal.go, scene/material.go). */
module SceneSearch {
  import opened Portals
  import opened SceneGraph
  import opened PathSearch
  import opened Wrappers

  /** Transmission data of a material. `reduction` holds the coefficients its sound
      reduction indices convert to; explicit coefficients take precedence. */
  datatype Material = Material(transmission: seq<real>, reduction: seq<real>)

  /** A single value stands for every band; otherwise a missing band has no value. */
  function CoefficientAt(values: seq<real>, band: nat): Option<real> {
    if values == [] then None
    else if |values| == 1 then Some(values[0])
    else if band < |values| then Some(values[band])
    else None
  }

  function MaterialTransmission(m: Material, band: nat): real {
    match CoefficientAt(m.transmission, band)
    case Some(t) => t
    case None =>
      match CoefficientAt(m.reduction, band)
      case Some(t) => t
      case None => 0.0
  }

  function PortalTransmission(p: Portal, materials: map<string, Material>, band: nat): real {
    if p.state == PORTAL_OPEN then 1.0
    else if p.material in materials then MaterialTransmission(materials[p.material], band)
    else 0.0
  }

  /** A list of band values covers a band with `t`: a single value stands for all bands. */
  ghost predicate Covers(values: seq<real>, band: nat, t: real) {
    (|values| == 1 && t == values[0]) || (|values| > 1 && band < |values| && t == values[band])
  }

  /** Explicit coefficients come first, then those from sound reduction indices; where neither covers the
      band, nothing passes. */
  lemma MaterialPasses(m: Material, band: nat, t: real)
    ensures Covers(m.transmission, band, t) ==> MaterialTransmission(m, band) == t
    ensures (forall s :: !Covers(m.transmission, band, s)) && Covers(m.reduction, band, t) ==> MaterialTransmission(m, band) == t
    ensures (forall s :: !Covers(m.transmission, band, s) && !Covers(m.reduction, band, s)) ==> MaterialTransmission(m, band) == 0.0
  {
    if |m.transmission| > 1 && band < |m.transmission| {
      assert Covers(m.transmission, band, m.transmission[band]);
    } else if |m.transmission| == 1 {
      assert Covers(m.transmission, band, m.transmission[0]);
    }
    if |m.reduction| > 1 && band < |m.reduction| {
      assert Covers(m.reduction, band, m.reduction[band]);
    } else if |m.reduction| == 1 {
      assert Covers(m.reduction, band, m.reduction[0]);
    }
  }

  /** An open portal passes everything, a closed one what its material passes, and an unknown material nothing. */
  lemma PortalPasses(p: Portal, materials: map<string, Material>, band: nat)
    ensures IsOpen(p) ==> PortalTransmission(p, materials, band) == 1.0
    ensures !IsOpen(p) && p.material in materials ==>
              forall t | Covers(materials[p.material].transmission, band, t) :: PortalTransmission(p, materials, band) == t
    ensures !IsOpen(p) && p.material !in materials ==> PortalTransmission(p, materials, band) == 0.0
  {
    if p.material in materials {
      forall t | Covers(materials[p.material].transmission, band, t)
        ensures MaterialTransmission(materials[p.material], band) == t
      {
        MaterialPasses(materials[p.material], band, t);
      }
    }
  }

  const DEFAULT_MAX_DEPTH: nat := 6
  const DEFAULT_MAX_NODES: nat := 100000
  const DEFAULT_FLOOR: real := 0.000001

  /** Unset limits select the defaults; a floor of 0 dB, the linear value 1, counts as unset. */
  function WithDefaults(maxDepth: int, maxNodes: int, floor: real, bandCount: int, sceneBands: nat): (r: Option<Config>)
    ensures r.Some? <==> bandCount > 0 || sceneBands > 0
    ensures r.Some? ==> r.value.bandCount > 0 && (bandCount > 0 ==> r.value.bandCount == bandCount) && (bandCount <= 0 ==> r.value.bandCount == sceneBands)
    ensures r.Some? ==> r.value.maxDepth > 0 && (maxDepth > 0 ==> r.value.maxDepth == maxDepth) && (maxDepth <= 0 ==> r.value.maxDepth == 6)
    ensures r.Some? ==> r.value.maxNodes > 0 && (maxNodes > 0 ==> r.value.maxNodes == maxNodes) && (maxNodes <= 0 ==> r.value.maxNodes == 100000)
    ensures r.Some? ==> r.value.floor == if floor == 1.0 then 0.000001 else floor
  {
    var bands := if bandCount <= 0 then sceneBands else bandCount;
    if bands == 0 then None
    else Some(Config(if maxDepth <= 0 then DEFAULT_MAX_DEPTH else maxDepth,
                     if maxNodes <= 0 then DEFAULT_MAX_NODES else maxNodes,
                     if floor == 1.0 then DEFAULT_FLOOR else floor,
                     bands))
  }

  /** The group graph the search walks is the scene's: its edges are the closed portals
      between groups, and its receivers are the groups given. */
  ghost predicate DescribesScene(g: GroupGraph, portals: seq<Portal>, groupOf: seq<int>, groupCount: nat,
                                 materials: map<string, Material>, receivers: set<nat>, bandCount: nat)
  {
    && |g.edges| == groupCount && g.receivers == receivers
    && |g.tau| == |portals| && (forall p | 0 <= p < |portals| :: |g.tau[p]| == bandCount)
    && (forall v, e: GroupPortalView | 0 <= v < groupCount :: e in g.edges[v] <==> IsGroupEdge(portals, groupOf, v, e))
    && (forall p, b | 0 <= p < |portals| && 0 <= b < bandCount :: Tau(g, p, b) == PortalTransmission(portals[p], materials, b))
  }

  // ---------- Paths of the scene, without the group graph ----------

  /** A path leaves each group by a closed portal of the scene and never re-enters a group. */
  ghost predicate IsScenePath(portals: seq<Portal>, groupOf: seq<int>, src: nat, q: Path)
    decreases |q|
  {
    q == [] ||
    (&& IsScenePath(portals, groupOf, src, Init(q))
     && IsGroupEdge(portals, groupOf, GroupAt(src, Init(q)), Last(q))
     && !Visits(src, Init(q), Last(q).toGroup))
  }

  /** The product of the transmissions of a path's portals in one band. */
  ghost function SceneGain(portals: seq<Portal>, materials: map<string, Material>, q: Path, b: nat): real
    decreases |q|
  {
    if q == [] then 1.0
    else
      SceneGain(portals, materials, Init(q), b)
      * if Last(q).view.portalIndex < |portals| then PortalTransmission(portals[Last(q).view.portalIndex], materials, b) else 0.0
  }

  ghost predicate HeardInScene(portals: seq<Portal>, materials: map<string, Material>, cfg: Config, q: Path) {
    exists b: nat :: b < cfg.bandCount && SceneGain(portals, materials, q, b) > cfg.floor
  }

  lemma {:induction false} ScenePathsAreSimple(g: GroupGraph, portals: seq<Portal>, groupOf: seq<int>, groupCount: nat,
                                               materials: map<string, Material>, receivers: set<nat>, bandCount: nat, src: nat, q: Path)
    requires DescribesScene(g, portals, groupOf, groupCount, materials, receivers, bandCount) && src < groupCount
    requires forall r | 0 <= r < |groupOf| :: groupOf[r] < groupCount
    ensures IsScenePath(portals, groupOf, src, q) <==> IsSimple(g, src, q)
    ensures IsScenePath(portals, groupOf, src, q) ==> GroupAt(src, q) < groupCount
    decreases |q|
  {
    if q != [] {
      ScenePathsAreSimple(g, portals, groupOf, groupCount, materials, receivers, bandCount, src, Init(q));
    }
  }

  lemma {:induction false} SceneGainIsGain(g: GroupGraph, portals: seq<Portal>, groupOf: seq<int>, groupCount: nat,
                                           materials: map<string, Material>, receivers: set<nat>, bandCount: nat, q: Path, b: nat)
    requires DescribesScene(g, portals, groupOf, groupCount, materials, receivers, bandCount) && b < bandCount
    ensures SceneGain(portals, materials, q, b) == Gain(g, q, b)
    decreases |q|
  {
    hide PortalTransmission;
    if q != [] {
      SceneGainIsGain(g, portals, groupOf, groupCount, materials, receivers, bandCount, Init(q), b);
      var p := Last(q).view.portalIndex;
      assert p < |portals| ==> Tau(g, p, b) == PortalTransmission(portals[p], materials, b);
    }
  }

  ghost predicate UnitMaterials(portals: seq<Portal>, materials: map<string, Material>, bandCount: nat) {
    forall p, b: nat | 0 <= p < |portals| && b < bandCount :: 0.0 <= PortalTransmission(portals[p], materials, b) <= 1.0
  }

  /** Below the node cap the leaves are, one to one, the simple paths through closed portals of the
      scene that end in a receiver's group and are heard there in some band. */
  lemma LeavesAreTheHeardPaths(g: GroupGraph, portals: seq<Portal>, groupOf: seq<int>, groupCount: nat, materials: map<string, Material>,
                               receivers: set<nat>, cfg: Config, src: nat, nodes: seq<PathNode>, paths: seq<Path>, leaves: seq<nat>,
                               truncated: bool, q: Path)
    requires DescribesScene(g, portals, groupOf, groupCount, materials, receivers, cfg.bandCount) && src < groupCount
    requires (forall r | 0 <= r < |groupOf| :: groupOf[r] < groupCount) && UnitMaterials(portals, materials, cfg.bandCount)
    requires SearchResult(g, cfg, src, nodes, paths, leaves, truncated) && cfg.floor < 1.0 && cfg.bandCount > 0 && |nodes| < cfg.maxNodes
    ensures (&& IsScenePath(portals, groupOf, src, q) && |q| <= cfg.maxDepth && GroupAt(src, q) in receivers
             && HeardInScene(portals, materials, cfg, q))
            <==> exists i :: i in leaves && paths[i] == q
    ensures forall i, j :: i in leaves && j in leaves && paths[i] == paths[j] ==> i == j
  {
    hide SearchResult, IsSimple, IsScenePath, Gain, SceneGain, PortalTransmission;
    ScenePathsAreSimple(g, portals, groupOf, groupCount, materials, receivers, cfg.bandCount, src, q);
    forall b: nat | b < cfg.bandCount
      ensures SceneGain(portals, materials, q, b) == Gain(g, q, b)
    {
      SceneGainIsGain(g, portals, groupOf, groupCount, materials, receivers, cfg.bandCount, q, b);
    }
    forall p: nat, b: nat
      ensures 0.0 <= Tau(g, p, b) <= 1.0
    {
      assert p < |portals| && b < cfg.bandCount ==> Tau(g, p, b) == PortalTransmission(portals[p], materials, b);
    }
    LeavesAreTheAudiblePaths(g, cfg, src, nodes, paths, leaves, truncated, q);
  }

  /** Searches the propagation paths of a scene, or fails on an unknown group or no bands. */
  method SearchScene(graph: AcousticSceneGraph, materials: map<string, Material>, receivers: set<nat>, sourceGroup: int,
                     maxDepth: int, maxNodes: int, floor: real, bandCount: int, sceneBands: nat)
    returns (tree: Option<PathSearchTree>, ghost g: GroupGraph)
    requires graph.Valid()
    ensures tree.Some? <==> 0 <= sourceGroup < |graph.roomsOfGroup| && WithDefaults(maxDepth, maxNodes, floor, bandCount, sceneBands).Some?
    ensures tree.Some? ==>
              var cfg := WithDefaults(maxDepth, maxNodes, floor, bandCount, sceneBands).value;
              && DescribesScene(g, graph.portals, graph.groupOfRoom, |graph.roomsOfGroup|, materials, receivers, cfg.bandCount)
              && SearchResult(g, cfg, sourceGroup, tree.value.nodes, tree.value.paths, tree.value.leaves, tree.value.truncated)
  {
    g := GroupGraph([], [], {});
    var config := WithDefaults(maxDepth, maxNodes, floor, bandCount, sceneBands);
    if sourceGroup < 0 || sourceGroup >= |graph.roomsOfGroup| || config.None? {
      tree := None;
      return;
    }
    var cfg := config.value;
    var edges: seq<seq<GroupPortalView>> := [];
    for v := 0 to |graph.roomsOfGroup|
      invariant |edges| == v
      invariant forall w, e: GroupPortalView | 0 <= w < v :: e in edges[w] <==> IsGroupEdge(graph.portals, graph.groupOfRoom, w, e)
      invariant forall w, i, j | 0 <= w < v && 0 <= i < j < |edges[w]| :: edges[w][i] != edges[w][j]
    {
      var sorted := graph.SortedGroupEdges(v);
      edges := edges + [sorted];
    }
    var portals := graph.portals;
    var tau := seq(|portals|, p requires 0 <= p < |portals| =>
      seq(cfg.bandCount, b requires 0 <= b < cfg.bandCount => PortalTransmission(portals[p], materials, b)));
    var group := GroupGraph(edges, tau, receivers);
    assert ValidGraph(group, cfg.bandCount) by {
      forall v, j | 0 <= v < |edges| && 0 <= j < |edges[v]|
        ensures edges[v][j].toGroup < |edges| && edges[v][j].view.portalIndex < |tau|
      {
        assert edges[v][j] in edges[v];
      }
    }
    g := group;
    var found := SearchPaths(group, cfg, sourceGroup);
    tree := Some(found);
  }
}
