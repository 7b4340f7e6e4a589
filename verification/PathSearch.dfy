/** The depth-first path search across the group graph (scene/path_search.go).

  An explicit LIFO stack enumerates the simple paths that leave the source group
  through closed portals, pruning a branch once no band is above the floor.
*/
module PathSearch {
  import opened Portals
  import opened WorkList
  import opened Wrappers

  /** The search configuration after defaulting. `floor` is the linear form of the dB
      floor: a band is alive when its accumulated coefficient exceeds it. */
  datatype Config = Config(maxDepth: nat, maxNodes: nat, floor: real, bandCount: nat)

  /** What the search reads of the scene graph: the sorted outgoing closed portals of each
      group, the portals' per-band coefficients, and the groups holding a receiver. */
  datatype GroupGraph = GroupGraph(edges: seq<seq<GroupPortalView>>, tau: seq<seq<real>>, receivers: set<nat>)

  type Path = seq<GroupPortalView>

  ghost predicate ValidGraph(g: GroupGraph, bandCount: nat) {
    && (forall v, j | 0 <= v < |g.edges| && 0 <= j < |g.edges[v]| ::
          g.edges[v][j].toGroup < |g.edges| && g.edges[v][j].view.portalIndex < |g.tau|)
    && (forall v, i, j | 0 <= v < |g.edges| && 0 <= i < j < |g.edges[v]| :: g.edges[v][i] != g.edges[v][j])
    && (forall p | 0 <= p < |g.tau| :: |g.tau[p]| == bandCount)
  }

  // ---------- Paths, independently of the search ----------

  function Init(p: Path): Path
    requires p != []
  {
    p[..|p| - 1]
  }

  function Last(p: Path): GroupPortalView
    requires p != []
  {
    p[|p| - 1]
  }

  /** The group a path ends in. */
  function GroupAt(src: nat, p: Path): nat {
    if p == [] then src else Last(p).toGroup
  }

  ghost predicate Visits(src: nat, p: Path, x: nat) {
    x == src || exists i :: 0 <= i < |p| && p[i].toGroup == x
  }

  /** A path leaves each group by one of its closed portals and never re-enters a group. */
  ghost predicate IsSimple(g: GroupGraph, src: nat, p: Path)
    decreases |p|
  {
    p == [] ||
    (&& IsSimple(g, src, Init(p))
     && GroupAt(src, Init(p)) < |g.edges|
     && Last(p) in g.edges[GroupAt(src, Init(p))]
     && !Visits(src, Init(p), Last(p).toGroup))
  }

  /** The coefficient product of a path in one band. */
  ghost function Gain(g: GroupGraph, p: Path, b: nat): real
    decreases |p|
  {
    if p == [] then 1.0
    else Gain(g, Init(p), b) * Tau(g, Last(p).view.portalIndex, b)
  }

  function Tau(g: GroupGraph, portal: nat, b: nat): real {
    if portal < |g.tau| && b < |g.tau[portal]| then g.tau[portal][b] else 0.0
  }

  ghost predicate Audible(g: GroupGraph, cfg: Config, p: Path) {
    exists b :: 0 <= b < cfg.bandCount && Gain(g, p, b) > cfg.floor
  }

  /** Every portal traversal on the path left some band alive. */
  ghost predicate Survives(g: GroupGraph, cfg: Config, p: Path)
    decreases |p|
  {
    p == [] || (Survives(g, cfg, Init(p)) && Audible(g, cfg, p))
  }

  ghost predicate Admissible(g: GroupGraph, cfg: Config, src: nat, p: Path) {
    IsSimple(g, src, p) && |p| <= cfg.maxDepth && Survives(g, cfg, p)
  }

  lemma {:induction false} AdmissiblePrefix(g: GroupGraph, cfg: Config, src: nat, p: Path, m: nat)
    requires m <= |p|
    ensures IsSimple(g, src, p) ==> IsSimple(g, src, p[..m])
    ensures Admissible(g, cfg, src, p) ==> Admissible(g, cfg, src, p[..m])
    decreases |p|
  {
    if m == |p| {
      assert p[..m] == p;
    } else {
      AdmissiblePrefix(g, cfg, src, Init(p), m);
      assert Init(p)[..m] == p[..m];
    }
  }

  lemma {:induction false} SimpleStep(g: GroupGraph, src: nat, p: Path, m: nat)
    requires IsSimple(g, src, p) && m < |p|
    ensures GroupAt(src, p[..m]) < |g.edges| && p[m] in g.edges[GroupAt(src, p[..m])]
    ensures !Visits(src, p[..m], p[m].toGroup)
  {
    AdmissiblePrefix(g, Config(0, 0, 0.0, 0), src, p, m + 1);
    var q := p[..m + 1];
    assert Init(q) == p[..m] && Last(q) == p[m];
  }

  lemma ExtendPath(g: GroupGraph, cfg: Config, src: nat, p: Path, e: GroupPortalView, b: nat)
    ensures GroupAt(src, p + [e]) == e.toGroup
    ensures Gain(g, p + [e], b) == Gain(g, p, b) * Tau(g, e.view.portalIndex, b)
    ensures IsSimple(g, src, p + [e]) <==>
            IsSimple(g, src, p) && GroupAt(src, p) < |g.edges| && e in g.edges[GroupAt(src, p)] && !Visits(src, p, e.toGroup)
    ensures Survives(g, cfg, p + [e]) <==> Survives(g, cfg, p) && Audible(g, cfg, p + [e])
    ensures forall x: nat :: Visits(src, p + [e], x) <==> Visits(src, p, x) || x == e.toGroup
  {
    assert Init(p + [e]) == p && Last(p + [e]) == e;
    forall x: nat
      ensures Visits(src, p + [e], x) <==> Visits(src, p, x) || x == e.toGroup
    {
      if x == e.toGroup {
        assert (p + [e])[|p|].toGroup == x;
      } else if Visits(src, p, x) && x != src {
        var i :| 0 <= i < |p| && p[i].toGroup == x;
        assert (p + [e])[i].toGroup == x;
      }
    }
  }

  // ---------- Early pruning loses nothing ----------

  ghost predicate UnitCoefficients(g: GroupGraph) {
    forall p, b :: 0.0 <= Tau(g, p, b) <= 1.0
  }

  lemma {:induction false} GainBounds(g: GroupGraph, p: Path, b: nat)
    requires UnitCoefficients(g)
    ensures 0.0 <= Gain(g, p, b) <= 1.0
    ensures p != [] ==> Gain(g, p, b) <= Gain(g, Init(p), b)
    decreases |p|
  {
    if p != [] {
      GainBounds(g, Init(p), b);
      var x, t := Gain(g, Init(p), b), Tau(g, Last(p).view.portalIndex, b);
      GainOfLast(g, p, b, x, t);
      UnitProduct(x, t);
      hide Gain, Tau;
    }
  }

  lemma GainOfLast(g: GroupGraph, p: Path, b: nat, x: real, t: real)
    requires p != [] && x == Gain(g, Init(p), b) && t == Tau(g, Last(p).view.portalIndex, b)
    ensures Gain(g, p, b) == x * t
  {
  }

  lemma UnitProduct(x: real, t: real)
    requires 0.0 <= x <= 1.0 && 0.0 <= t <= 1.0
    ensures 0.0 <= x * t <= x
  {
  }

  /** With coefficients in [0, 1] a path that is audible at its end was audible at every
      portal on the way, so the per-portal prune drops no audible path. */
  lemma {:induction false} PruningIsLossless(g: GroupGraph, cfg: Config, p: Path)
    requires UnitCoefficients(g)
    ensures Survives(g, cfg, p) <==> p == [] || Audible(g, cfg, p)
    decreases |p|
  {
    if p != [] && Audible(g, cfg, p) {
      var b :| 0 <= b < cfg.bandCount && Gain(g, p, b) > cfg.floor;
      GainBounds(g, p, b);
      assert Gain(g, Init(p), b) > cfg.floor;
      PruningIsLossless(g, cfg, Init(p));
    }
  }

  // ---------- The tree ----------

  datatype PathStep = PathStep(portal: GroupPortalView, transmission: seq<real>)

  datatype PathNode = PathNode(group: nat, depth: nat, parent: int, children: seq<nat>, step: Option<PathStep>,
                               transmission: seq<real>, activeBands: seq<bool>, isLeaf: bool)

  /** Node `i` of the tree stands for path `paths[i]`. */
  ghost predicate NodeOk(g: GroupGraph, cfg: Config, src: nat, nodes: seq<PathNode>, paths: seq<Path>, i: nat)
    requires |nodes| == |paths| && i < |nodes|
  {
    var n := nodes[i];
    && Admissible(g, cfg, src, paths[i])
    && n.group == GroupAt(src, paths[i]) < |g.edges|
    && n.depth == |paths[i]|
    && |n.transmission| == |n.activeBands| == cfg.bandCount
    && (forall b | 0 <= b < cfg.bandCount :: n.transmission[b] == Gain(g, paths[i], b))
    && (forall b | 0 <= b < cfg.bandCount :: n.activeBands[b] <==> Gain(g, paths[i], b) > cfg.floor)
    && (n.isLeaf <==> n.group in g.receivers)
    && (if i == 0 then n.parent == -1 && n.step == None && paths[i] == []
        else 0 <= n.parent < i && n.step.Some? && paths[i] == paths[n.parent] + [n.step.value.portal])
  }

  ghost predicate TreeOk(g: GroupGraph, cfg: Config, src: nat, nodes: seq<PathNode>, paths: seq<Path>, leaves: seq<nat>) {
    && |nodes| == |paths| >= 1
    && (forall i | 0 <= i < |nodes| :: NodeOk(g, cfg, src, nodes, paths, i))
    && (forall i, j | 0 <= i < j < |nodes| :: paths[i] != paths[j])
    && LeavesOk(nodes, leaves)
    && ChildrenOk(nodes)
  }

  /** The leaf list names the leaf nodes in ascending order. */
  ghost predicate LeavesOk(nodes: seq<PathNode>, leaves: seq<nat>) {
    && (forall i, j | 0 <= i < j < |leaves| :: leaves[i] < leaves[j])
    && (forall k | 0 <= k < |leaves| :: leaves[k] < |nodes|)
    && (forall i | 0 <= i < |nodes| :: nodes[i].isLeaf <==> i in leaves)
  }

  /** Child lists and parent links agree. */
  ghost predicate ChildrenOk(nodes: seq<PathNode>) {
    && (forall i, k | 0 <= i < |nodes| && 0 <= k < |nodes[i].children| ::
          nodes[i].children[k] < |nodes| && nodes[nodes[i].children[k]].parent == i)
    && (forall c | 0 <= c < |nodes| ::
          -1 <= nodes[c].parent < c && (nodes[c].parent >= 0 ==> c in nodes[nodes[c].parent].children))
  }

  /** The result of a search: a tree of distinct admissible paths that is exhaustive unless
      the node cap was reached, with an exact truncation flag. */
  ghost predicate SearchResult(g: GroupGraph, cfg: Config, src: nat, nodes: seq<PathNode>, paths: seq<Path>,
                               leaves: seq<nat>, truncated: bool)
  {
    && TreeOk(g, cfg, src, nodes, paths, leaves)
    && (|nodes| < cfg.maxNodes ==> forall q :: Admissible(g, cfg, src, q) ==> q in paths)
    && (truncated <==> exists q :: IsSimple(g, src, q) && q !in paths)
  }

  /** A run of nodes from the root in which each is the parent of the next. */
  ghost predicate IsChain(nodes: seq<PathNode>, r: seq<nat>) {
    && |r| > 0 && r[0] == 0 && (forall i | 0 <= i < |r| :: r[i] < |nodes|)
    && (forall i | 0 <= i < |r| - 1 :: nodes[r[i + 1]].parent == r[i])
  }

  class PathSearchTree {
    var nodes: seq<PathNode>
    var leaves: seq<nat>
    var truncated: bool
    ghost var paths: seq<Path>

    constructor ()
      ensures nodes == [] && leaves == [] && !truncated && paths == []
    {
      nodes, leaves, truncated, paths := [], [], false, [];
    }

    /** The node indices from the root down to `node`. */
    method PathTo(node: int) returns (r: seq<nat>)
      requires forall i | 0 <= i < |nodes| :: nodes[i].parent < i && (nodes[i].parent < 0 <==> i == 0)
      ensures !(0 <= node < |nodes|) ==> r == []
      ensures 0 <= node < |nodes| ==> IsChain(nodes, r) && r[|r| - 1] == node
    {
      if node < 0 || node >= |nodes| {
        return [];
      }
      var reversed: seq<nat> := [node];
      var current := nodes[node].parent;
      while current >= 0
        invariant current < |nodes| && reversed != [] && reversed[0] == node
        invariant forall i | 0 <= i < |reversed| :: reversed[i] < |nodes|
        invariant nodes[reversed[|reversed| - 1]].parent == current
        invariant forall i | 0 <= i < |reversed| - 1 :: nodes[reversed[i]].parent == reversed[i + 1]
        decreases current
      {
        reversed := reversed + [current];
        current := nodes[current].parent;
      }
      r := seq(|reversed|, i requires 0 <= i < |reversed| => reversed[|reversed| - 1 - i]);
    }
  }

  lemma ParentsPrecede(g: GroupGraph, cfg: Config, src: nat, nodes: seq<PathNode>, paths: seq<Path>, leaves: seq<nat>)
    requires TreeOk(g, cfg, src, nodes, paths, leaves)
    ensures forall i | 0 <= i < |nodes| :: nodes[i].parent < i && (nodes[i].parent < 0 <==> i == 0)
  {
    forall i | 0 <= i < |nodes|
      ensures nodes[i].parent < i && (nodes[i].parent < 0 <==> i == 0)
    {
      assert NodeOk(g, cfg, src, nodes, paths, i);
    }
  }

  /** The nodes from the root down to a node spell out the prefixes of its path. */
  lemma {:induction false} ChainSpellsPath(g: GroupGraph, cfg: Config, src: nat, nodes: seq<PathNode>, paths: seq<Path>,
                                           leaves: seq<nat>, r: seq<nat>, k: nat)
    requires TreeOk(g, cfg, src, nodes, paths, leaves) && IsChain(nodes, r) && k < |r|
    ensures |paths[r[k]]| == k
    ensures forall i | 0 <= i <= k :: paths[r[i]] == paths[r[k]][..i]
  {
    assert NodeOk(g, cfg, src, nodes, paths, r[k]);
    if k > 0 {
      ChainSpellsPath(g, cfg, src, nodes, paths, leaves, r, k - 1);
      assert nodes[r[k - 1 + 1]].parent == r[k - 1];
      var p := paths[r[k]];
      assert p[..k - 1] == paths[r[k - 1]];
      forall i | 0 <= i <= k
        ensures paths[r[i]] == p[..i]
      {
        if i == k {
          assert p[..k] == p;
        } else {
          assert p[..i] == paths[r[k - 1]][..i];
        }
      }
    }
  }

  // ---------- The explicit stack ----------

  /** One entry of the depth-first stack: `cursor` counts the considered outgoing portals. */
  datatype PathFrame = PathFrame(node: nat, edges: seq<GroupPortalView>, cursor: nat)

  /** The stack spells out one path, the trail: frame k stands for its first k portals, and
      every frame below the top has just considered the portal the next frame came by. */
  ghost predicate FrameOk(g: GroupGraph, src: nat, paths: seq<Path>, f: PathFrame, p: Path) {
    && f.node < |paths| && paths[f.node] == p
    && GroupAt(src, p) < |g.edges| && f.edges == g.edges[GroupAt(src, p)]
    && f.cursor <= |f.edges|
  }

  ghost predicate StackOk(g: GroupGraph, cfg: Config, src: nat, paths: seq<Path>, stack: seq<PathFrame>, trail: Path) {
    && |stack| <= cfg.maxDepth + 1
    && (stack != [] ==> |stack| == |trail| + 1)
    && (forall k | 0 <= k < |stack| :: FrameOk(g, src, paths, stack[k], trail[..k]))
    && (forall k | 0 <= k < |stack| - 1 :: CameBy(stack[k], trail[k]))
  }

  /** The frame has just considered portal `e`. */
  ghost predicate CameBy(f: PathFrame, e: GroupPortalView) {
    0 < f.cursor <= |f.edges| && e == f.edges[f.cursor - 1]
  }

  /** Path `q` runs through a portal that frame `k` has yet to consider. */
  ghost predicate PendingAt(stack: seq<PathFrame>, trail: Path, k: nat, q: Path) {
    && k < |stack| <= |trail| + 1 && k < |q| && q[..k] == trail[..k]
    && stack[k].cursor <= |stack[k].edges| && q[k] in stack[k].edges[stack[k].cursor..]
  }

  ghost predicate Pending(stack: seq<PathFrame>, trail: Path, q: Path) {
    exists k :: PendingAt(stack, trail, k, q)
  }

  /** What the search still owes: every wanted path is in the tree or pending, no path in the
      tree is pending, and the truncation flag has a witness that will never be reached. */
  ghost predicate Progress(g: GroupGraph, cfg: Config, src: nat, paths: seq<Path>, stack: seq<PathFrame>, trail: Path,
                           truncated: bool, lost: Path)
  {
    && (|paths| < cfg.maxNodes ==>
          forall q :: Admissible(g, cfg, src, q) ==> q in paths || Pending(stack, trail, q))
    && (forall i | 0 <= i < |paths| :: !Pending(stack, trail, paths[i]))
    && (truncated ==> IsSimple(g, src, lost) && lost !in paths && !Pending(stack, trail, lost))
    && (!truncated ==> forall q :: IsSimple(g, src, q) ==> q in paths || Pending(stack, trail, q))
  }

  /** The stack after the top frame's cursor moved past one portal. */
  function Advanced(stack: seq<PathFrame>): seq<PathFrame>
    requires stack != []
  {
    var top := |stack| - 1;
    stack[top := stack[top].(cursor := stack[top].cursor + 1)]
  }

  ghost predicate CanAdvance(g: GroupGraph, cfg: Config, src: nat, paths: seq<Path>, stack: seq<PathFrame>, trail: Path, e: GroupPortalView) {
    && StackOk(g, cfg, src, paths, stack, trail) && stack != []
    && stack[|stack| - 1].cursor < |stack[|stack| - 1].edges|
    && e == stack[|stack| - 1].edges[stack[|stack| - 1].cursor]
    && trail[..|trail|] == trail
  }

  /** What the bookkeeping of pending paths needs of the stack. */
  ghost predicate TrailOk(stack: seq<PathFrame>, trail: Path) {
    && |stack| == |trail| + 1
    && (forall k | 0 <= k < |stack| :: stack[k].cursor <= |stack[k].edges| && Distinct(stack[k].edges))
    && (forall k | 0 <= k < |stack| - 1 :: CameBy(stack[k], trail[k]))
  }

  ghost predicate Distinct(es: seq<GroupPortalView>) {
    forall i, j | 0 <= i < j < |es| :: es[i] != es[j]
  }

  lemma StackHasTrail(g: GroupGraph, cfg: Config, src: nat, paths: seq<Path>, stack: seq<PathFrame>, trail: Path)
    requires ValidGraph(g, cfg.bandCount) && StackOk(g, cfg, src, paths, stack, trail) && stack != []
    ensures TrailOk(stack, trail)
  {
    forall k | 0 <= k < |stack|
      ensures stack[k].cursor <= |stack[k].edges| && Distinct(stack[k].edges)
    {
      assert FrameOk(g, src, paths, stack[k], trail[..k]);
    }
  }

  /** Moving the cursor makes exactly the extensions of `trail + [e]` no longer pending. */
  lemma AdvancePending(stack: seq<PathFrame>, trail: Path, e: GroupPortalView, q: Path)
    requires TrailOk(stack, trail) && stack[|stack| - 1].cursor < |stack[|stack| - 1].edges|
    requires e == stack[|stack| - 1].edges[stack[|stack| - 1].cursor]
    ensures Pending(stack, trail, q) <==> Pending(Advanced(stack), trail, q) || trail + [e] <= q
    ensures !(Pending(Advanced(stack), trail, q) && trail + [e] <= q)
  {
    hide PendingAt;
    var top := |stack| - 1;
    if Pending(stack, trail, q) {
      var k: nat :| PendingAt(stack, trail, k, q);
      AdvanceAt(stack, trail, e, k, q);
      assert PendingAt(Advanced(stack), trail, k, q) || trail + [e] <= q;
    }
    if Pending(Advanced(stack), trail, q) {
      var k: nat :| PendingAt(Advanced(stack), trail, k, q);
      AdvanceAt(stack, trail, e, k, q);
      assert PendingAt(stack, trail, k, q);
    }
    if trail + [e] <= q {
      AdvanceAt(stack, trail, e, top, q);
      assert PendingAt(stack, trail, top, q);
    }
  }

  /** The same for one frame of the stack: the extensions of `trail + [e]` were pending at its top. */
  lemma AdvanceAt(stack: seq<PathFrame>, trail: Path, e: GroupPortalView, k: nat, q: Path)
    requires TrailOk(stack, trail) && stack[|stack| - 1].cursor < |stack[|stack| - 1].edges|
    requires e == stack[|stack| - 1].edges[stack[|stack| - 1].cursor]
    ensures PendingAt(stack, trail, k, q) <==> PendingAt(Advanced(stack), trail, k, q) || (k == |stack| - 1 && trail + [e] <= q)
    ensures !(PendingAt(Advanced(stack), trail, k, q) && trail + [e] <= q)
  {
    var top := |stack| - 1;
    var es, c := stack[top].edges, stack[top].cursor;
    assert es[c..] == [e] + es[c + 1..];
    assert trail[..top] == trail;
    if trail + [e] <= q {
      assert q[..top] == (trail + [e])[..top] == trail;
    }
    if k == top && PendingAt(stack, trail, k, q) && q[k] == e {
      assert q[..top + 1] == trail + [e];
    }
  }

  /** Pushing a frame keeps what is pending and adds only proper extensions of its path. */
  lemma PushPending(stack: seq<PathFrame>, trail: Path, e: GroupPortalView, f: PathFrame, q: Path)
    requires |stack| == |trail| + 1
    ensures Pending(stack + [f], trail + [e], q) ==> Pending(stack, trail, q) || (trail + [e] <= q && q != trail + [e])
    ensures Pending(stack, trail, q) ==> Pending(stack + [f], trail + [e], q)
  {
    var grown := trail + [e];
    if Pending(stack + [f], grown, q) {
      var k: nat :| PendingAt(stack + [f], grown, k, q);
      if k < |stack| {
        assert grown[..k] == trail[..k];
        assert PendingAt(stack, trail, k, q);
      } else {
        assert grown[..k] == grown;
      }
    }
    if Pending(stack, trail, q) {
      var k: nat :| PendingAt(stack, trail, k, q);
      assert grown[..k] == trail[..k];
      assert PendingAt(stack + [f], grown, k, q);
    }
  }

  /** A freshly pushed frame has every proper simple extension of its path pending. */
  lemma FreshPending(g: GroupGraph, src: nat, stack: seq<PathFrame>, trail: Path, e: GroupPortalView, f: PathFrame, q: Path)
    requires |stack| == |trail| + 1 && e.toGroup < |g.edges| && f.edges == g.edges[e.toGroup] && f.cursor == 0
    requires trail + [e] <= q && q != trail + [e] && IsSimple(g, src, q)
    ensures Pending(stack + [f], trail + [e], q)
  {
    var k := |stack|;
    SimpleStep(g, src, q, k);
    assert q[..k] == trail + [e] == (trail + [e])[..k];
    assert f.edges[0..] == f.edges;
    assert PendingAt(stack + [f], trail + [e], k, q);
  }

  /** A rejected branch: the path was a cycle, too deep, capped, or inaudible. */
  lemma ProgressAfterReject(g: GroupGraph, cfg: Config, src: nat, paths: seq<Path>, stack: seq<PathFrame>, trail: Path,
                            e: GroupPortalView, truncated: bool, lost: Path, cycle: bool)
    requires ValidGraph(g, cfg.bandCount) && CanAdvance(g, cfg, src, paths, stack, trail, e)
    requires Progress(g, cfg, src, paths, stack, trail, truncated, lost)
    requires cycle <==> !IsSimple(g, src, trail + [e])
    requires |paths| < cfg.maxNodes ==> !Admissible(g, cfg, src, trail + [e])
    ensures Progress(g, cfg, src, paths, Advanced(stack), trail, truncated || !cycle,
                     if truncated || cycle then lost else trail + [e])
  {
    var p := trail + [e];
    StackHasTrail(g, cfg, src, paths, stack, trail);
    forall q
      ensures p <= q ==> (IsSimple(g, src, q) ==> IsSimple(g, src, p)) && (Admissible(g, cfg, src, q) ==> Admissible(g, cfg, src, p))
      ensures Pending(stack, trail, q) <==> Pending(Advanced(stack), trail, q) || p <= q
      ensures !(Pending(Advanced(stack), trail, q) && p <= q)
    {
      AdvancePending(stack, trail, e, q);
      if p <= q {
        AdmissiblePrefix(g, cfg, src, q, |p|);
        assert q[..|p|] == p;
      }
    }
    assert p !in paths;
  }

  /** An accepted branch: the path joins the tree and its extensions become pending. */
  lemma ProgressAfterPush(g: GroupGraph, cfg: Config, src: nat, paths: seq<Path>, stack: seq<PathFrame>, trail: Path,
                          e: GroupPortalView, child: nat, truncated: bool, lost: Path)
    requires ValidGraph(g, cfg.bandCount) && CanAdvance(g, cfg, src, paths, stack, trail, e) && e.toGroup < |g.edges|
    requires Progress(g, cfg, src, paths, stack, trail, truncated, lost)
    ensures trail + [e] !in paths
    ensures Progress(g, cfg, src, paths + [trail + [e]], Advanced(stack) + [PathFrame(child, g.edges[e.toGroup], 0)], trail + [e], truncated, lost)
  {
    var p := trail + [e];
    var pushed := Advanced(stack) + [PathFrame(child, g.edges[e.toGroup], 0)];
    StackHasTrail(g, cfg, src, paths, stack, trail);
    forall q
      ensures Pending(pushed, p, q) ==> Pending(stack, trail, q) && q != p
      ensures IsSimple(g, src, q) && Pending(stack, trail, q) ==> q == p || Pending(pushed, p, q)
      ensures q == p ==> Pending(stack, trail, q)
    {
      AdvancePending(stack, trail, e, q);
      PushPending(Advanced(stack), trail, e, PathFrame(child, g.edges[e.toGroup], 0), q);
      if p <= q && q != p && IsSimple(g, src, q) {
        FreshPending(g, src, Advanced(stack), trail, e, PathFrame(child, g.edges[e.toGroup], 0), q);
      }
    }
    assert p !in paths;
    forall i | 0 <= i < |paths + [p]|
      ensures !Pending(pushed, p, (paths + [p])[i])
    {
      if i < |paths| {
        assert (paths + [p])[i] == paths[i];
      }
    }
  }

  // ---------- The search ----------

  /** The per-band coefficients behind one portal, and which bands they leave alive. */
  method AccumulateBands(cfg: Config, upstream: seq<real>, tau: seq<real>)
    returns (accumulated: seq<real>, active: seq<bool>, anyActive: bool)
    requires |upstream| == |tau| == cfg.bandCount
    ensures |accumulated| == |active| == cfg.bandCount
    ensures forall b | 0 <= b < cfg.bandCount :: accumulated[b] == upstream[b] * tau[b]
    ensures forall b | 0 <= b < cfg.bandCount :: active[b] <==> accumulated[b] > cfg.floor
    ensures anyActive <==> exists b :: 0 <= b < cfg.bandCount && accumulated[b] > cfg.floor
  {
    accumulated, active, anyActive := [], [], false;
    for band := 0 to cfg.bandCount
      invariant |accumulated| == |active| == band
      invariant forall b | 0 <= b < band :: accumulated[b] == upstream[b] * tau[b]
      invariant forall b | 0 <= b < band :: active[b] <==> accumulated[b] > cfg.floor
      invariant anyActive <==> exists b :: 0 <= b < band && accumulated[b] > cfg.floor
    {
      var value := upstream[band] * tau[band];
      accumulated, active := accumulated + [value], active + [value > cfg.floor];
      anyActive := anyActive || value > cfg.floor;
    }
  }

  function WithChild(nodes: seq<PathNode>, parent: nat, node: PathNode): seq<PathNode>
    requires parent < |nodes|
  {
    nodes[parent := nodes[parent].(children := nodes[parent].children + [|nodes|])] + [node]
  }

  lemma TreeGrows(g: GroupGraph, cfg: Config, src: nat, nodes: seq<PathNode>, paths: seq<Path>, leaves: seq<nat>,
                  parent: nat, edge: GroupPortalView, node: PathNode)
    requires ValidGraph(g, cfg.bandCount) && TreeOk(g, cfg, src, nodes, paths, leaves) && parent < |nodes|
    requires edge.toGroup < |g.edges| && Admissible(g, cfg, src, paths[parent] + [edge]) && paths[parent] + [edge] !in paths
    requires node.group == edge.toGroup && node.depth == nodes[parent].depth + 1 && node.parent == parent
    requires node.children == [] && node.step.Some? && node.step.value.portal == edge
    requires |node.transmission| == |node.activeBands| == cfg.bandCount
    requires forall b | 0 <= b < cfg.bandCount :: node.transmission[b] == Gain(g, paths[parent] + [edge], b)
    requires forall b | 0 <= b < cfg.bandCount :: node.activeBands[b] <==> node.transmission[b] > cfg.floor
    requires node.isLeaf <==> node.group in g.receivers
    ensures TreeOk(g, cfg, src, WithChild(nodes, parent, node), paths + [paths[parent] + [edge]],
                   if node.isLeaf then leaves + [|nodes|] else leaves)
  {
    var nodes', paths' := WithChild(nodes, parent, node), paths + [paths[parent] + [edge]];
    forall i | 0 <= i < |nodes'|
      ensures NodeOk(g, cfg, src, nodes', paths', i)
    {
      NodeGrows(g, cfg, src, nodes, paths, leaves, parent, edge, node, i);
    }
    LeavesGrow(nodes, leaves, parent, node);
    ChildrenGrow(nodes, parent, node);
  }

  lemma NodeGrows(g: GroupGraph, cfg: Config, src: nat, nodes: seq<PathNode>, paths: seq<Path>, leaves: seq<nat>,
                  parent: nat, edge: GroupPortalView, node: PathNode, i: nat)
    requires TreeOk(g, cfg, src, nodes, paths, leaves) && parent < |nodes| && i <= |nodes|
    requires edge.toGroup < |g.edges| && Admissible(g, cfg, src, paths[parent] + [edge])
    requires node.group == edge.toGroup && node.depth == nodes[parent].depth + 1 && node.parent == parent
    requires node.children == [] && node.step.Some? && node.step.value.portal == edge
    requires |node.transmission| == |node.activeBands| == cfg.bandCount
    requires forall b | 0 <= b < cfg.bandCount :: node.transmission[b] == Gain(g, paths[parent] + [edge], b)
    requires forall b | 0 <= b < cfg.bandCount :: node.activeBands[b] <==> node.transmission[b] > cfg.floor
    requires node.isLeaf <==> node.group in g.receivers
    ensures NodeOk(g, cfg, src, WithChild(nodes, parent, node), paths + [paths[parent] + [edge]], i)
  {
    assert NodeOk(g, cfg, src, nodes, paths, if i < |nodes| then i else parent);
    assert GroupAt(src, paths[parent] + [edge]) == edge.toGroup;
  }

  lemma LeavesGrow(nodes: seq<PathNode>, leaves: seq<nat>, parent: nat, node: PathNode)
    requires parent < |nodes| && LeavesOk(nodes, leaves)
    ensures LeavesOk(WithChild(nodes, parent, node), if node.isLeaf then leaves + [|nodes|] else leaves)
  {
    var nodes' := WithChild(nodes, parent, node);
    assert forall i | 0 <= i < |nodes| :: nodes'[i].isLeaf == nodes[i].isLeaf;
    assert nodes'[|nodes|].isLeaf == node.isLeaf;
  }

  lemma ChildrenGrow(nodes: seq<PathNode>, parent: nat, node: PathNode)
    requires parent < |nodes| && ChildrenOk(nodes) && node.parent == parent && node.children == []
    ensures ChildrenOk(WithChild(nodes, parent, node))
  {
  }

  /** Appends a child node for one portal traversal, or rejects the branch. */
  method GrowPath(g: GroupGraph, cfg: Config, tree: PathSearchTree, parent: nat, edge: GroupPortalView,
                  onPath: array<bool>, ghost src: nat) returns (child: nat, ok: bool)
    requires ValidGraph(g, cfg.bandCount) && TreeOk(g, cfg, src, tree.nodes, tree.paths, tree.leaves)
    requires parent < |tree.nodes| && GroupAt(src, tree.paths[parent]) < |g.edges|
    requires edge in g.edges[GroupAt(src, tree.paths[parent])]
    requires edge.toGroup < onPath.Length && (onPath[edge.toGroup] <==> Visits(src, tree.paths[parent], edge.toGroup))
    requires tree.paths[parent] + [edge] !in tree.paths
    modifies tree
    ensures TreeOk(g, cfg, src, tree.nodes, tree.paths, tree.leaves)
    ensures ok <==> |old(tree.paths)| < cfg.maxNodes && Admissible(g, cfg, src, old(tree.paths)[parent] + [edge])
    ensures ok ==> child == |old(tree.paths)| && tree.paths == old(tree.paths) + [old(tree.paths)[parent] + [edge]]
    ensures !ok ==> tree.paths == old(tree.paths) && tree.nodes == old(tree.nodes) && tree.leaves == old(tree.leaves)
    ensures tree.truncated == (old(tree.truncated) || (!ok && !onPath[edge.toGroup]))
  {
    child, ok := 0, false;
    ghost var p := tree.paths[parent] + [edge];
    assert NodeOk(g, cfg, src, tree.nodes, tree.paths, parent);
    ExtendPath(g, cfg, src, tree.paths[parent], edge, 0);
    if onPath[edge.toGroup] {
      return;
    }
    var parentNode := tree.nodes[parent];
    if parentNode.depth + 1 > cfg.maxDepth || |tree.nodes| >= cfg.maxNodes {
      tree.truncated := true;
      return;
    }
    var transmission := g.tau[edge.view.portalIndex];
    var accumulated, active, anyActive := AccumulateBands(cfg, parentNode.transmission, transmission);
    forall b | 0 <= b < cfg.bandCount
      ensures accumulated[b] == Gain(g, p, b)
    {
      ExtendPath(g, cfg, src, tree.paths[parent], edge, b);
    }
    if !anyActive {
      tree.truncated := true;
      return;
    }
    child, ok := |tree.nodes|, true;
    var node := PathNode(edge.toGroup, parentNode.depth + 1, parent, [], Some(PathStep(edge, transmission)),
                         accumulated, active, edge.toGroup in g.receivers);
    TreeGrows(g, cfg, src, tree.nodes, tree.paths, tree.leaves, parent, edge, node);
    tree.nodes := WithChild(tree.nodes, parent, node);
    tree.paths := tree.paths + [p];
    if node.isLeaf {
      tree.leaves := tree.leaves + [child];
    }
  }

  // ---------- The loop ----------

  /** The loop invariant of the search. */
  ghost predicate SearchState(g: GroupGraph, cfg: Config, src: nat, paths: seq<Path>, truncated: bool,
                              stack: seq<PathFrame>, trail: Path, onPath: seq<bool>, lost: Path)
  {
    && StackOk(g, cfg, src, paths, stack, trail)
    && Progress(g, cfg, src, paths, stack, trail, truncated, lost)
    && |onPath| == |g.edges|
    && (forall x | 0 <= x < |onPath| :: onPath[x] <==> stack != [] && Visits(src, trail, x))
  }

  ghost function Remaining(stack: seq<PathFrame>): (r: seq<nat>) {
    seq(|stack|, k requires 0 <= k < |stack| =>
      if stack[k].cursor <= |stack[k].edges| then |stack[k].edges| - stack[k].cursor else 0)
  }

  ghost function WorkLeft(g: GroupGraph, cfg: Config, stack: seq<PathFrame>): nat {
    if |stack| <= cfg.maxDepth + 1 then Work(Widest(g.edges), cfg.maxDepth, Remaining(stack)) else 0
  }

  ghost function Widest(edges: seq<seq<GroupPortalView>>): (w: nat)
    ensures forall v | 0 <= v < |edges| :: |edges[v]| <= w
  {
    if edges == [] then 0
    else
      var w := Widest(edges[..|edges| - 1]);
      if w < |edges[|edges| - 1]| then |edges[|edges| - 1]| else w
  }

  lemma StartOk(g: GroupGraph, cfg: Config, src: nat, onPath: seq<bool>)
    requires ValidGraph(g, cfg.bandCount) && src < |g.edges| == |onPath|
    requires forall x | 0 <= x < |onPath| :: onPath[x] <==> x == src
    ensures SearchState(g, cfg, src, [[]], false, [PathFrame(0, g.edges[src], 0)], [], onPath, [])
  {
    var stack := [PathFrame(0, g.edges[src], 0)];
    forall q | IsSimple(g, src, q)
      ensures q in [[]] || Pending(stack, [], q)
    {
      if q != [] {
        SimpleStep(g, src, q, 0);
        assert PendingAt(stack, [], 0, q);
      }
    }
  }

  /** A frame with every portal considered leaves the stack. */
  lemma PopStep(g: GroupGraph, cfg: Config, src: nat, paths: seq<Path>, truncated: bool,
                stack: seq<PathFrame>, trail: Path, onPath: seq<bool>, lost: Path)
    requires SearchState(g, cfg, src, paths, truncated, stack, trail, onPath, lost) && stack != []
    requires IsSimple(g, src, trail) && GroupAt(src, trail) < |g.edges|
    requires stack[|stack| - 1].cursor == |stack[|stack| - 1].edges|
    ensures SearchState(g, cfg, src, paths, truncated, stack[..|stack| - 1], if trail == [] then [] else Init(trail),
                        onPath[GroupAt(src, trail) := false], lost)
  {
    ProgressAfterPop(g, cfg, src, paths, truncated, stack, trail, lost);
    StackAfterPop(g, cfg, src, paths, stack, trail);
    MarksAfterPop(g, cfg, src, trail, onPath);
  }

  lemma ProgressAfterPop(g: GroupGraph, cfg: Config, src: nat, paths: seq<Path>, truncated: bool,
                         stack: seq<PathFrame>, trail: Path, lost: Path)
    requires Progress(g, cfg, src, paths, stack, trail, truncated, lost)
    requires stack != [] && |stack| == |trail| + 1 && stack[|stack| - 1].cursor == |stack[|stack| - 1].edges|
    ensures Progress(g, cfg, src, paths, stack[..|stack| - 1], if trail == [] then [] else Init(trail), truncated, lost)
  {
    forall q
      ensures Pending(stack, trail, q) <==> Pending(stack[..|stack| - 1], if trail == [] then [] else Init(trail), q)
    {
      PopPending(stack, trail, q);
    }
  }

  lemma StackAfterPop(g: GroupGraph, cfg: Config, src: nat, paths: seq<Path>, stack: seq<PathFrame>, trail: Path)
    requires StackOk(g, cfg, src, paths, stack, trail) && stack != []
    ensures StackOk(g, cfg, src, paths, stack[..|stack| - 1], if trail == [] then [] else Init(trail))
  {
    var popped := stack[..|stack| - 1];
    var t := if trail == [] then [] else Init(trail);
    forall k | 0 <= k < |popped|
      ensures FrameOk(g, src, paths, popped[k], t[..k])
    {
      assert t[..k] == trail[..k];
      assert FrameOk(g, src, paths, stack[k], trail[..k]);
    }
    forall k | 0 <= k < |popped| - 1
      ensures CameBy(popped[k], t[k])
    {
      assert CameBy(stack[k], trail[k]);
    }
  }

  lemma MarksAfterPop(g: GroupGraph, cfg: Config, src: nat, trail: Path, onPath: seq<bool>)
    requires IsSimple(g, src, trail) && GroupAt(src, trail) < |onPath|
    requires forall x | 0 <= x < |onPath| :: onPath[x] <==> Visits(src, trail, x)
    ensures forall x | 0 <= x < |onPath| :: onPath[GroupAt(src, trail) := false][x] <==> trail != [] && Visits(src, Init(trail), x)
  {
    if trail != [] {
      assert trail == Init(trail) + [Last(trail)];
      ExtendPath(g, cfg, src, Init(trail), Last(trail), 0);
    }
  }

  lemma PopPending(stack: seq<PathFrame>, trail: Path, q: Path)
    requires stack != [] && |stack| == |trail| + 1
    requires stack[|stack| - 1].cursor == |stack[|stack| - 1].edges|
    ensures Pending(stack, trail, q) <==>
            Pending(stack[..|stack| - 1], if trail == [] then [] else Init(trail), q)
  {
    var popped := stack[..|stack| - 1];
    var t := if trail == [] then [] else Init(trail);
    assert forall k | 0 <= k < |popped| :: t[..k] == trail[..k];
    if Pending(stack, trail, q) {
      var k: nat :| PendingAt(stack, trail, k, q);
      assert PendingAt(popped, t, k, q);
    }
    if Pending(popped, t, q) {
      var k: nat :| PendingAt(popped, t, k, q);
      assert PendingAt(stack, trail, k, q);
    }
  }

  lemma RejectStep(g: GroupGraph, cfg: Config, src: nat, paths: seq<Path>, truncated: bool,
                   stack: seq<PathFrame>, trail: Path, onPath: seq<bool>, lost: Path, e: GroupPortalView)
    requires ValidGraph(g, cfg.bandCount) && SearchState(g, cfg, src, paths, truncated, stack, trail, onPath, lost)
    requires CanAdvance(g, cfg, src, paths, stack, trail, e) && IsSimple(g, src, trail) && e.toGroup < |onPath|
    requires |paths| < cfg.maxNodes ==> !Admissible(g, cfg, src, trail + [e])
    ensures SearchState(g, cfg, src, paths, truncated || !onPath[e.toGroup], Advanced(stack), trail, onPath,
                        if truncated || onPath[e.toGroup] then lost else trail + [e])
  {
    ExtendPath(g, cfg, src, trail, e, 0);
    ProgressAfterReject(g, cfg, src, paths, stack, trail, e, truncated, lost, onPath[e.toGroup]);
    StackAfterReject(g, cfg, src, paths, stack, trail);
  }

  lemma StackAfterReject(g: GroupGraph, cfg: Config, src: nat, paths: seq<Path>, stack: seq<PathFrame>, trail: Path)
    requires StackOk(g, cfg, src, paths, stack, trail) && stack != []
    requires stack[|stack| - 1].cursor < |stack[|stack| - 1].edges|
    ensures StackOk(g, cfg, src, paths, Advanced(stack), trail)
  {
    forall k | 0 <= k < |stack|
      ensures FrameOk(g, src, paths, Advanced(stack)[k], trail[..k])
    {
      assert FrameOk(g, src, paths, stack[k], trail[..k]);
    }
    forall k | 0 <= k < |stack| - 1
      ensures CameBy(Advanced(stack)[k], trail[k])
    {
      assert CameBy(stack[k], trail[k]);
    }
  }

  lemma PushStep(g: GroupGraph, cfg: Config, src: nat, paths: seq<Path>, truncated: bool,
                 stack: seq<PathFrame>, trail: Path, onPath: seq<bool>, lost: Path, e: GroupPortalView)
    requires ValidGraph(g, cfg.bandCount) && SearchState(g, cfg, src, paths, truncated, stack, trail, onPath, lost)
    requires CanAdvance(g, cfg, src, paths, stack, trail, e) && e.toGroup < |onPath| && |trail| < cfg.maxDepth
    ensures SearchState(g, cfg, src, paths + [trail + [e]], truncated, Advanced(stack) + [PathFrame(|paths|, g.edges[e.toGroup], 0)],
                        trail + [e], onPath[e.toGroup := true], lost)
  {
    ExtendPath(g, cfg, src, trail, e, 0);
    ProgressAfterPush(g, cfg, src, paths, stack, trail, e, |paths|, truncated, lost);
    StackAfterPush(g, cfg, src, paths, stack, trail, e);
  }

  lemma StackAfterPush(g: GroupGraph, cfg: Config, src: nat, paths: seq<Path>, stack: seq<PathFrame>, trail: Path, e: GroupPortalView)
    requires CanAdvance(g, cfg, src, paths, stack, trail, e) && e.toGroup < |g.edges| && |trail| < cfg.maxDepth
    ensures StackOk(g, cfg, src, paths + [trail + [e]], Advanced(stack) + [PathFrame(|paths|, g.edges[e.toGroup], 0)], trail + [e])
  {
    var grown, pushed := trail + [e], Advanced(stack) + [PathFrame(|paths|, g.edges[e.toGroup], 0)];
    assert grown[..|grown|] == grown;
    forall k | 0 <= k < |pushed|
      ensures FrameOk(g, src, paths + [grown], pushed[k], grown[..k])
    {
      if k < |stack| {
        assert grown[..k] == trail[..k];
        assert FrameOk(g, src, paths, stack[k], trail[..k]);
      }
    }
    forall k | 0 <= k < |pushed| - 1
      ensures CameBy(pushed[k], grown[k])
    {
      if k < |stack| - 1 {
        assert CameBy(stack[k], trail[k]);
      }
    }
  }

  lemma PopWork(g: GroupGraph, cfg: Config, stack: seq<PathFrame>)
    requires 0 < |stack| <= cfg.maxDepth + 1
    ensures WorkLeft(g, cfg, stack[..|stack| - 1]) < WorkLeft(g, cfg, stack)
  {
    assert Remaining(stack[..|stack| - 1]) == Remaining(stack)[..|stack| - 1];
  }

  lemma RejectWork(g: GroupGraph, cfg: Config, stack: seq<PathFrame>)
    requires 0 < |stack| <= cfg.maxDepth + 1 && stack[|stack| - 1].cursor < |stack[|stack| - 1].edges|
    ensures WorkLeft(g, cfg, Advanced(stack)) < WorkLeft(g, cfg, stack)
  {
    var top, before := |stack| - 1, Remaining(stack);
    assert Remaining(Advanced(stack)) == before[top := before[top] - 1];
    WorkOfStep(Widest(g.edges), cfg.maxDepth, before, before[top] - 1);
  }

  lemma PushWork(g: GroupGraph, cfg: Config, stack: seq<PathFrame>, child: nat, group: nat)
    requires 0 < |stack| <= cfg.maxDepth && stack[|stack| - 1].cursor < |stack[|stack| - 1].edges| && group < |g.edges|
    ensures WorkLeft(g, cfg, Advanced(stack) + [PathFrame(child, g.edges[group], 0)]) < WorkLeft(g, cfg, stack)
  {
    var top, before := |stack| - 1, Remaining(stack);
    var pushed := Advanced(stack) + [PathFrame(child, g.edges[group], 0)];
    assert Remaining(pushed) == before[top := before[top] - 1] + [|g.edges[group]|];
    WorkOfPush(Widest(g.edges), cfg.maxDepth, before, before[top] - 1, |g.edges[group]|);
  }

  /** One turn of the loop that considers the next portal of the top frame. */
  method ConsiderEdge(g: GroupGraph, cfg: Config, tree: PathSearchTree, onPath: array<bool>, stack: seq<PathFrame>,
                      ghost src: nat, ghost trail: Path, ghost lost: Path)
    returns (stack': seq<PathFrame>, ghost trail': Path, ghost lost': Path)
    requires ValidGraph(g, cfg.bandCount) && TreeOk(g, cfg, src, tree.nodes, tree.paths, tree.leaves)
    requires SearchState(g, cfg, src, tree.paths, tree.truncated, stack, trail, onPath[..], lost) && stack != []
    requires stack[|stack| - 1].cursor < |stack[|stack| - 1].edges|
    modifies tree, onPath
    ensures TreeOk(g, cfg, src, tree.nodes, tree.paths, tree.leaves)
    ensures SearchState(g, cfg, src, tree.paths, tree.truncated, stack', trail', onPath[..], lost')
    ensures WorkLeft(g, cfg, stack') < WorkLeft(g, cfg, stack)
  {
    hide TreeOk, WorkLeft, Survives, Gain;
    var frame := stack[|stack| - 1];
    var edge := frame.edges[frame.cursor];
    ghost var marks, paths, truncated := onPath[..], tree.paths, tree.truncated;
    TopFrame(g, cfg, src, tree.nodes, paths, tree.leaves, stack, trail);
    ProgressAfterPush(g, cfg, src, paths, stack, trail, edge, |paths|, truncated, lost);
    var child, ok := GrowPath(g, cfg, tree, frame.node, edge, onPath, src);
    if !ok {
      RejectWork(g, cfg, stack);
      RejectStep(g, cfg, src, paths, truncated, stack, trail, marks, lost, edge);
      stack', trail', lost' := Advanced(stack), trail, if truncated || onPath[edge.toGroup] then lost else trail + [edge];
    } else {
      PushWork(g, cfg, stack, child, edge.toGroup);
      PushStep(g, cfg, src, paths, truncated, stack, trail, marks, lost, edge);
      onPath[edge.toGroup] := true;
      assert onPath[..] == marks[edge.toGroup := true];
      stack', trail', lost' := Advanced(stack) + [PathFrame(child, g.edges[edge.toGroup], 0)], trail + [edge], lost;
    }
  }

  lemma TopFrame(g: GroupGraph, cfg: Config, src: nat, nodes: seq<PathNode>, paths: seq<Path>, leaves: seq<nat>,
                 stack: seq<PathFrame>, trail: Path)
    requires TreeOk(g, cfg, src, nodes, paths, leaves) && StackOk(g, cfg, src, paths, stack, trail) && stack != []
    ensures var f := stack[|stack| - 1];
            && f.node < |nodes| && paths[f.node] == trail && nodes[f.node].group == GroupAt(src, trail) < |g.edges|
            && f.edges == g.edges[GroupAt(src, trail)] && f.cursor <= |f.edges|
            && IsSimple(g, src, trail) && trail[..|trail|] == trail
  {
    assert trail[..|trail|] == trail;
    assert FrameOk(g, src, paths, stack[|stack| - 1], trail);
    assert NodeOk(g, cfg, src, nodes, paths, stack[|stack| - 1].node);
  }

  /** The depth-first loop. Its termination measure does not mention the node cap. */
  method ExpandPaths(g: GroupGraph, cfg: Config, tree: PathSearchTree, ghost src: nat)
    requires ValidGraph(g, cfg.bandCount) && src < |g.edges|
    requires TreeOk(g, cfg, src, tree.nodes, tree.paths, tree.leaves) && tree.paths == [[]] && !tree.truncated
    modifies tree
    ensures SearchResult(g, cfg, src, tree.nodes, tree.paths, tree.leaves, tree.truncated)
  {
    assert NodeOk(g, cfg, src, tree.nodes, tree.paths, 0);
    var onPath := new bool[|g.edges|](_ => false);
    onPath[tree.nodes[0].group] := true;
    var stack := [PathFrame(0, g.edges[tree.nodes[0].group], 0)];
    ghost var trail: Path, lost: Path := [], [];
    StartOk(g, cfg, src, onPath[..]);
    while |stack| > 0
      invariant TreeOk(g, cfg, src, tree.nodes, tree.paths, tree.leaves)
      invariant SearchState(g, cfg, src, tree.paths, tree.truncated, stack, trail, onPath[..], lost)
      decreases WorkLeft(g, cfg, stack)
    {
      var frame := stack[|stack| - 1];
      TopFrame(g, cfg, src, tree.nodes, tree.paths, tree.leaves, stack, trail);
      if frame.cursor >= |frame.edges| {
        ghost var marks := onPath[..];
        PopWork(g, cfg, stack);
        PopStep(g, cfg, src, tree.paths, tree.truncated, stack, trail, marks, lost);
        onPath[tree.nodes[frame.node].group] := false;
        assert onPath[..] == marks[GroupAt(src, trail) := false];
        stack := stack[..|stack| - 1];
        trail := if trail == [] then [] else Init(trail);
      } else {
        stack, trail, lost := ConsiderEdge(g, cfg, tree, onPath, stack, src, trail, lost);
      }
    }
  }

  /** The whole search from one source group. */
  method SearchPaths(g: GroupGraph, cfg: Config, src: nat) returns (tree: PathSearchTree)
    requires ValidGraph(g, cfg.bandCount) && src < |g.edges|
    ensures fresh(tree)
    ensures SearchResult(g, cfg, src, tree.nodes, tree.paths, tree.leaves, tree.truncated)
  {
    tree := new PathSearchTree();
    var isLeaf := src in g.receivers;
    tree.nodes := [PathNode(src, 0, -1, [], None, seq(cfg.bandCount, _ => 1.0),
                            seq(cfg.bandCount, _ => 1.0 > cfg.floor), isLeaf)];
    tree.paths := [[]];
    if isLeaf {
      tree.leaves := [0];
    }
    ExpandPaths(g, cfg, tree, src);
  }

  /** Leaves and audible receiver paths correspond one to one. */
  lemma LeavesAreTheAudiblePaths(g: GroupGraph, cfg: Config, src: nat, nodes: seq<PathNode>, paths: seq<Path>,
                                 leaves: seq<nat>, truncated: bool, q: Path)
    requires SearchResult(g, cfg, src, nodes, paths, leaves, truncated)
    requires UnitCoefficients(g) && cfg.floor < 1.0 && cfg.bandCount > 0 && |nodes| < cfg.maxNodes
    ensures (IsSimple(g, src, q) && |q| <= cfg.maxDepth && GroupAt(src, q) in g.receivers && Audible(g, cfg, q))
            <==> exists i :: i in leaves && paths[i] == q
    ensures forall i, j :: i in leaves && j in leaves && paths[i] == paths[j] ==> i == j
  {
    PruningIsLossless(g, cfg, q);
    assert Gain(g, [], 0) > cfg.floor;
    if Admissible(g, cfg, src, q) {
      var i :| 0 <= i < |paths| && paths[i] == q;
      assert NodeOk(g, cfg, src, nodes, paths, i);
    }
    forall i | i in leaves
      ensures Admissible(g, cfg, src, paths[i]) && GroupAt(src, paths[i]) in g.receivers
    {
      assert NodeOk(g, cfg, src, nodes, paths, i);
    }
  }
}
