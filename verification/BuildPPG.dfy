/** Folding the path search tree into the propagation path graph (hybrid/ppg.go).

  The tree root becomes the source node, portal traversals become portal filter nodes shared
  between paths that reach them the same way at the same depth, group residencies become
  edges, and every leaf merges into one receiver node.
*/
module BuildPPG {
  import opened Finite
  import opened PathSearch
  import opened PropagationGraph
  import opened Wrappers

  const SOURCE: nat := 0
  const RECEIVER: nat := 1

  datatype NodeKey = NodeKey(portalIndex: int, reversed: bool, depth: nat)

  datatype EdgeKey = EdgeKey(from: nat, to: nat, group: nat)

  /** One tree node's share in one edge. */
  datatype Share = Share(key: EdgeKey, node: nat)

  /** What the construction needs of a search tree. */
  ghost predicate SearchTree(tree: seq<PathNode>, bandCount: nat) {
    && |tree| >= 1 && tree[0].step.None? && tree[0].depth == 0
    && (forall i | 0 < i < |tree| :: tree[i].step.Some? && 0 <= tree[i].parent < i && tree[i].depth == tree[tree[i].parent].depth + 1)
    && (forall i | 0 <= i < |tree| :: |tree[i].activeBands| == |tree[i].transmission| == bandCount)
    && ChildrenOk(tree)
  }

  lemma SearchTreesQualify(g: GroupGraph, cfg: Config, src: nat, nodes: seq<PathNode>, paths: seq<Path>, leaves: seq<nat>)
    requires TreeOk(g, cfg, src, nodes, paths, leaves)
    ensures SearchTree(nodes, cfg.bandCount)
  {
    assert NodeOk(g, cfg, src, nodes, paths, 0);
    forall i | 0 <= i < |nodes|
      ensures |nodes[i].activeBands| == |nodes[i].transmission| == cfg.bandCount
      ensures i > 0 ==> nodes[i].step.Some? && 0 <= nodes[i].parent < i && nodes[i].depth == nodes[nodes[i].parent].depth + 1
    {
      assert NodeOk(g, cfg, src, nodes, paths, i);
      if i > 0 {
        assert NodeOk(g, cfg, src, nodes, paths, nodes[i].parent);
      }
    }
  }

  function KeyOf(n: PathNode): NodeKey
    requires n.step.Some?
  {
    NodeKey(n.step.value.portal.view.portalIndex, n.step.value.portal.view.reversed, n.depth)
  }

  function EdgeKeyOf(e: PPGEdge): EdgeKey {
    EdgeKey(e.from, e.to, e.group)
  }

  // ---------- Portal nodes ----------

  /** Graph node `v >= 2` is the filter of `keys[v]`; tree node `i` enters by filter `nodeOf[i]`. */
  ghost predicate Numbered(tree: seq<PathNode>, k: nat, nodes: seq<PPGNode>, keys: seq<NodeKey>, nodeOf: seq<nat>) {
    && k <= |tree| == |nodeOf| && |nodes| == |keys| >= 2
    && nodes[SOURCE].kind.SourceNode? && nodes[RECEIVER].kind.ReceiverNode?
    && (forall v | 2 <= v < |nodes| ::
          nodes[v].kind.PortalNode? && nodes[v].portalIndex == keys[v].portalIndex && nodes[v].reversed == keys[v].reversed)
    && (forall v, w | 2 <= v < w < |keys| :: keys[v] != keys[w])
    && (k > 0 ==> nodeOf[0] == SOURCE)
    && (forall i | 0 < i < k :: tree[i].step.Some? && 2 <= nodeOf[i] < |keys| && keys[nodeOf[i]] == KeyOf(tree[i]))
    && (forall v | 0 <= v < |nodes| :: nodes[v].incoming == [] && nodes[v].outgoing == [])
  }

  ghost predicate Indexed(keys: seq<NodeKey>, index: map<NodeKey, nat>) {
    && (forall key | key in index :: 2 <= index[key] < |keys| && keys[index[key]] == key)
    && (forall v | 2 <= v < |keys| :: keys[v] in index)
  }

  lemma NewFilter(tree: seq<PathNode>, k: nat, nodes: seq<PPGNode>, keys: seq<NodeKey>, nodeOf: seq<nat>, index: map<NodeKey, nat>, key: NodeKey)
    requires Numbered(tree, k, nodes, keys, nodeOf) && Indexed(keys, index) && key !in index
    ensures Numbered(tree, k, nodes + [PPGNode(PortalNode, key.portalIndex, key.reversed, [], [])], keys + [key], nodeOf)
    ensures Indexed(keys + [key], index[key := |nodes|])
  {
  }

  lemma KnownFilter(tree: seq<PathNode>, i: nat, nodes: seq<PPGNode>, keys: seq<NodeKey>, nodeOf: seq<nat>, index: map<NodeKey, nat>)
    requires Numbered(tree, i, nodes, keys, nodeOf) && Indexed(keys, index)
    requires 0 < i < |tree| && tree[i].step.Some? && KeyOf(tree[i]) in index
    ensures Numbered(tree, i + 1, nodes, keys, nodeOf[i := index[KeyOf(tree[i])]])
  {
  }

  method NumberPortals(tree: seq<PathNode>, ghost bandCount: nat)
    returns (nodes: seq<PPGNode>, nodeOf: seq<nat>, ghost keys: seq<NodeKey>)
    requires SearchTree(tree, bandCount)
    ensures Numbered(tree, |tree|, nodes, keys, nodeOf)
  {
    nodes := [PPGNode(SourceNode, -1, false, [], []), PPGNode(ReceiverNode, -1, false, [], [])];
    keys := [NodeKey(-1, false, 0), NodeKey(-1, false, 0)];
    nodeOf := seq(|tree|, _ => SOURCE);
    var index: map<NodeKey, nat> := map[];
    for i := 0 to |tree|
      invariant Numbered(tree, i, nodes, keys, nodeOf) && Indexed(keys, index)
      invariant nodeOf[0] == SOURCE
    {
      if i > 0 {
        var key := KeyOf(tree[i]);
        if key !in index {
          NewFilter(tree, i, nodes, keys, nodeOf, index, key);
          index := index[key := |nodes|];
          nodes := nodes + [PPGNode(PortalNode, key.portalIndex, key.reversed, [], [])];
          keys := keys + [key];
        }
        KnownFilter(tree, i, nodes, keys, nodeOf, index);
        nodeOf := nodeOf[i := index[key]];
      }
    }
  }

  // ---------- Edges ----------

  /** Tree node `i` has a share in the edge of `key`. */
  ghost predicate SharesIn(tree: seq<PathNode>, shares: seq<Share>, key: EdgeKey, i: nat) {
    i < |tree| && Share(key, i) in shares
  }

  ghost predicate ActiveShare(tree: seq<PathNode>, shares: seq<Share>, key: EdgeKey, i: nat, b: nat) {
    SharesIn(tree, shares, key, i) && b < |tree[i].activeBands| && tree[i].activeBands[b]
  }

  ghost predicate ValueShare(tree: seq<PathNode>, shares: seq<Share>, key: EdgeKey, i: nat, b: nat, value: real) {
    SharesIn(tree, shares, key, i) && b < |tree[i].transmission| && tree[i].transmission[b] == value
  }

  /** In band `b` the flag is the disjunction and the value the maximum over the shares. */
  ghost predicate BandMerged(tree: seq<PathNode>, shares: seq<Share>, key: EdgeKey, b: nat, active: bool, value: real) {
    && (active <==> exists i: nat :: ActiveShare(tree, shares, key, i, b))
    && (forall i: nat, x: real :: ValueShare(tree, shares, key, i, b, x) ==> x <= value)
    && (exists i: nat :: ValueShare(tree, shares, key, i, b, value))
  }

  ghost predicate Merged(tree: seq<PathNode>, bandCount: nat, e: PPGEdge, shares: seq<Share>) {
    && |e.activeBands| == |e.transmission| == bandCount
    && (forall b: nat | b < bandCount :: EdgeBand(tree, shares, e, b))
  }

  ghost predicate EdgeBand(tree: seq<PathNode>, shares: seq<Share>, e: PPGEdge, b: nat) {
    && b < |e.activeBands| && b < |e.transmission|
    && BandMerged(tree, shares, EdgeKeyOf(e), b, e.activeBands[b], e.transmission[b])
  }

  function MergeMask(a: seq<bool>, b: seq<bool>): seq<bool> {
    seq(|a|, i requires 0 <= i < |a| => a[i] || (i < |b| && b[i]))
  }

  function MergeMax(a: seq<real>, b: seq<real>): seq<real> {
    seq(|a|, i requires 0 <= i < |a| => if i < |b| && b[i] > a[i] then b[i] else a[i])
  }

  /** The edge after one more tree node has been merged into it. */
  function Widened(e: PPGEdge, n: PathNode): PPGEdge {
    e.(activeBands := MergeMask(e.activeBands, n.activeBands), transmission := MergeMax(e.transmission, n.transmission))
  }

  function Rewrite(edges: seq<PPGEdge>, k: nat, n: PathNode): seq<PPGEdge>
    requires k < |edges|
  {
    edges[k := Widened(edges[k], n)]
  }

  lemma FirstShare(tree: seq<PathNode>, shares: seq<Share>, key: EdgeKey, i: nat, b: nat)
    requires i < |tree| && b < |tree[i].activeBands| == |tree[i].transmission|
    requires forall j: nat :: !SharesIn(tree, shares, key, j)
    ensures BandMerged(tree, shares + [Share(key, i)], key, b, tree[i].activeBands[b], tree[i].transmission[b])
  {
    var all := shares + [Share(key, i)];
    forall j: nat
      ensures SharesIn(tree, all, key, j) <==> j == i
    {
      assert SharesIn(tree, all, key, j) ==> SharesIn(tree, shares, key, j) || j == i;
    }
    assert tree[i].activeBands[b] ==> ActiveShare(tree, all, key, i, b);
    assert ValueShare(tree, all, key, i, b, tree[i].transmission[b]);
  }

  lemma NextShare(tree: seq<PathNode>, shares: seq<Share>, key: EdgeKey, i: nat, b: nat, active: bool, value: real)
    requires i < |tree| && b < |tree[i].activeBands| == |tree[i].transmission|
    requires BandMerged(tree, shares, key, b, active, value)
    ensures BandMerged(tree, shares + [Share(key, i)], key, b, active || tree[i].activeBands[b],
                       if tree[i].transmission[b] > value then tree[i].transmission[b] else value)
  {
    var all := shares + [Share(key, i)];
    assert forall j: nat :: SharesIn(tree, all, key, j) <==> SharesIn(tree, shares, key, j) || j == i;
    if active {
      var j: nat :| ActiveShare(tree, shares, key, j, b);
      assert ActiveShare(tree, all, key, j, b);
    }
    if tree[i].activeBands[b] {
      assert ActiveShare(tree, all, key, i, b);
    }
    if j: nat :| ActiveShare(tree, all, key, j, b) {
      assert j == i || ActiveShare(tree, shares, key, j, b);
    }
    var j: nat :| ValueShare(tree, shares, key, j, b, value);
    assert ValueShare(tree, all, key, j, b, value) && ValueShare(tree, all, key, i, b, tree[i].transmission[b]);
    forall k: nat, x: real | ValueShare(tree, all, key, k, b, x)
      ensures x == tree[i].transmission[b] || x <= value
    {
      assert k == i || ValueShare(tree, shares, key, k, b, x);
    }
  }

  lemma OtherShare(tree: seq<PathNode>, shares: seq<Share>, key: EdgeKey, other: EdgeKey, i: nat, b: nat, active: bool, value: real)
    requires BandMerged(tree, shares, key, b, active, value) && key != other
    ensures BandMerged(tree, shares + [Share(other, i)], key, b, active, value)
  {
    var all := shares + [Share(other, i)];
    assert forall j: nat :: SharesIn(tree, all, key, j) <==> SharesIn(tree, shares, key, j);
    assert forall j: nat :: ActiveShare(tree, all, key, j, b) <==> ActiveShare(tree, shares, key, j, b);
    assert forall j: nat, x: real :: ValueShare(tree, all, key, j, b, x) <==> ValueShare(tree, shares, key, j, b, x);
  }

  // ---------- The graph under construction ----------

  ghost predicate EdgesIndexed(edges: seq<PPGEdge>, index: map<EdgeKey, nat>, shares: seq<Share>) {
    && (forall key | key in index :: index[key] < |edges| && EdgeKeyOf(edges[index[key]]) == key)
    && (forall e | 0 <= e < |edges| :: EdgeKeyOf(edges[e]) in index && index[EdgeKeyOf(edges[e])] == e)
    && (forall s | 0 <= s < |shares| :: shares[s].key in index)
    && (forall key | key in index :: HasKey(shares, key))
  }

  ghost predicate HasKey(shares: seq<Share>, key: EdgeKey) {
    exists s :: 0 <= s < |shares| && shares[s].key == key
  }

  lemma KeysGrow(shares: seq<Share>, s: Share)
    ensures HasKey(shares + [s], s.key)
    ensures forall key :: HasKey(shares, key) ==> HasKey(shares + [s], key)
  {
    assert (shares + [s])[|shares|] == s;
    forall key | HasKey(shares, key)
      ensures HasKey(shares + [s], key)
    {
      var k :| 0 <= k < |shares| && shares[k].key == key;
      assert (shares + [s])[k].key == key;
    }
  }

  ghost predicate EdgesOk(tree: seq<PathNode>, bandCount: nat, nodes: seq<PPGNode>, edges: seq<PPGEdge>,
                          index: map<EdgeKey, nat>, shares: seq<Share>)
  {
    && Consistent(nodes, edges) && EntriesListed(nodes, edges)
    && EdgesIndexed(edges, index, shares)
    && (forall e | 0 <= e < |edges| :: Merged(tree, bandCount, edges[e], shares))
  }

  /** The in-lists file every edge once, under the node it enters. */
  ghost predicate EntriesListed(nodes: seq<PPGNode>, edges: seq<PPGEdge>) {
    && (forall v | 0 <= v < |nodes| :: InListOk(nodes[v].incoming, edges, v))
    && (forall e | 0 <= e < |edges| :: FiledEntry(nodes, edges, e))
  }

  ghost predicate InListOk(list: seq<nat>, edges: seq<PPGEdge>, v: nat) {
    NoRepeats(list) && forall k | 0 <= k < |list| :: list[k] < |edges| && edges[list[k]].to == v
  }

  ghost predicate FiledEntry(nodes: seq<PPGNode>, edges: seq<PPGEdge>, e: nat) {
    e < |edges| && edges[e].to < |nodes| && e in nodes[edges[e].to].incoming
  }

  /** The same node apart from its edge lists. */
  ghost predicate SameFilter(a: PPGNode, b: PPGNode) {
    a.kind == b.kind && a.portalIndex == b.portalIndex && a.reversed == b.reversed
  }

  function WithOutgoing(nodes: seq<PPGNode>, v: nat, e: nat): seq<PPGNode>
    requires v < |nodes|
  {
    nodes[v := nodes[v].(outgoing := nodes[v].outgoing + [e])]
  }

  function WithIncoming(nodes: seq<PPGNode>, v: nat, e: nat): seq<PPGNode>
    requires v < |nodes|
  {
    nodes[v := nodes[v].(incoming := nodes[v].incoming + [e])]
  }

  lemma EdgeAppended(nodes: seq<PPGNode>, edges: seq<PPGEdge>, e: PPGEdge)
    requires Consistent(nodes, edges) && e.from < |nodes| && e.to < |nodes|
    ensures Consistent(WithIncoming(WithOutgoing(nodes, e.from, |edges|), e.to, |edges|), edges + [e])
  {
    var two := WithIncoming(WithOutgoing(nodes, e.from, |edges|), e.to, |edges|);
    forall v: nat | v < |nodes|
      ensures OutListOk(two[v].outgoing, edges + [e], v)
    {
      assert OutListOk(nodes[v].outgoing, edges, v);
    }
    forall k: nat | k < |edges + [e]|
      ensures Filed(two, edges + [e], k)
    {
      assert k < |edges| ==> Filed(nodes, edges, k);
    }
  }

  lemma EdgeRewritten(nodes: seq<PPGNode>, edges: seq<PPGEdge>, k: nat, e: PPGEdge)
    requires Consistent(nodes, edges) && k < |edges| && EdgeKeyOf(e) == EdgeKeyOf(edges[k])
    ensures Consistent(nodes, edges[k := e])
  {
    var all := edges[k := e];
    forall v: nat | v < |nodes|
      ensures OutListOk(nodes[v].outgoing, all, v)
    {
      assert OutListOk(nodes[v].outgoing, edges, v);
    }
    forall j: nat | j < |edges|
      ensures Filed(nodes, all, j)
    {
      assert Filed(nodes, edges, j);
    }
  }

  lemma EntryAppended(nodes: seq<PPGNode>, edges: seq<PPGEdge>, e: PPGEdge)
    requires EntriesListed(nodes, edges) && e.from < |nodes| && e.to < |nodes|
    ensures EntriesListed(WithIncoming(WithOutgoing(nodes, e.from, |edges|), e.to, |edges|), edges + [e])
  {
    var two, all := WithIncoming(WithOutgoing(nodes, e.from, |edges|), e.to, |edges|), edges + [e];
    forall v: nat | v < |nodes|
      ensures InListOk(two[v].incoming, all, v)
    {
      assert InListOk(nodes[v].incoming, edges, v);
    }
    forall k: nat | k < |all|
      ensures FiledEntry(two, all, k)
    {
      assert k < |edges| ==> FiledEntry(nodes, edges, k);
    }
  }

  lemma EntryRewritten(nodes: seq<PPGNode>, edges: seq<PPGEdge>, k: nat, e: PPGEdge)
    requires EntriesListed(nodes, edges) && k < |edges| && EdgeKeyOf(e) == EdgeKeyOf(edges[k])
    ensures EntriesListed(nodes, edges[k := e])
  {
    var all := edges[k := e];
    forall v: nat | v < |nodes|
      ensures InListOk(nodes[v].incoming, all, v)
    {
      assert InListOk(nodes[v].incoming, edges, v);
    }
    forall j: nat | j < |edges|
      ensures FiledEntry(nodes, all, j)
    {
      assert FiledEntry(nodes, edges, j);
    }
  }

  lemma MergedAppended(tree: seq<PathNode>, bandCount: nat, edges: seq<PPGEdge>, index: map<EdgeKey, nat>, shares: seq<Share>, key: EdgeKey, i: nat)
    requires EdgesIndexed(edges, index, shares) && key !in index
    requires i < |tree| && |tree[i].activeBands| == |tree[i].transmission| == bandCount
    requires forall e | 0 <= e < |edges| :: Merged(tree, bandCount, edges[e], shares)
    ensures var edge := PPGEdge(key.from, key.to, key.group, tree[i].activeBands, tree[i].transmission);
            && EdgesIndexed(edges + [edge], index[key := |edges|], shares + [Share(key, i)])
            && (forall e | 0 <= e < |edges| + 1 :: Merged(tree, bandCount, (edges + [edge])[e], shares + [Share(key, i)]))
  {
    var edge := PPGEdge(key.from, key.to, key.group, tree[i].activeBands, tree[i].transmission);
    KeysGrow(shares, Share(key, i));
    assert forall j: nat :: !SharesIn(tree, shares, key, j);
    forall e | 0 <= e < |edges| + 1
      ensures Merged(tree, bandCount, (edges + [edge])[e], shares + [Share(key, i)])
    {
      forall b: nat | b < bandCount
        ensures EdgeBand(tree, shares + [Share(key, i)], (edges + [edge])[e], b)
      {
        if e < |edges| {
          assert Merged(tree, bandCount, edges[e], shares) && EdgeBand(tree, shares, edges[e], b);
          OtherShare(tree, shares, EdgeKeyOf(edges[e]), key, i, b, edges[e].activeBands[b], edges[e].transmission[b]);
        } else {
          FirstShare(tree, shares, key, i, b);
        }
      }
    }
  }

  lemma MergedRewritten(tree: seq<PathNode>, bandCount: nat, edges: seq<PPGEdge>, index: map<EdgeKey, nat>, shares: seq<Share>, key: EdgeKey, i: nat)
    requires EdgesIndexed(edges, index, shares) && key in index
    requires i < |tree| && |tree[i].activeBands| == |tree[i].transmission| == bandCount
    requires forall e | 0 <= e < |edges| :: Merged(tree, bandCount, edges[e], shares)
    ensures EdgesIndexed(Rewrite(edges, index[key], tree[i]), index, shares + [Share(key, i)])
    ensures forall e | 0 <= e < |edges| :: Merged(tree, bandCount, Rewrite(edges, index[key], tree[i])[e], shares + [Share(key, i)])
  {
    KeysGrow(shares, Share(key, i));
    var k, all := index[key], Rewrite(edges, index[key], tree[i]);
    assert forall e | 0 <= e < |edges| :: EdgeKeyOf(all[e]) == EdgeKeyOf(edges[e]);
    forall e | 0 <= e < |edges|
      ensures Merged(tree, bandCount, all[e], shares + [Share(key, i)])
    {
      assert Merged(tree, bandCount, edges[e], shares);
      forall b: nat | b < bandCount
        ensures EdgeBand(tree, shares + [Share(key, i)], all[e], b)
      {
        assert EdgeBand(tree, shares, edges[e], b);
        if e == k {
          NextShare(tree, shares, key, i, b, edges[k].activeBands[b], edges[k].transmission[b]);
        } else {
          OtherShare(tree, shares, EdgeKeyOf(edges[e]), key, i, b, edges[e].activeBands[b], edges[e].transmission[b]);
        }
      }
    }
  }

  class PPG {
    var nodes: seq<PPGNode>
    var edges: seq<PPGEdge>

    constructor (nodes: seq<PPGNode>)
      ensures this.nodes == nodes && edges == []
    {
      this.nodes, edges := nodes, [];
    }

    /** Adds tree node `i`'s residency to the edge of `key`, creating the edge on first use. */
    method MergeEdge(index: map<EdgeKey, nat>, key: EdgeKey, tree: seq<PathNode>, i: nat, ghost bandCount: nat, ghost shares: seq<Share>)
      returns (index': map<EdgeKey, nat>)
      requires EdgesOk(tree, bandCount, nodes, edges, index, shares)
      requires i < |tree| && |tree[i].activeBands| == |tree[i].transmission| == bandCount
      requires key.from < |nodes| && key.to < |nodes|
      modifies this
      ensures EdgesOk(tree, bandCount, nodes, edges, index', shares + [Share(key, i)])
      ensures |nodes| == |old(nodes)| && forall v | 0 <= v < |nodes| :: SameFilter(nodes[v], old(nodes)[v])
    {
      if key !in index {
        MergedAppended(tree, bandCount, edges, index, shares, key, i);
        var edge := PPGEdge(key.from, key.to, key.group, tree[i].activeBands, tree[i].transmission);
        EdgeAppended(nodes, edges, edge);
        EntryAppended(nodes, edges, edge);
        hide Consistent, EntriesListed, Merged;
        index' := index[key := |edges|];
        nodes := WithOutgoing(nodes, key.from, |edges|);
        nodes := WithIncoming(nodes, key.to, |edges|);
        edges := edges + [edge];
      } else {
        MergedRewritten(tree, bandCount, edges, index, shares, key, i);
        index' := index;
        EdgeRewritten(nodes, edges, index[key], Widened(edges[index[key]], tree[i]));
        EntryRewritten(nodes, edges, index[key], Widened(edges[index[key]], tree[i]));
        hide Consistent, EntriesListed, Merged;
        edges := Rewrite(edges, index[key], tree[i]);
      }
    }
  }

  // ---------- The shares of a tree ----------

  function ChildShare(tree: seq<PathNode>, nodeOf: seq<nat>, i: nat, c: nat): Share
    requires i < |tree| == |nodeOf| && c < |tree|
  {
    Share(EdgeKey(nodeOf[i], nodeOf[c], tree[i].group), i)
  }

  function LeafShare(tree: seq<PathNode>, nodeOf: seq<nat>, i: nat): Share
    requires i < |tree| == |nodeOf|
  {
    Share(EdgeKey(nodeOf[i], RECEIVER, tree[i].group), i)
  }

  ghost predicate ShareFromChild(tree: seq<PathNode>, nodeOf: seq<nat>, s: Share, c: nat)
    requires |nodeOf| == |tree|
  {
    s.node < |tree| && c < |tree| && tree[c].parent == s.node && s == ChildShare(tree, nodeOf, s.node, c)
  }

  /** A residency is shared with every filter leaving it, and with the receiver at a leaf. */
  ghost predicate IsShare(tree: seq<PathNode>, nodeOf: seq<nat>, s: Share)
    requires |nodeOf| == |tree|
  {
    || (exists c :: ShareFromChild(tree, nodeOf, s, c))
    || (s.node < |tree| && tree[s.node].isLeaf && s == LeafShare(tree, nodeOf, s.node))
  }

  /** The shares collected so far are those of the tree nodes below `n`. */
  ghost predicate SharesBelow(tree: seq<PathNode>, nodeOf: seq<nat>, shares: seq<Share>, n: nat)
    requires |nodeOf| == |tree|
  {
    && (forall k | 0 <= k < |shares| :: IsShare(tree, nodeOf, shares[k]))
    && (forall s | IsShare(tree, nodeOf, s) && s.node < n :: s in shares)
  }

  /** Graph and tree correspond: filters by (portal, direction, depth), edges by their shares. */
  ghost predicate IsPPG(tree: seq<PathNode>, bandCount: nat, nodes: seq<PPGNode>, edges: seq<PPGEdge>, keys: seq<NodeKey>,
                        nodeOf: seq<nat>, index: map<EdgeKey, nat>, shares: seq<Share>)
  {
    && |nodeOf| == |tree| && |nodes| == |keys| >= 2
    && (forall v | 2 <= v < |nodes| ::
          nodes[v].kind.PortalNode? && nodes[v].portalIndex == keys[v].portalIndex && nodes[v].reversed == keys[v].reversed)
    && (forall v, w | 2 <= v < w < |keys| :: keys[v] != keys[w])
    && (forall i | 0 <= i < |tree| :: Entered(tree, keys, nodeOf, i))
    && EdgesOk(tree, bandCount, nodes, edges, index, shares)
    && SharesBelow(tree, nodeOf, shares, |tree|)
  }

  ghost predicate Entered(tree: seq<PathNode>, keys: seq<NodeKey>, nodeOf: seq<nat>, i: nat)
    requires i < |tree| == |nodeOf|
  {
    if i == 0 then nodeOf[i] == SOURCE
    else tree[i].step.Some? && 2 <= nodeOf[i] < |keys| && keys[nodeOf[i]] == KeyOf(tree[i])
  }

  /** Merges the residency of tree node `i` into the graph: one edge per child, one to the receiver at a leaf. */
  method MergeNode(graph: PPG, tree: seq<PathNode>, nodeOf: seq<nat>, i: nat, index0: map<EdgeKey, nat>,
                   ghost bandCount: nat, ghost shares0: seq<Share>)
    returns (index: map<EdgeKey, nat>, ghost shares: seq<Share>)
    requires SearchTree(tree, bandCount) && i < |tree| == |nodeOf| && |graph.nodes| >= 2
    requires forall k | 0 <= k < |nodeOf| :: nodeOf[k] < |graph.nodes|
    requires EdgesOk(tree, bandCount, graph.nodes, graph.edges, index0, shares0) && SharesBelow(tree, nodeOf, shares0, i)
    modifies graph
    ensures EdgesOk(tree, bandCount, graph.nodes, graph.edges, index, shares) && SharesBelow(tree, nodeOf, shares, i + 1)
    ensures |graph.nodes| == |old(graph.nodes)| && forall v | 0 <= v < |graph.nodes| :: SameFilter(graph.nodes[v], old(graph.nodes)[v])
  {
    hide EdgesOk;
    index, shares := index0, shares0;
    var children := tree[i].children;
    ghost var before := graph.nodes;
    for k := 0 to |children|
      invariant |graph.nodes| == |before| && forall v | 0 <= v < |before| :: SameFilter(graph.nodes[v], before[v])
      invariant EdgesOk(tree, bandCount, graph.nodes, graph.edges, index, shares) && SharesBelow(tree, nodeOf, shares, i)
      invariant forall l | 0 <= l < k :: children[l] < |tree| && ChildShare(tree, nodeOf, i, children[l]) in shares
    {
      var c := children[k];
      assert tree[c].parent == i;
      assert ShareFromChild(tree, nodeOf, ChildShare(tree, nodeOf, i, c), c);
      SharesGrow(tree, nodeOf, shares, i, ChildShare(tree, nodeOf, i, c));
      index := graph.MergeEdge(index, EdgeKey(nodeOf[i], nodeOf[c], tree[i].group), tree, i, bandCount, shares);
      shares := shares + [ChildShare(tree, nodeOf, i, c)];
    }
    if tree[i].isLeaf {
      SharesGrow(tree, nodeOf, shares, i, LeafShare(tree, nodeOf, i));
      index := graph.MergeEdge(index, EdgeKey(nodeOf[i], RECEIVER, tree[i].group), tree, i, bandCount, shares);
      shares := shares + [LeafShare(tree, nodeOf, i)];
    }
    forall s | IsShare(tree, nodeOf, s) && s.node == i
      ensures s in shares
    {
      if c: nat :| ShareFromChild(tree, nodeOf, s, c) {
        assert c in tree[tree[c].parent].children;
      }
    }
  }

  lemma SharesGrow(tree: seq<PathNode>, nodeOf: seq<nat>, shares: seq<Share>, n: nat, s: Share)
    requires |nodeOf| == |tree| && SharesBelow(tree, nodeOf, shares, n) && IsShare(tree, nodeOf, s)
    ensures SharesBelow(tree, nodeOf, shares + [s], n)
    ensures forall x :: x in shares ==> x in shares + [s]
  {
  }

  /** Converts a path search tree into a propagation path graph. */
  method Build(tree: seq<PathNode>, ghost bandCount: nat)
    returns (graph: PPG, nodeOf: seq<nat>, ghost keys: seq<NodeKey>, ghost index: map<EdgeKey, nat>, ghost shares: seq<Share>)
    requires SearchTree(tree, bandCount)
    ensures fresh(graph) && IsPPG(tree, bandCount, graph.nodes, graph.edges, keys, nodeOf, index, shares)
  {
    var nodes;
    nodes, nodeOf, keys := NumberPortals(tree, bandCount);
    graph := new PPG(nodes);
    var edgeIndex: map<EdgeKey, nat> := map[];
    shares := [];
    assert EdgesOk(tree, bandCount, graph.nodes, graph.edges, edgeIndex, shares);
    for i := 0 to |tree|
      invariant fresh(graph) && |graph.nodes| == |nodes| && forall v | 0 <= v < |nodes| :: SameFilter(graph.nodes[v], nodes[v])
      invariant EdgesOk(tree, bandCount, graph.nodes, graph.edges, edgeIndex, shares) && SharesBelow(tree, nodeOf, shares, i)
    {
      edgeIndex, shares := MergeNode(graph, tree, nodeOf, i, edgeIndex, bandCount, shares);
    }
    index := edgeIndex;
  }

  // ---------- What the graph is good for ----------

  ghost function Deepest(tree: seq<PathNode>): (d: nat)
    ensures forall i | 0 <= i < |tree| :: tree[i].depth <= d
  {
    if tree == [] then 0
    else
      var d, last := Deepest(tree[..|tree| - 1]), tree[|tree| - 1].depth;
      if d < last then last else d
  }

  /** The layer a graph node lies in: its depth, with the receiver below everything. */
  ghost function Layer(tree: seq<PathNode>, keys: seq<NodeKey>, v: nat): nat {
    if v == RECEIVER then Deepest(tree) + 1 else if v == SOURCE || v >= |keys| then 0 else keys[v].depth
  }

  lemma EdgesDescend(tree: seq<PathNode>, bandCount: nat, nodes: seq<PPGNode>, edges: seq<PPGEdge>, keys: seq<NodeKey>,
                     nodeOf: seq<nat>, index: map<EdgeKey, nat>, shares: seq<Share>, e: nat)
    requires SearchTree(tree, bandCount) && IsPPG(tree, bandCount, nodes, edges, keys, nodeOf, index, shares) && e < |edges|
    ensures edges[e].to == RECEIVER || Layer(tree, keys, edges[e].to) == Layer(tree, keys, edges[e].from) + 1
    ensures Layer(tree, keys, edges[e].from) < Layer(tree, keys, edges[e].to)
  {
    assert HasKey(shares, EdgeKeyOf(edges[e]));
    var k :| 0 <= k < |shares| && shares[k].key == EdgeKeyOf(edges[e]);
    var s := shares[k];
    assert IsShare(tree, nodeOf, s) && Entered(tree, keys, nodeOf, s.node);
    if c: nat :| ShareFromChild(tree, nodeOf, s, c) {
      assert Entered(tree, keys, nodeOf, c);
    }
  }

  lemma {:induction false} LayersRise(tree: seq<PathNode>, keys: seq<NodeKey>, edges: seq<PPGEdge>, c: seq<nat>, k: nat)
    requires forall e | 0 <= e < |edges| :: Layer(tree, keys, edges[e].from) < Layer(tree, keys, edges[e].to)
    requires k < |c| && (forall i | 0 <= i < |c| :: c[i] < |edges|)
    requires forall i | 0 <= i < |c| - 1 :: edges[c[i]].to == edges[c[i + 1]].from
    ensures Layer(tree, keys, edges[c[0]].from) < Layer(tree, keys, edges[c[k]].to)
  {
    if k > 0 {
      LayersRise(tree, keys, edges, c, k - 1);
      assert edges[c[k - 1]].to == edges[c[k - 1 + 1]].from;
    }
  }

  /** Every graph built from a search tree is acyclic. */
  lemma PPGIsAcyclic(tree: seq<PathNode>, bandCount: nat, nodes: seq<PPGNode>, edges: seq<PPGEdge>, keys: seq<NodeKey>,
                     nodeOf: seq<nat>, index: map<EdgeKey, nat>, shares: seq<Share>, c: seq<nat>)
    requires SearchTree(tree, bandCount) && IsPPG(tree, bandCount, nodes, edges, keys, nodeOf, index, shares)
    ensures !IsCycle(edges, c)
  {
    forall e | 0 <= e < |edges|
      ensures Layer(tree, keys, edges[e].from) < Layer(tree, keys, edges[e].to)
    {
      EdgesDescend(tree, bandCount, nodes, edges, keys, nodeOf, index, shares, e);
    }
    if IsCycle(edges, c) {
      LayersRise(tree, keys, edges, c, |c| - 1);
    }
  }

  /** One step of the walk a tree path takes through the graph: the residency of tree node
      `i` is edge `e`, leading to the filter of `next`, and carries all its bands. */
  ghost predicate CarriedBy(tree: seq<PathNode>, nodeOf: seq<nat>, edges: seq<PPGEdge>, i: nat, to: nat, e: nat)
    requires |nodeOf| == |tree|
  {
    && i < |tree| && e < |edges|
    && edges[e].from == nodeOf[i] && edges[e].to == to && edges[e].group == tree[i].group
    && |edges[e].activeBands| == |tree[i].activeBands| && |edges[e].transmission| == |tree[i].transmission|
    && (forall b | 0 <= b < |tree[i].activeBands| && tree[i].activeBands[b] :: edges[e].activeBands[b])
    && (forall b | 0 <= b < |tree[i].transmission| :: tree[i].transmission[b] <= edges[e].transmission[b])
  }

  lemma ShareIsCarried(tree: seq<PathNode>, bandCount: nat, nodes: seq<PPGNode>, edges: seq<PPGEdge>, keys: seq<NodeKey>,
                       nodeOf: seq<nat>, index: map<EdgeKey, nat>, shares: seq<Share>, s: Share)
    requires SearchTree(tree, bandCount) && IsPPG(tree, bandCount, nodes, edges, keys, nodeOf, index, shares)
    requires IsShare(tree, nodeOf, s) && s.node < |tree|
    ensures s.key in index && CarriedBy(tree, nodeOf, edges, s.node, s.key.to, index[s.key])
  {
    assert s in shares;
    var e := index[s.key];
    assert Merged(tree, bandCount, edges[e], shares);
    forall b: nat | b < bandCount
      ensures tree[s.node].activeBands[b] ==> edges[e].activeBands[b]
      ensures tree[s.node].transmission[b] <= edges[e].transmission[b]
    {
      assert EdgeBand(tree, shares, edges[e], b);
      assert SharesIn(tree, shares, s.key, s.node);
      assert tree[s.node].activeBands[b] ==> ActiveShare(tree, shares, s.key, s.node, b);
      assert ValueShare(tree, shares, s.key, s.node, b, tree[s.node].transmission[b]);
    }
  }

  ghost function NextFilter(nodeOf: seq<nat>, r: seq<nat>, k: nat): nat
    requires k < |r| && forall i | 0 <= i < |r| :: r[i] < |nodeOf|
  {
    if k + 1 < |r| then nodeOf[r[k + 1]] else RECEIVER
  }

  ghost function KeyAlong(tree: seq<PathNode>, nodeOf: seq<nat>, r: seq<nat>, k: nat): EdgeKey
    requires k < |r| && |tree| == |nodeOf| && forall i | 0 <= i < |r| :: r[i] < |nodeOf|
  {
    EdgeKey(nodeOf[r[k]], NextFilter(nodeOf, r, k), tree[r[k]].group)
  }

  /** Step `k` of the walk along the chain `r` is the edge filed under its key. */
  ghost predicate Step(tree: seq<PathNode>, nodeOf: seq<nat>, edges: seq<PPGEdge>, index: map<EdgeKey, nat>, r: seq<nat>, k: nat)
    requires k < |r| && |tree| == |nodeOf| && forall i | 0 <= i < |r| :: r[i] < |nodeOf|
  {
    && KeyAlong(tree, nodeOf, r, k) in index
    && CarriedBy(tree, nodeOf, edges, r[k], NextFilter(nodeOf, r, k), index[KeyAlong(tree, nodeOf, r, k)])
  }

  lemma StepIsCarried(tree: seq<PathNode>, bandCount: nat, nodes: seq<PPGNode>, edges: seq<PPGEdge>, keys: seq<NodeKey>,
                      nodeOf: seq<nat>, index: map<EdgeKey, nat>, shares: seq<Share>, r: seq<nat>, k: nat)
    requires SearchTree(tree, bandCount) && IsPPG(tree, bandCount, nodes, edges, keys, nodeOf, index, shares)
    requires IsChain(tree, r) && tree[r[|r| - 1]].isLeaf && k < |r|
    ensures Step(tree, nodeOf, edges, index, r, k)
  {
    var s := Share(KeyAlong(tree, nodeOf, r, k), r[k]);
    if k + 1 < |r| {
      assert tree[r[k + 1]].parent == r[k];
      assert ShareFromChild(tree, nodeOf, s, r[k + 1]);
    } else {
      assert s == LeafShare(tree, nodeOf, r[k]);
    }
    ShareIsCarried(tree, bandCount, nodes, edges, keys, nodeOf, index, shares, s);
  }

  lemma FilterOfStep(tree: seq<PathNode>, bandCount: nat, nodes: seq<PPGNode>, edges: seq<PPGEdge>, keys: seq<NodeKey>,
                     nodeOf: seq<nat>, index: map<EdgeKey, nat>, shares: seq<Share>, i: nat)
    requires SearchTree(tree, bandCount) && IsPPG(tree, bandCount, nodes, edges, keys, nodeOf, index, shares) && 0 < i < |tree|
    ensures SameCrossing(tree, nodes, nodeOf, i)
  {
    assert Entered(tree, keys, nodeOf, i);
  }

  /** Tree node `i` is entered by the filter of the portal, and direction, it was reached by. */
  ghost predicate SameCrossing(tree: seq<PathNode>, nodes: seq<PPGNode>, nodeOf: seq<nat>, i: nat)
    requires i < |tree| == |nodeOf|
  {
    && tree[i].step.Some? && nodeOf[i] < |nodes|
    && nodes[nodeOf[i]].portalIndex == tree[i].step.value.portal.view.portalIndex
    && nodes[nodeOf[i]].reversed == tree[i].step.value.portal.view.reversed
  }

  /** Every root-to-leaf path of the tree is a source-to-receiver walk of the graph through
      the same groups, entering each by the filter of the portal the path crossed. */
  lemma LeafPathIsWalk(tree: seq<PathNode>, bandCount: nat, nodes: seq<PPGNode>, edges: seq<PPGEdge>, keys: seq<NodeKey>,
                       nodeOf: seq<nat>, index: map<EdgeKey, nat>, shares: seq<Share>, r: seq<nat>)
    requires SearchTree(tree, bandCount) && IsPPG(tree, bandCount, nodes, edges, keys, nodeOf, index, shares)
    requires IsChain(tree, r) && tree[r[|r| - 1]].isLeaf
    ensures nodeOf[r[0]] == SOURCE
    ensures forall k | 0 <= k < |r| :: Step(tree, nodeOf, edges, index, r, k)
    ensures forall k | 0 < k < |r| :: SameCrossing(tree, nodes, nodeOf, r[k])
  {
    assert Entered(tree, keys, nodeOf, 0);
    forall k: nat | k < |r|
      ensures Step(tree, nodeOf, edges, index, r, k)
    {
      StepIsCarried(tree, bandCount, nodes, edges, keys, nodeOf, index, shares, r, k);
    }
    forall k | 0 < k < |r|
      ensures SameCrossing(tree, nodes, nodeOf, r[k])
    {
      assert tree[r[k - 1 + 1]].parent == r[k - 1];
      FilterOfStep(tree, bandCount, nodes, edges, keys, nodeOf, index, shares, r[k]);
    }
  }

  /** A band alive at a leaf is alive on every edge of the walk to it, so simulating only an
      edge's active bands never skips one a path needs. */
  lemma NoNeededBandIsSkipped(g: GroupGraph, cfg: Config, src: nat, tree: seq<PathNode>, paths: seq<Path>, leaves: seq<nat>,
                              nodeOf: seq<nat>, edges: seq<PPGEdge>, index: map<EdgeKey, nat>, r: seq<nat>, b: nat, k: nat)
    requires TreeOk(g, cfg, src, tree, paths, leaves) && UnitCoefficients(g)
    requires IsChain(tree, r) && k < |r| && |nodeOf| == |tree| && Step(tree, nodeOf, edges, index, r, k)
    requires b < |tree[r[|r| - 1]].activeBands| && tree[r[|r| - 1]].activeBands[b]
    ensures var e := edges[index[KeyAlong(tree, nodeOf, r, k)]];
            b < |e.activeBands| && e.activeBands[b]
  {
    var last := |r| - 1;
    ChainSpellsPath(g, cfg, src, tree, paths, leaves, r, last);
    GainFalls(g, paths[r[last]], k, b);
    assert NodeOk(g, cfg, src, tree, paths, r[last]) && NodeOk(g, cfg, src, tree, paths, r[k]);
  }

  lemma {:induction false} GainFalls(g: GroupGraph, p: Path, m: nat, b: nat)
    requires UnitCoefficients(g) && m <= |p|
    ensures Gain(g, p, b) <= Gain(g, p[..m], b)
    decreases |p|
  {
    if m == |p| {
      assert p[..m] == p;
    } else {
      GainBounds(g, p, b);
      GainFalls(g, Init(p), m, b);
      assert Init(p)[..m] == p[..m];
    }
  }

  /** Planning a render: the graph of a search tree always has a topological order. A tree without
      nodes is refused. */
  method Plan(tree: seq<PathNode>, ghost bandCount: nat)
    returns (graph: PPG, order: seq<nat>, ok: bool, nodeOf: seq<nat>, ghost keys: seq<NodeKey>, ghost index: map<EdgeKey, nat>, ghost shares: seq<Share>)
    requires tree == [] || SearchTree(tree, bandCount)
    ensures ok <==> tree != []
    ensures ok ==> IsPPG(tree, bandCount, graph.nodes, graph.edges, keys, nodeOf, index, shares)
    ensures ok ==> IsTopological(|graph.nodes|, graph.edges, order)
  {
    if tree == [] {
      graph := new PPG([]);
      return graph, [], false, [], [], map[], [];
    }
    graph, nodeOf, keys, index, shares := Build(tree, bandCount);
    order, ok := TopologicalOrder(graph.nodes, graph.edges);
    forall c
      ensures !IsCycle(graph.edges, c)
    {
      PPGIsAcyclic(tree, bandCount, graph.nodes, graph.edges, keys, nodeOf, index, shares, c);
    }
  }
}
