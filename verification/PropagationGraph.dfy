/** The propagation path graph and its topological order (hybrid/ppg.go). */
module PropagationGraph {
  import opened Finite

  datatype PPGNodeKind = SourceNode | PortalNode | ReceiverNode

  datatype PPGNode = PPGNode(kind: PPGNodeKind, portalIndex: int, reversed: bool, incoming: seq<nat>, outgoing: seq<nat>)

  datatype PPGEdge = PPGEdge(from: nat, to: nat, group: nat, activeBands: seq<bool>, transmission: seq<real>)

  /** The out-lists file every edge once, under the node it leaves. */
  ghost predicate Consistent(nodes: seq<PPGNode>, edges: seq<PPGEdge>) {
    && (forall v | 0 <= v < |nodes| :: OutListOk(nodes[v].outgoing, edges, v))
    && (forall e | 0 <= e < |edges| :: Filed(nodes, edges, e))
  }

  ghost predicate OutListOk(out: seq<nat>, edges: seq<PPGEdge>, v: nat) {
    NoRepeats(out) && forall k | 0 <= k < |out| :: out[k] < |edges| && edges[out[k]].from == v
  }

  ghost predicate Filed(nodes: seq<PPGNode>, edges: seq<PPGEdge>, e: nat) {
    e < |edges| && edges[e].from < |nodes| && edges[e].to < |nodes| && e in nodes[edges[e].from].outgoing
  }

  /** A closed walk of edges. */
  ghost predicate IsCycle(edges: seq<PPGEdge>, c: seq<nat>) {
    && |c| > 0 && (forall i | 0 <= i < |c| :: c[i] < |edges|)
    && (forall i | 0 <= i < |c| - 1 :: edges[c[i]].to == edges[c[i + 1]].from)
    && edges[c[|c| - 1]].to == edges[c[0]].from
  }

  /** A permutation of the nodes in which every edge leads forward. */
  ghost predicate IsTopological(nodeCount: nat, edges: seq<PPGEdge>, order: seq<nat>) {
    && |order| == nodeCount && NoRepeats(order) && (forall i | 0 <= i < |order| :: order[i] < nodeCount)
    && (forall e, i, j | 0 <= e < |edges| && 0 <= i < |order| && 0 <= j < |order|
                         && order[i] == edges[e].from && order[j] == edges[e].to :: i < j)
  }

  // ---------- An order excludes cycles ----------

  lemma {:induction false} PositionsRise(nodeCount: nat, edges: seq<PPGEdge>, order: seq<nat>, c: seq<nat>, k: nat, i: nat, j: nat)
    requires IsTopological(nodeCount, edges, order) && (forall e | 0 <= e < |edges| :: edges[e].from < nodeCount)
    requires |c| > 0 && (forall x | 0 <= x < |c| :: c[x] < |edges|) && k < |c|
    requires forall x | 0 <= x < |c| - 1 :: edges[c[x]].to == edges[c[x + 1]].from
    requires i < |order| && j < |order| && order[i] == edges[c[0]].from && order[j] == edges[c[k]].to
    ensures i < j
  {
    if k > 0 {
      DistinctBelow(order, nodeCount);
      assert edges[c[k]].from in order;
      var m :| 0 <= m < |order| && order[m] == edges[c[k]].from;
      PositionsRise(nodeCount, edges, order, c, k - 1, i, m);
    }
  }

  lemma OrderExcludesCycles(nodes: seq<PPGNode>, edges: seq<PPGEdge>, order: seq<nat>, c: seq<nat>)
    requires Consistent(nodes, edges) && IsTopological(|nodes|, edges, order)
    ensures !IsCycle(edges, c)
  {
    if IsCycle(edges, c) {
      DistinctBelow(order, |nodes|);
      forall e | 0 <= e < |edges|
        ensures edges[e].from < |nodes|
      {
        assert Filed(nodes, edges, e);
      }
      assert edges[c[0]].from in order;
      var i :| 0 <= i < |order| && order[i] == edges[c[0]].from;
      PositionsRise(|nodes|, edges, order, c, |c| - 1, i, i);
    }
  }

  // ---------- A stuck set of nodes holds a cycle ----------

  /** Every node of the set is entered from within the set. */
  ghost predicate Stuck(edges: seq<PPGEdge>, nodes: set<nat>) {
    forall v: nat {:trigger HasEntry(edges, nodes, v)} :: v in nodes ==> HasEntry(edges, nodes, v)
  }

  ghost predicate HasEntry(edges: seq<PPGEdge>, nodes: set<nat>, v: nat) {
    exists e :: 0 <= e < |edges| && edges[e].to == v && edges[e].from in nodes
  }

  ghost predicate BackwardWalk(edges: seq<PPGEdge>, nodes: set<nat>, b: seq<nat>) {
    && |b| > 0
    && (forall i | 0 <= i < |b| :: b[i] < |edges| && edges[b[i]].to in nodes && edges[b[i]].from in nodes)
    && (forall i | 0 <= i < |b| - 1 :: edges[b[i]].from == edges[b[i + 1]].to)
  }

  lemma {:induction false} WalkBack(edges: seq<PPGEdge>, nodes: set<nat>, v: nat, length: nat) returns (b: seq<nat>)
    requires Stuck(edges, nodes) && v in nodes
    ensures BackwardWalk(edges, nodes, b) && |b| == length + 1 && edges[b[0]].to == v
    decreases length
  {
    assert HasEntry(edges, nodes, v);
    var e: nat :| 0 <= e < |edges| && edges[e].to == v && edges[e].from in nodes;
    if length == 0 {
      b := [e];
    } else {
      var rest := WalkBack(edges, nodes, edges[e].from, length - 1);
      b := [e] + rest;
    }
  }

  lemma StuckHoldsCycle(edges: seq<PPGEdge>, nodes: set<nat>, v: nat, n: nat)
    requires Stuck(edges, nodes) && v in nodes && forall x | x in nodes :: x < n
    ensures exists c :: IsCycle(edges, c)
  {
    var b := WalkBack(edges, nodes, v, n);
    var tos := seq(|b|, i requires 0 <= i < |b| => edges[b[i]].to);
    Pigeonhole(tos, n);
    var i, j :| 0 <= i < j < |tos| && tos[i] == tos[j];
    var c := seq(j - i, k requires 0 <= k < j - i => b[j - 1 - k]);
    forall k | 0 <= k < |c| - 1
      ensures edges[c[k]].to == edges[c[k + 1]].from
    {
      assert edges[b[j - 2 - k]].from == edges[b[j - 2 - k + 1]].to;
    }
    assert edges[b[j - 1]].from == edges[b[j - 1 + 1]].to;
    assert IsCycle(edges, c);
  }

  // ---------- Kahn's algorithm ----------

  /** How many edges into `v` have not been removed. */
  ghost function EdgesInto(edges: seq<PPGEdge>, removed: set<nat>, v: nat): nat
    decreases |edges|
  {
    if edges == [] then 0
    else
      var last := |edges| - 1;
      EdgesInto(edges[..last], removed, v) + (if last !in removed && edges[last].to == v then 1 else 0)
  }

  lemma {:induction false} RemoveEdge(edges: seq<PPGEdge>, removed: set<nat>, e: nat, v: nat)
    requires e !in removed
    ensures EdgesInto(edges, removed + {e}, v)
            == EdgesInto(edges, removed, v) - (if e < |edges| && edges[e].to == v then 1 else 0)
    decreases |edges|
  {
    if edges != [] {
      RemoveEdge(edges[..|edges| - 1], removed, e, v);
    }
  }

  /** The count is positive exactly when some edge into `v` is left. */
  lemma {:induction false} EdgeLeft(edges: seq<PPGEdge>, removed: set<nat>, v: nat)
    ensures EdgesInto(edges, removed, v) > 0 <==> exists e: nat :: e < |edges| && e !in removed && edges[e].to == v
    decreases |edges|
  {
    if edges != [] {
      var last := |edges| - 1;
      EdgeLeft(edges[..last], removed, v);
      if e: nat :| e < |edges| && e !in removed && edges[e].to == v {
        assert e < last ==> edges[..last][e].to == v;
      }
      if e: nat :| e < last && e !in removed && edges[..last][e].to == v {
        assert edges[e].to == v;
      }
    }
  }

  ghost function RemovedBy(edges: seq<PPGEdge>, order: seq<nat>): set<nat> {
    set e: nat | e < |edges| && edges[e].from in order
  }

  /** In-degrees count the edges left, and exactly the nodes without any are ordered or queued. */
  ghost predicate Counted(n: nat, edges: seq<PPGEdge>, removed: set<nat>, indegree: seq<int>, listed: seq<nat>) {
    && |indegree| == n
    && (forall v: nat | v < n :: indegree[v] == EdgesInto(edges, removed, v))
    && NoRepeats(listed) && (forall i | 0 <= i < |listed| :: listed[i] < n && indegree[listed[i]] == 0)
    && (forall v: nat | v < n && indegree[v] == 0 :: v in listed)
  }

  /** Every edge into an ordered node comes from an earlier one. */
  ghost predicate Ordered(edges: seq<PPGEdge>, order: seq<nat>) {
    forall e, j | 0 <= e < |edges| && 0 <= j < |order| && edges[e].to == order[j] :: edges[e].from in order[..j]
  }

  lemma OrderGrows(n: nat, edges: seq<PPGEdge>, indegree: seq<int>, order: seq<nat>, queue: seq<nat>)
    requires Counted(n, edges, RemovedBy(edges, order), indegree, order + queue) && queue != [] && Ordered(edges, order)
    ensures Ordered(edges, order + [queue[0]])
  {
    var grown := order + [queue[0]];
    forall e, j | 0 <= e < |edges| && 0 <= j < |grown| && edges[e].to == grown[j]
      ensures edges[e].from in grown[..j]
    {
      if j < |order| {
        assert grown[..j] == order[..j];
      } else {
        assert (order + queue)[j] == queue[0];
        EdgeLeft(edges, RemovedBy(edges, order), queue[0]);
        assert grown[..j] == order;
      }
    }
  }

  /** Counts the edges into every node and queues the nodes without any. */
  method CountEdges(nodes: seq<PPGNode>, edges: seq<PPGEdge>) returns (indegree: array<int>, queue: seq<nat>)
    requires Consistent(nodes, edges)
    ensures fresh(indegree) && Counted(|nodes|, edges, {}, indegree[..], queue)
  {
    indegree := new int[|nodes|](_ => 0);
    for e := 0 to |edges|
      invariant fresh(indegree) && indegree.Length == |nodes|
      invariant forall v: nat | v < |nodes| :: indegree[v] == EdgesInto(edges[..e], {}, v)
    {
      assert edges[..e + 1][..e] == edges[..e] && Filed(nodes, edges, e);
      indegree[edges[e].to] := indegree[edges[e].to] + 1;
    }
    assert edges[..|edges|] == edges;
    queue := [];
    for v := 0 to |nodes|
      invariant NoRepeats(queue) && (forall i | 0 <= i < |queue| :: queue[i] < v && indegree[queue[i]] == 0)
      invariant forall x: nat | x < v && indegree[x] == 0 :: x in queue
    {
      if indegree[v] == 0 {
        queue := queue + [v];
      }
    }
  }

  lemma ReleaseOne(n: nat, edges: seq<PPGEdge>, removed: set<nat>, indegree: seq<int>, listed: seq<nat>, e: nat)
    requires Counted(n, edges, removed, indegree, listed) && e < |edges| && e !in removed && edges[e].to < n
    ensures var t := edges[e].to;
            var after := indegree[t := indegree[t] - 1];
            Counted(n, edges, removed + {e}, after, if after[t] == 0 then listed + [t] else listed)
  {
    var t := edges[e].to;
    forall v: nat | v < n
      ensures EdgesInto(edges, removed + {e}, v) == EdgesInto(edges, removed, v) - (if t == v then 1 else 0)
    {
      RemoveEdge(edges, removed, e, v);
    }
    EdgeLeft(edges, removed, t);
    assert indegree[t] > 0;
    assert t !in listed;
  }

  /** Removes one edge; `freed` tells whether its target lost its last incoming edge. */
  method ReleaseEdge(n: nat, edges: seq<PPGEdge>, e: nat, indegree: array<int>, ghost removed: set<nat>, ghost listed: seq<nat>)
    returns (freed: bool)
    requires Counted(n, edges, removed, indegree[..], listed) && e < |edges| && edges[e].to < n && e !in removed
    modifies indegree
    ensures Counted(n, edges, removed + {e}, indegree[..], if freed then listed + [edges[e].to] else listed)
  {
    ReleaseOne(n, edges, removed, indegree[..], listed, e);
    ghost var before := indegree[..];
    var target := edges[e].to;
    indegree[target] := indegree[target] - 1;
    assert indegree[..] == before[target := before[target] - 1];
    freed := indegree[target] == 0;
  }

  /** Removes the edges `out` and returns the nodes that lose their last incoming edge. */
  method Release(n: nat, edges: seq<PPGEdge>, out: seq<nat>, indegree: array<int>, ghost removed: set<nat>, ghost listed: seq<nat>)
    returns (added: seq<nat>)
    requires Counted(n, edges, removed, indegree[..], listed) && NoRepeats(out)
    requires forall k | 0 <= k < |out| :: out[k] < |edges| && edges[out[k]].to < n && out[k] !in removed
    modifies indegree
    ensures Counted(n, edges, removed + Elements(out), indegree[..], listed + added)
  {
    added := [];
    ghost var gone, all := removed, listed;
    for k := 0 to |out|
      invariant gone == removed + Elements(out[..k]) && all == listed + added
      invariant Counted(n, edges, gone, indegree[..], all)
    {
      OneMore(removed, out, k);
      var freed := ReleaseEdge(n, edges, out[k], indegree, gone, all);
      gone := gone + {out[k]};
      if freed {
        added, all := added + [edges[out[k]].to], all + [edges[out[k]].to];
      }
    }
    assert out[..|out|] == out;
  }

  lemma OneMore(removed: set<nat>, out: seq<nat>, k: nat)
    requires k < |out| && NoRepeats(out) && out[k] !in removed
    ensures out[k] !in removed + Elements(out[..k])
    ensures removed + Elements(out[..k + 1]) == removed + Elements(out[..k]) + {out[k]}
  {
    assert out[..k + 1] == out[..k] + [out[k]] && out[k] !in out[..k];
  }

  lemma LeavingEdges(nodes: seq<PPGNode>, edges: seq<PPGEdge>, node: nat, order: seq<nat>)
    requires Consistent(nodes, edges) && node < |nodes| && node !in order
    ensures var out := nodes[node].outgoing;
            && NoRepeats(out)
            && (forall k | 0 <= k < |out| :: out[k] < |edges| && edges[out[k]].to < |nodes| && out[k] !in RemovedBy(edges, order))
            && RemovedBy(edges, order) + Elements(out) == RemovedBy(edges, order + [node])
  {
    var out := nodes[node].outgoing;
    assert OutListOk(out, edges, node);
    forall e: nat | e < |edges|
      ensures edges[e].to < |nodes| && (edges[e].from == node <==> e in out)
    {
      assert Filed(nodes, edges, e);
    }
  }

  /** Kahn's algorithm: succeeds exactly on the acyclic graphs. */
  method TopologicalOrder(nodes: seq<PPGNode>, edges: seq<PPGEdge>) returns (order: seq<nat>, ok: bool)
    requires Consistent(nodes, edges)
    ensures ok ==> IsTopological(|nodes|, edges, order)
    ensures ok <==> !exists c :: IsCycle(edges, c)
  {
    var indegree, queue := CountEdges(nodes, edges);
    order := [];
    assert RemovedBy(edges, order) == {} && order + queue == queue;
    while |queue| > 0
      invariant fresh(indegree) && Counted(|nodes|, edges, RemovedBy(edges, order), indegree[..], order + queue)
      invariant Ordered(edges, order)
      decreases |nodes| - |order|
    {
      var node := queue[0];
      ListedBound(|nodes|, edges, indegree[..], order, queue);
      OrderGrows(|nodes|, edges, indegree[..], order, queue);
      LeavingEdges(nodes, edges, node, order);
      var added := Release(|nodes|, edges, nodes[node].outgoing, indegree, RemovedBy(edges, order), order + queue);
      assert order + queue + added == order + [node] + (queue[1..] + added);
      queue, order := queue[1..] + added, order + [node];
    }
    assert order + queue == order;
    ok := |order| == |nodes|;
    Finished(nodes, edges, indegree[..], order);
  }

  lemma ListedBound(n: nat, edges: seq<PPGEdge>, indegree: seq<int>, order: seq<nat>, queue: seq<nat>)
    requires Counted(n, edges, RemovedBy(edges, order), indegree, order + queue) && queue != []
    ensures |order| < n && queue[0] < n && queue[0] !in order && order + queue == order + [queue[0]] + queue[1..]
  {
    DistinctBelow(order + queue, n);
    assert (order + queue)[|order|] == queue[0];
    forall i | 0 <= i < |order|
      ensures order[i] != queue[0]
    {
      assert (order + queue)[i] == order[i];
    }
    assert queue == [queue[0]] + queue[1..];
  }

  lemma Finished(nodes: seq<PPGNode>, edges: seq<PPGEdge>, indegree: seq<int>, order: seq<nat>)
    requires Consistent(nodes, edges) && Ordered(edges, order)
    requires Counted(|nodes|, edges, RemovedBy(edges, order), indegree, order)
    ensures |order| == |nodes| ==> IsTopological(|nodes|, edges, order)
    ensures |order| == |nodes| <==> !exists c :: IsCycle(edges, c)
  {
    DistinctBelow(order, |nodes|);
    if |order| == |nodes| {
      assert IsTopological(|nodes|, edges, order);
      forall c
        ensures !IsCycle(edges, c)
      {
        OrderExcludesCycles(nodes, edges, order, c);
      }
    } else {
      LeftoverIsStuck(nodes, edges, indegree, order);
    }
  }

  lemma LeftoverIsStuck(nodes: seq<PPGNode>, edges: seq<PPGEdge>, indegree: seq<int>, order: seq<nat>)
    requires Consistent(nodes, edges) && |order| < |nodes|
    requires Counted(|nodes|, edges, RemovedBy(edges, order), indegree, order)
    ensures exists c :: IsCycle(edges, c)
  {
    var rest := Below(|nodes|) - Elements(order);
    forall v: nat | v in rest
      ensures HasEntry(edges, rest, v)
    {
      assert indegree[v] != 0;
      EdgeLeft(edges, RemovedBy(edges, order), v);
      var e: nat :| e < |edges| && e !in RemovedBy(edges, order) && edges[e].to == v;
      assert Filed(nodes, edges, e) && edges[e].from in rest;
    }
    OneLeftOut(order, |nodes|);
    var v: nat :| v < |nodes| && v !in order;
    assert v in rest;
    StuckHoldsCycle(edges, rest, v, |nodes|);
  }
}
