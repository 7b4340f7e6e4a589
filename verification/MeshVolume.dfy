/** The volume a triangle mesh encloses (geometry/mesh.go). Vertex keys are the vertices themselves,
    in lexicographic order. */
module MeshVolume {
  import opened Finite
  import opened Intersections
  import opened Vectors

  /** Twice the smallest accepted triangle area, squared. */
  const DEGENERATE_SQUARED: real := 0.000000000000000000000004

  type Mesh = seq<Triangle>

  // ---------- Directed edges ----------

  datatype Edge = Edge(a: Vec3, b: Vec3)

  function Side(tri: Triangle, s: nat): Edge {
    if s == 0 then Edge(tri.v0, tri.v1) else if s == 1 then Edge(tri.v1, tri.v2) else Edge(tri.v2, tri.v0)
  }

  /** The k-th directed edge of the mesh, three to a triangle. */
  function EdgeAt(mesh: Mesh, k: nat): Edge
    requires k < 3 * |mesh|
  {
    Side(mesh[k / 3], k % 3)
  }

  predicate NotAfter(a: Vec3, b: Vec3) {
    a.x < b.x || (a.x == b.x && (a.y < b.y || (a.y == b.y && a.z <= b.z)))
  }

  /** An edge without its direction: the earlier vertex first. */
  function KeyOf(e: Edge): Edge {
    if NotAfter(e.a, e.b) then e else Edge(e.b, e.a)
  }

  lemma SameKey(e: Edge, f: Edge)
    ensures KeyOf(e) == KeyOf(f) <==> e == f || e == Edge(f.b, f.a)
  {
  }

  // ---------- Volume and origin ----------

  function SixVolumeOf(tri: Triangle, o: Vec3): real {
    tri.v0.Sub(o).Dot(tri.v1.Sub(o).Cross(tri.v2.Sub(o)))
  }

  /** Six times the signed volume of the first `n` triangles, seen from `o`. */
  function SixVolume(mesh: Mesh, o: Vec3, n: nat): real
    requires n <= |mesh|
  {
    if n == 0 then 0.0 else SixVolume(mesh, o, n - 1) + SixVolumeOf(mesh[n - 1], o)
  }

  function EdgeCross(e: Edge): Vec3 {
    e.a.Cross(e.b)
  }

  lemma ShiftedCross(p: Vec3, q: Vec3, o: Vec3)
    ensures p.Sub(o).Cross(q.Sub(o)) == p.Cross(q).Sub(p.Cross(o)).Sub(o.Cross(q))
  {
    hide Vec3.Cross, Vec3.Sub;
    var shifted, r := p.Sub(o).Cross(q.Sub(o)), p.Cross(q).Sub(p.Cross(o)).Sub(o.Cross(q));
    assert shifted.x == r.x by {
      ShiftedX(p, q, o);
    }
    assert shifted.y == r.y by {
      ShiftedY(p, q, o);
    }
    assert shifted.z == r.z by {
      ShiftedZ(p, q, o);
    }
  }

  lemma ShiftedX(p: Vec3, q: Vec3, o: Vec3)
    ensures p.Sub(o).Cross(q.Sub(o)).x == p.Cross(q).Sub(p.Cross(o)).Sub(o.Cross(q)).x
  {
    ShiftedMinor(p.y, p.z, q.y, q.z, o.y, o.z);
  }

  lemma ShiftedY(p: Vec3, q: Vec3, o: Vec3)
    ensures p.Sub(o).Cross(q.Sub(o)).y == p.Cross(q).Sub(p.Cross(o)).Sub(o.Cross(q)).y
  {
    ShiftedMinor(p.z, p.x, q.z, q.x, o.z, o.x);
  }

  lemma ShiftedZ(p: Vec3, q: Vec3, o: Vec3)
    ensures p.Sub(o).Cross(q.Sub(o)).z == p.Cross(q).Sub(p.Cross(o)).Sub(o.Cross(q)).z
  {
    ShiftedMinor(p.x, p.y, q.x, q.y, o.x, o.y);
  }

  lemma ShiftedMinor(p: real, p': real, q: real, q': real, o: real, o': real)
    ensures (p - o) * (q' - o') - (p' - o') * (q - o) == (p * q' - p' * q) - (p * o' - p' * o) - (o * q' - o' * q)
  {
  }

  lemma DotSub(o: Vec3, p: Vec3, q: Vec3)
    ensures o.Dot(p.Sub(q)) == o.Dot(p) - o.Dot(q) && p.Sub(q).Dot(o) == p.Dot(o) - q.Dot(o)
  {
  }

  lemma DotAdd(o: Vec3, p: Vec3, q: Vec3)
    ensures o.Dot(p.Add(q)) == o.Dot(p) + o.Dot(q)
  {
  }

  lemma Cyclic(p: Vec3, q: Vec3, o: Vec3)
    ensures p.Dot(q.Cross(o)) == o.Dot(p.Cross(q)) && p.Dot(o.Cross(q)) == o.Dot(q.Cross(p))
    ensures o.Dot(q.Cross(o)) == 0.0 && o.Dot(o.Cross(q)) == 0.0
  {
  }

  /** Moving the origin changes a triangle's volume by what its three edges contribute. */
  lemma OriginShift(tri: Triangle, o: Vec3)
    ensures SixVolumeOf(tri, o)
            == tri.v0.Dot(tri.v1.Cross(tri.v2)) - o.Dot(EdgeCross(Side(tri, 0))) - o.Dot(EdgeCross(Side(tri, 1))) - o.Dot(EdgeCross(Side(tri, 2)))
  {
    var p, q, r := tri.v0, tri.v1, tri.v2;
    ShiftedCross(q, r, o);
    hide Vec3.Dot, Vec3.Cross, Vec3.Sub;
    var c, d, e := q.Cross(r), q.Cross(o), o.Cross(r);
    DotSub(c.Sub(d).Sub(e), p, o);
    DotSub(p, c.Sub(d), e);
    DotSub(p, c, d);
    DotSub(o, c.Sub(d), e);
    DotSub(o, c, d);
    Cyclic(p, q, o);
    Cyclic(p, r, o);
    Cyclic(o, q, o);
    Cyclic(o, r, o);
  }

  // ---------- Uses of an edge ----------

  /** The positions below `n` of the directed edges with a given key, in order. */
  function Uses(mesh: Mesh, n: nat, key: Edge): seq<nat>
    requires n <= 3 * |mesh|
  {
    if n == 0 then [] else Uses(mesh, n - 1, key) + if KeyOf(EdgeAt(mesh, n - 1)) == key then [n - 1] else []
  }

  lemma {:induction false} UsesAre(mesh: Mesh, n: nat, key: Edge)
    requires n <= 3 * |mesh|
    ensures forall i | 0 <= i < |Uses(mesh, n, key)| :: Uses(mesh, n, key)[i] < n && KeyOf(EdgeAt(mesh, Uses(mesh, n, key)[i])) == key
    ensures NoRepeats(Uses(mesh, n, key))
    ensures forall k: nat | k < n && KeyOf(EdgeAt(mesh, k)) == key :: k in Uses(mesh, n, key)
    decreases n
  {
    hide KeyOf, EdgeAt;
    if n > 0 {
      UsesAre(mesh, n - 1, key);
    }
  }

  function Forward(mesh: Mesh, k: nat, key: Edge): bool
    requires k < 3 * |mesh|
  {
    EdgeAt(mesh, k).a == key.a
  }

  /** The uses along the key's direction minus the uses against it. */
  function Orientation(mesh: Mesh, n: nat, key: Edge): int
    requires n <= 3 * |mesh|
  {
    if n == 0 then 0
    else Orientation(mesh, n - 1, key) + if KeyOf(EdgeAt(mesh, n - 1)) != key then 0 else if Forward(mesh, n - 1, key) then 1 else -1
  }

  datatype EdgeUse = EdgeUse(count: nat, orientation: int, first: nat, second: nat)

  ghost predicate Summarises(mesh: Mesh, n: nat, key: Edge, use: EdgeUse)
    requires n <= 3 * |mesh|
  {
    var uses := Uses(mesh, n, key);
    && use.count == |uses| && use.orientation == Orientation(mesh, n, key)
    && (|uses| > 0 ==> use.first == uses[0] / 3) && (|uses| > 1 ==> use.second == uses[1] / 3)
  }

  /** The map knows exactly the edges used below `n`, and how. */
  ghost predicate Records(mesh: Mesh, edges: map<Edge, EdgeUse>, n: nat)
    requires n <= 3 * |mesh|
  {
    forall key: Edge :: RecordsEdge(mesh, edges, n, key)
  }

  ghost predicate RecordsEdge(mesh: Mesh, edges: map<Edge, EdgeUse>, n: nat, key: Edge)
    requires n <= 3 * |mesh|
  {
    (key in edges <==> Uses(mesh, n, key) != []) && (key in edges ==> Summarises(mesh, n, key, edges[key]))
  }

  function AddUse(use: EdgeUse, triangle: nat, forward: bool): EdgeUse {
    EdgeUse(use.count + 1, use.orientation + (if forward then 1 else -1),
            if use.count == 0 then triangle else use.first, if use.count == 1 then triangle else use.second)
  }

  /** Enters the next directed edge into the map. */
  method AddMeshEdgeUse(mesh: Mesh, edges: map<Edge, EdgeUse>, k: nat) returns (r: map<Edge, EdgeUse>)
    requires k < 3 * |mesh| && Records(mesh, edges, k)
    ensures Records(mesh, r, k + 1)
  {
    var e := EdgeAt(mesh, k);
    var key := KeyOf(e);
    var use := if key in edges then edges[key] else EdgeUse(0, 0, 0, 0);
    r := edges[key := AddUse(use, k / 3, e.a == key.a)];
    var n := k + 1;
    forall other: Edge
      ensures RecordsEdge(mesh, r, n, other)
    {
      assert RecordsEdge(mesh, edges, k, other);
      RecordNext(mesh, edges, r, k, other);
    }
  }

  lemma RecordNext(mesh: Mesh, edges: map<Edge, EdgeUse>, r: map<Edge, EdgeUse>, k: nat, other: Edge)
    requires k < 3 * |mesh| && RecordsEdge(mesh, edges, k, other)
    requires var e := EdgeAt(mesh, k); var key := KeyOf(e);
             r == edges[key := AddUse(if key in edges then edges[key] else EdgeUse(0, 0, 0, 0), k / 3, e.a == key.a)]
    ensures RecordsEdge(mesh, r, k + 1, other)
  {
    var key := KeyOf(EdgeAt(mesh, k));
    var before, after := Uses(mesh, k, other), Uses(mesh, k + 1, other);
    if other == key {
      assert after == before + [k];
      if key !in edges {
        NoUsesNoOrientation(mesh, k, other);
      }
    } else {
      assert after == before;
    }
  }

  lemma {:induction false} NoUsesNoOrientation(mesh: Mesh, n: nat, key: Edge)
    requires n <= 3 * |mesh| && Uses(mesh, n, key) == []
    ensures Orientation(mesh, n, key) == 0
    decreases n
  {
    hide KeyOf, EdgeAt;
    if n > 0 {
      NoUsesNoOrientation(mesh, n - 1, key);
    }
  }

  // ---------- Watertight meshes ----------

  /** Every undirected edge is used twice, once in each direction. */
  ghost predicate Watertight(mesh: Mesh) {
    forall k: nat | k < 3 * |mesh| :: PairedAt(mesh, k)
  }

  ghost predicate PairedAt(mesh: Mesh, k: nat)
    requires k < 3 * |mesh|
  {
    var key, n := KeyOf(EdgeAt(mesh, k)), 3 * |mesh|;
    |Uses(mesh, n, key)| == 2 && Orientation(mesh, n, key) == 0
  }

  /** The other position that uses the same edge. */
  ghost function Partner(mesh: Mesh, k: nat): (j: nat)
    requires k < 3 * |mesh| && PairedAt(mesh, k)
  {
    var uses := Uses(mesh, 3 * |mesh|, KeyOf(EdgeAt(mesh, k)));
    if uses[0] == k then uses[1] else uses[0]
  }

  lemma {:induction false} OrientationOfTwo(mesh: Mesh, n: nat, key: Edge)
    requires n <= 3 * |mesh|
    ensures var uses := Uses(mesh, n, key);
            && (|uses| == 0 ==> Orientation(mesh, n, key) == 0)
            && (|uses| == 1 ==> uses[0] < n && Orientation(mesh, n, key) == if Forward(mesh, uses[0], key) then 1 else -1)
            && (|uses| == 2 ==> uses[0] < n && uses[1] < n
                                && (Orientation(mesh, n, key) == 0 <==> (Forward(mesh, uses[0], key) <==> !Forward(mesh, uses[1], key))))
    decreases n
  {
    hide KeyOf, EdgeAt;
    if n > 0 {
      OrientationOfTwo(mesh, n - 1, key);
    }
  }

  /** Partners are two different uses of one edge, in opposite directions. */
  lemma PartnerIsOpposite(mesh: Mesh, k: nat)
    requires k < 3 * |mesh| && PairedAt(mesh, k)
    ensures var j := Partner(mesh, k);
            && j < 3 * |mesh| && j != k && KeyOf(EdgeAt(mesh, j)) == KeyOf(EdgeAt(mesh, k)) && PairedAt(mesh, j) && Partner(mesh, j) == k
            && EdgeAt(mesh, j) == Edge(EdgeAt(mesh, k).b, EdgeAt(mesh, k).a)
  {
    var key := KeyOf(EdgeAt(mesh, k));
    UsesAre(mesh, 3 * |mesh|, key);
    OrientationOfTwo(mesh, 3 * |mesh|, key);
    SameKey(EdgeAt(mesh, k), EdgeAt(mesh, Partner(mesh, k)));
  }

  // ---------- Opposite edges cancel ----------

  function CrossAt(mesh: Mesh, k: nat): Vec3
    requires k < 3 * |mesh|
  {
    EdgeCross(EdgeAt(mesh, k))
  }

  /** The cross products of the first `n` directed edges. */
  function SumCross(mesh: Mesh, n: nat): Vec3
    requires n <= 3 * |mesh|
  {
    if n == 0 then ZERO else SumCross(mesh, n - 1).Add(CrossAt(mesh, n - 1))
  }

  /** The part of that sum whose partners come at `m` or later. */
  ghost function Waiting(mesh: Mesh, n: nat, m: nat): Vec3
    requires Watertight(mesh) && n <= 3 * |mesh|
  {
    if n == 0 then ZERO else Waiting(mesh, n - 1, m).Add(WaitingAt(mesh, n - 1, m))
  }

  ghost function WaitingAt(mesh: Mesh, k: nat, m: nat): Vec3
    requires Watertight(mesh) && k < 3 * |mesh|
  {
    assert PairedAt(mesh, k);
    if Partner(mesh, k) >= m then CrossAt(mesh, k) else ZERO
  }

  lemma OppositeCross(mesh: Mesh, k: nat, j: nat)
    requires k < 3 * |mesh| && j < 3 * |mesh| && EdgeAt(mesh, j) == Edge(EdgeAt(mesh, k).b, EdgeAt(mesh, k).a)
    ensures CrossAt(mesh, j) == ZERO.Sub(CrossAt(mesh, k))
  {
  }

  /** Meeting position `m` takes its partner, if it came before `n`, off the waiting sum. */
  lemma {:induction false} MeetPartner(mesh: Mesh, n: nat, m: nat)
    requires Watertight(mesh) && n <= m < 3 * |mesh| && PairedAt(mesh, m)
    ensures Waiting(mesh, n, m + 1) == if Partner(mesh, m) < n then Waiting(mesh, n, m).Add(CrossAt(mesh, m)) else Waiting(mesh, n, m)
    decreases n
  {
    hide CrossAt, Partner, PairedAt;
    if n > 0 {
      var k := n - 1;
      MeetPartner(mesh, k, m);
      assert PairedAt(mesh, k);
      PartnerIsOpposite(mesh, k);
      PartnerIsOpposite(mesh, m);
      if Partner(mesh, k) == m {
        OppositeCross(mesh, m, k);
      }
    }
  }

  lemma {:induction false} SumIsWaiting(mesh: Mesh, n: nat)
    requires Watertight(mesh) && n <= 3 * |mesh|
    ensures SumCross(mesh, n) == Waiting(mesh, n, n)
    decreases n
  {
    hide CrossAt, Partner, PairedAt;
    if n > 0 {
      var m := n - 1;
      SumIsWaiting(mesh, m);
      assert PairedAt(mesh, m);
      PartnerIsOpposite(mesh, m);
      MeetPartner(mesh, m, m);
    }
  }

  lemma {:induction false} NobodyWaits(mesh: Mesh, n: nat)
    requires Watertight(mesh) && n <= 3 * |mesh|
    ensures Waiting(mesh, n, 3 * |mesh|) == ZERO
    decreases n
  {
    hide CrossAt, Partner, PairedAt;
    if n > 0 {
      NobodyWaits(mesh, n - 1);
      assert PairedAt(mesh, n - 1);
      PartnerIsOpposite(mesh, n - 1);
    }
  }

  lemma {:induction false} VolumeByEdges(mesh: Mesh, o: Vec3, n: nat)
    requires n <= |mesh|
    ensures SixVolume(mesh, o, n) == SixVolume(mesh, ZERO, n) - o.Dot(SumCross(mesh, 3 * n))
    decreases n
  {
    if n == 0 {
      ZeroDot(o);
    } else {
      VolumeByEdges(mesh, o, n - 1);
      var tri := mesh[n - 1];
      OriginShift(tri, o);
      OriginShift(tri, ZERO);
      ThreeMore(mesh, o, n - 1);
      ZeroDot(EdgeCross(Side(tri, 0)));
      ZeroDot(EdgeCross(Side(tri, 1)));
      ZeroDot(EdgeCross(Side(tri, 2)));
      hide Vec3.Dot, Vec3.Add, EdgeCross, Side, SixVolumeOf, SumCross;
    }
  }

  lemma SideIndex(mesh: Mesh, t: nat, s: nat)
    requires t < |mesh| && s < 3
    ensures EdgeAt(mesh, 3 * t + s) == Side(mesh[t], s)
  {
    assert (3 * t + s) / 3 == t && (3 * t + s) % 3 == s;
  }

  lemma ThreeMore(mesh: Mesh, o: Vec3, t: nat)
    requires t < |mesh|
    ensures o.Dot(SumCross(mesh, 3 * (t + 1)))
            == o.Dot(SumCross(mesh, 3 * t)) + o.Dot(EdgeCross(Side(mesh[t], 0))) + o.Dot(EdgeCross(Side(mesh[t], 1)))
               + o.Dot(EdgeCross(Side(mesh[t], 2)))
  {
    hide Vec3.Dot, Vec3.Add, EdgeCross, Side, EdgeAt;
    SideIndex(mesh, t, 0);
    SideIndex(mesh, t, 1);
    SideIndex(mesh, t, 2);
    var k, tri := 3 * t, mesh[t];
    var s0 := SumCross(mesh, k);
    var s1 := s0.Add(EdgeCross(Side(tri, 0)));
    var s2 := s1.Add(EdgeCross(Side(tri, 1)));
    assert SumCross(mesh, k + 1) == s1;
    assert SumCross(mesh, k + 2) == s2;
    DotAdd(o, s0, EdgeCross(Side(tri, 0)));
    DotAdd(o, s1, EdgeCross(Side(tri, 1)));
    DotAdd(o, s2, EdgeCross(Side(tri, 2)));
  }

  lemma ZeroDot(v: Vec3)
    ensures ZERO.Dot(v) == 0.0 && v.Dot(ZERO) == 0.0
  {
  }

  /** A watertight mesh has the same signed volume from every origin. */
  lemma VolumeIgnoresOrigin(mesh: Mesh, o: Vec3, p: Vec3)
    requires Watertight(mesh)
    ensures SixVolume(mesh, o, |mesh|) == SixVolume(mesh, p, |mesh|)
  {
    hide Watertight;
    SumIsWaiting(mesh, 3 * |mesh|);
    NobodyWaits(mesh, 3 * |mesh|);
    VolumeByEdges(mesh, o, |mesh|);
    VolumeByEdges(mesh, p, |mesh|);
    ZeroDot(o);
    ZeroDot(p);
  }

  // ---------- Connected meshes ----------

  /** Two triangles share an edge, each running along it in its own direction. */
  ghost predicate Linked(mesh: Mesh, i: nat, j: nat) {
    exists s: nat, t: nat :: SharesSide(mesh, i, s, j, t)
  }

  ghost predicate SharesSide(mesh: Mesh, i: nat, s: nat, j: nat, t: nat) {
    i < |mesh| && j < |mesh| && s < 3 && t < 3 && Side(mesh[j], t) == Edge(Side(mesh[i], s).b, Side(mesh[i], s).a)
  }

  ghost predicate Chain(mesh: Mesh, w: seq<nat>) {
    |w| > 0 && forall i | 0 <= i < |w| - 1 :: Linked(mesh, w[i], w[i + 1])
  }

  ghost predicate ChainTo(mesh: Mesh, w: seq<nat>, t: nat) {
    Chain(mesh, w) && w[0] == 0 && w[|w| - 1] == t
  }

  /** Triangles that share edges lead from the first triangle to this one. */
  ghost predicate Reached(mesh: Mesh, t: nat) {
    exists w :: ChainTo(mesh, w, t)
  }

  ghost predicate Connected(mesh: Mesh) {
    forall t: nat | t < |mesh| :: Reached(mesh, t)
  }

  lemma ReachNext(mesh: Mesh, i: nat, j: nat)
    requires Reached(mesh, i) && Linked(mesh, i, j)
    ensures Reached(mesh, j)
  {
    var w :| ChainTo(mesh, w, i);
    var longer := w + [j];
    forall k | 0 <= k < |longer| - 1
      ensures Linked(mesh, longer[k], longer[k + 1])
    {
    }
    assert ChainTo(mesh, longer, j);
  }

  /** The lists hold, for every triangle, exactly the triangles it shares an edge with. */
  ghost predicate IsAdjacency(mesh: Mesh, adjacency: seq<seq<nat>>) {
    && |adjacency| == |mesh|
    && forall i: nat, j: nat | i < |mesh| :: ListsNeighbour(mesh, adjacency, i, j)
  }

  ghost predicate ListsNeighbour(mesh: Mesh, adjacency: seq<seq<nat>>, i: nat, j: nat)
    requires i < |adjacency|
  {
    j in adjacency[i] <==> Linked(mesh, i, j)
  }

  lemma {:induction false} ChainStaysInside(mesh: Mesh, w: seq<nat>, n: nat, inside: set<nat>)
    requires Chain(mesh, w) && n < |w| && w[0] in inside
    requires forall i, j | i in inside && Linked(mesh, i, j) :: j in inside
    ensures w[n] in inside
    decreases n
  {
    if n > 0 {
      ChainStaysInside(mesh, w, n - 1, inside);
      assert Linked(mesh, w[n - 1], w[n - 1 + 1]);
    }
  }

  /** The state of the search: the visited triangles are reached and, but for those on the stack,
      have only visited neighbours. */
  ghost predicate Searching(mesh: Mesh, visited: seq<bool>, stack: seq<nat>, seen: set<nat>) {
    && |visited| == |mesh| && (forall t: nat :: t in seen <==> t < |visited| && visited[t])
    && (forall t | t in seen :: Reached(mesh, t))
    && (forall k | 0 <= k < |stack| :: stack[k] in seen)
  }

  ghost predicate Explored(mesh: Mesh, seen: set<nat>, stack: seq<nat>) {
    forall t | t in seen && t !in stack :: NeighboursSeen(mesh, seen, t)
  }

  ghost predicate NeighboursSeen(mesh: Mesh, seen: set<nat>, t: nat) {
    forall j: nat | Linked(mesh, t, j) :: j in seen
  }

  method VisitNeighbours(ghost mesh: Mesh, neighbours: seq<nat>, ghost t: nat, visited0: seq<bool>, stack0: seq<nat>, ghost seen0: set<nat>)
    returns (visited: seq<bool>, stack: seq<nat>, added: nat, ghost seen: set<nat>)
    requires Searching(mesh, visited0, stack0, seen0) && Reached(mesh, t) && forall k | 0 <= k < |neighbours| :: Linked(mesh, t, neighbours[k])
    ensures Searching(mesh, visited, stack, seen) && seen0 <= seen && |seen| == |seen0| + added
    ensures (forall k | 0 <= k < |neighbours| :: neighbours[k] in seen) && (forall x | x in stack0 :: x in stack)
    ensures forall x | x in seen && x !in seen0 :: x in stack
    ensures |stack| == |stack0| + added
  {
    hide Linked, Reached;
    visited, stack, added, seen := visited0, stack0, 0, seen0;
    for k := 0 to |neighbours|
      invariant Searching(mesh, visited, stack, seen) && seen0 <= seen && |seen| == |seen0| + added && |stack| == |stack0| + added
      invariant (forall j | 0 <= j < k :: neighbours[j] in seen) && (forall x | x in stack0 :: x in stack)
      invariant forall x | x in seen && x !in seen0 :: x in stack
    {
      var next := neighbours[k];
      LinkedInRange(mesh, t, next);
      if !visited[next] {
        ReachNext(mesh, t, next);
        visited := visited[next := true];
        seen := seen + {next};
        added := added + 1;
        stack := stack + [next];
      }
    }
  }

  lemma LinkedInRange(mesh: Mesh, i: nat, j: nat)
    requires Linked(mesh, i, j)
    ensures i < |mesh| && j < |mesh|
  {
  }

  /** Whether a depth-first search from the first triangle visits them all. */
  method MeshTrianglesConnected(ghost mesh: Mesh, adjacency: seq<seq<nat>>) returns (ok: bool)
    requires mesh != [] && IsAdjacency(mesh, adjacency)
    ensures ok <==> Connected(mesh)
  {
    var visited, stack, count := seq(|adjacency|, i => i == 0), [0], 1;
    ghost var seen: set<nat> := {0};
    assert ChainTo(mesh, [0], 0);
    while stack != []
      invariant Searching(mesh, visited, stack, seen) && Explored(mesh, seen, stack) && |seen| == count && 0 in seen
      decreases |mesh| - count + |mesh| - count + |stack|
      invariant count <= |mesh|
    {
      hide Linked, Reached;
      var last := |stack| - 1;
      var t := stack[last];
      var rest := stack[..last];
      assert stack == rest + [t] && t in seen;
      AllListed(mesh, adjacency, t);
      ghost var before := seen;
      var added;
      visited, stack, added, seen := VisitNeighbours(mesh, adjacency[t], t, visited, rest, seen);
      count := count + added;
      SeenFits(mesh, visited, seen);
      StillExplored(mesh, before, rest, t, adjacency[t], seen, stack);
    }
    ok := count == |adjacency|;
    AllSeen(mesh, visited, seen);
  }

  lemma AllListed(mesh: Mesh, adjacency: seq<seq<nat>>, t: nat)
    requires IsAdjacency(mesh, adjacency) && t < |mesh|
    ensures forall k | 0 <= k < |adjacency[t]| :: Linked(mesh, t, adjacency[t][k])
    ensures forall j: nat | Linked(mesh, t, j) :: j in adjacency[t]
  {
    hide Linked;
    forall k | 0 <= k < |adjacency[t]|
      ensures Linked(mesh, t, adjacency[t][k])
    {
      assert ListsNeighbour(mesh, adjacency, t, adjacency[t][k]);
    }
    forall j: nat | Linked(mesh, t, j)
      ensures j in adjacency[t]
    {
      assert ListsNeighbour(mesh, adjacency, t, j);
    }
  }

  lemma SeenFits(mesh: Mesh, visited: seq<bool>, seen: set<nat>)
    requires |visited| == |mesh| && forall t: nat :: t in seen <==> t < |visited| && visited[t]
    ensures |seen| <= |mesh|
  {
    SubsetSize(seen, Below(|mesh|));
  }

  lemma StillExplored(mesh: Mesh, before: set<nat>, rest: seq<nat>, t: nat, neighbours: seq<nat>, seen: set<nat>, stack: seq<nat>)
    requires Explored(mesh, before, rest + [t]) && before <= seen
    requires forall j: nat | Linked(mesh, t, j) :: j in neighbours
    requires (forall k | 0 <= k < |neighbours| :: neighbours[k] in seen) && (forall x | x in rest :: x in stack)
    requires forall x | x in seen && x !in before :: x in stack
    ensures Explored(mesh, seen, stack)
  {
    hide Linked;
    forall x | x in seen && x !in stack
      ensures NeighboursSeen(mesh, seen, x)
    {
      assert x in before && x !in rest;
      if x != t {
        assert x !in rest + [t] && NeighboursSeen(mesh, before, x);
      }
    }
  }

  lemma AllSeen(mesh: Mesh, visited: seq<bool>, seen: set<nat>)
    requires mesh != [] && Searching(mesh, visited, [], seen) && Explored(mesh, seen, []) && 0 in seen
    ensures |seen| == |mesh| <==> Connected(mesh)
  {
    hide Linked;
    if |seen| == |mesh| {
      SubsetSize(seen, Below(|mesh|));
      forall t: nat | t < |mesh|
        ensures Reached(mesh, t)
      {
        assert t in seen;
      }
    }
    if Connected(mesh) {
      forall t: nat | t < |mesh|
        ensures t in seen
      {
        assert Reached(mesh, t);
        var w :| ChainTo(mesh, w, t);
        forall i, j | i in seen && Linked(mesh, i, j)
          ensures j in seen
        {
          assert NeighboursSeen(mesh, seen, i);
        }
        ChainStaysInside(mesh, w, |w| - 1, seen);
      }
      assert seen == Below(|mesh|);
    }
  }

  // ---------- Adjacency from the edge map ----------

  function NormalOf(tri: Triangle): Vec3 {
    tri.v1.Sub(tri.v0).Cross(tri.v2.Sub(tri.v0))
  }

  /** The area is no larger than the tolerance. */
  predicate Degenerate(tri: Triangle) {
    NormalOf(tri).Dot(NormalOf(tri)) <= DEGENERATE_SQUARED
  }

  lemma ParallelCross(p: Vec3)
    ensures p.Cross(p) == ZERO && ZERO.Cross(p) == ZERO && p.Cross(ZERO) == ZERO
  {
  }

  lemma CornersDiffer(tri: Triangle)
    requires !Degenerate(tri)
    ensures tri.v0 != tri.v1 && tri.v1 != tri.v2 && tri.v2 != tri.v0
  {
    if tri.v0 == tri.v1 || tri.v1 == tri.v2 || tri.v2 == tri.v0 {
      ParallelCross(tri.v1.Sub(tri.v0));
      ParallelCross(tri.v2.Sub(tri.v0));
      assert NormalOf(tri) == ZERO;
      ZeroDot(ZERO);
    }
  }

  ghost predicate Sound(mesh: Mesh) {
    forall i | 0 <= i < |mesh| :: !Degenerate(mesh[i])
  }

  predicate Joins(use: EdgeUse, i: nat, j: nat) {
    (use.first == i && use.second == j) || (use.first == j && use.second == i)
  }

  ghost predicate JoinedBy(edges: map<Edge, EdgeUse>, done: set<Edge>, i: nat, j: nat) {
    exists key :: key in done && key in edges && Joins(edges[key], i, j)
  }

  /** Every recorded edge is used twice and balanced exactly when the mesh is watertight. */
  lemma RecordsShowWatertight(mesh: Mesh, edges: map<Edge, EdgeUse>)
    requires Records(mesh, edges, 3 * |mesh|)
    ensures Watertight(mesh) <==> forall key | key in edges :: edges[key].count == 2 && edges[key].orientation == 0
  {
    hide EdgeAt, KeyOf;
    var n := 3 * |mesh|;
    forall k: nat | k < n
      ensures KeyOf(EdgeAt(mesh, k)) in edges
      ensures PairedAt(mesh, k) <==> edges[KeyOf(EdgeAt(mesh, k))].count == 2 && edges[KeyOf(EdgeAt(mesh, k))].orientation == 0
    {
      var key := KeyOf(EdgeAt(mesh, k));
      UsesAre(mesh, n, key);
      assert RecordsEdge(mesh, edges, n, key);
    }
    forall key | key in edges
      ensures exists k: nat :: k < n && KeyOf(EdgeAt(mesh, k)) == key
    {
      assert RecordsEdge(mesh, edges, n, key);
      UsesAre(mesh, n, key);
      assert Uses(mesh, n, key)[0] < n;
    }
  }

  /** A balanced edge joins the triangles of its two uses, which share that edge. */
  lemma EdgeLinks(mesh: Mesh, edges: map<Edge, EdgeUse>, key: Edge)
    requires Records(mesh, edges, 3 * |mesh|) && Watertight(mesh) && key in edges
    ensures edges[key].first < |mesh| && edges[key].second < |mesh|
    ensures Linked(mesh, edges[key].first, edges[key].second) && Linked(mesh, edges[key].second, edges[key].first)
  {
    var n := 3 * |mesh|;
    assert RecordsEdge(mesh, edges, n, key);
    UsesAre(mesh, n, key);
    var uses := Uses(mesh, n, key);
    var k := uses[0];
    assert PairedAt(mesh, k);
    PartnerIsOpposite(mesh, k);
    var j := uses[1];
    hide Uses, Orientation, KeyOf;
    assert SharesSide(mesh, k / 3, k % 3, j / 3, j % 3);
    assert SharesSide(mesh, j / 3, j % 3, k / 3, k % 3);
  }

  lemma TwoUses(mesh: Mesh, n: nat, key: Edge, p: nat, q: nat)
    requires n <= 3 * |mesh| && |Uses(mesh, n, key)| == 2 && p != q && p < n && q < n
    requires KeyOf(EdgeAt(mesh, p)) == key && KeyOf(EdgeAt(mesh, q)) == key
    ensures var uses := Uses(mesh, n, key); (uses[0] == p && uses[1] == q) || (uses[0] == q && uses[1] == p)
  {
    UsesAre(mesh, n, key);
    hide KeyOf, EdgeAt, Uses;
    var uses := Uses(mesh, n, key);
    assert p in uses && q in uses;
  }

  /** Triangles that share an edge are joined by its entry. */
  lemma LinksAreRecorded(mesh: Mesh, edges: map<Edge, EdgeUse>, i: nat, j: nat)
    requires Records(mesh, edges, 3 * |mesh|) && Watertight(mesh) && Sound(mesh) && Linked(mesh, i, j)
    ensures JoinedBy(edges, edges.Keys, i, j)
  {
    var s: nat, t: nat :| SharesSide(mesh, i, s, j, t);
    var n, p, q := 3 * |mesh|, 3 * i + s, 3 * j + t;
    SideIndex(mesh, i, s);
    SideIndex(mesh, j, t);
    CornersDiffer(mesh[i]);
    var key := KeyOf(EdgeAt(mesh, p));
    SameKey(EdgeAt(mesh, p), EdgeAt(mesh, q));
    assert p != q && PairedAt(mesh, p) && RecordsEdge(mesh, edges, n, key);
    TwoUses(mesh, n, key, p, q);
    ThirdOf(i, s);
    ThirdOf(j, t);
    assert Joins(edges[key], i, j);
  }

  lemma ThirdOf(i: nat, s: nat)
    requires s < 3
    ensures (3 * i + s) / 3 == i
  {
  }

  function WithNeighbour(adjacency: seq<seq<nat>>, i: nat, j: nat): seq<seq<nat>>
    requires i < |adjacency|
  {
    adjacency[i := adjacency[i] + [j]]
  }

  ghost predicate ListsExactly(adjacency: seq<seq<nat>>, edges: map<Edge, EdgeUse>, done: set<Edge>, n: nat) {
    |adjacency| == n && forall i: nat, j: nat | i < n :: ListsJoined(adjacency, edges, done, i, j)
  }

  ghost predicate ListsJoined(adjacency: seq<seq<nat>>, edges: map<Edge, EdgeUse>, done: set<Edge>, i: nat, j: nat)
    requires i < |adjacency|
  {
    j in adjacency[i] <==> JoinedBy(edges, done, i, j)
  }

  lemma ListEdge(adjacency: seq<seq<nat>>, edges: map<Edge, EdgeUse>, done: set<Edge>, n: nat, key: Edge)
    requires ListsExactly(adjacency, edges, done, n) && key in edges && edges[key].first < n && edges[key].second < n
    ensures var use := edges[key];
            ListsExactly(WithNeighbour(WithNeighbour(adjacency, use.first, use.second), use.second, use.first), edges, done + {key}, n)
  {
    var use, done' := edges[key], done + {key};
    var result := WithNeighbour(WithNeighbour(adjacency, use.first, use.second), use.second, use.first);
    forall i: nat, j: nat | i < n
      ensures ListsJoined(result, edges, done', i, j)
    {
      assert ListsJoined(adjacency, edges, done, i, j);
      assert JoinedBy(edges, done', i, j) <==> JoinedBy(edges, done, i, j) || Joins(use, i, j);
      assert j in result[i] <==> j in adjacency[i] || Joins(use, i, j);
    }
  }

  /** Lists the neighbours of every triangle, unless some edge is open, shared too often or crossed
      twice the same way. The edges come in no particular order. */
  method BuildAdjacency(mesh: Mesh, edges: map<Edge, EdgeUse>) returns (adjacency: seq<seq<nat>>, ok: bool)
    requires Records(mesh, edges, 3 * |mesh|) && Sound(mesh)
    ensures ok <==> Watertight(mesh)
    ensures ok ==> IsAdjacency(mesh, adjacency)
  {
    hide Records, Watertight, IsAdjacency, Sound;
    RecordsShowWatertight(mesh, edges);
    adjacency := seq(|mesh|, _ => []);
    var remaining := edges.Keys;
    ghost var done := {};
    while remaining != {}
      invariant remaining + done == edges.Keys && ListsExactly(adjacency, edges, done, |mesh|)
      invariant forall key | key in done :: edges[key].count == 2 && edges[key].orientation == 0
      decreases remaining
    {
      var key :| key in remaining;
      var use := edges[key];
      if use.count != 2 || use.orientation != 0 {
        return [], false;
      }
      EdgeInRange(mesh, edges, key);
      ListEdge(adjacency, edges, done, |mesh|, key);
      adjacency := WithNeighbour(WithNeighbour(adjacency, use.first, use.second), use.second, use.first);
      remaining, done := remaining - {key}, done + {key};
    }
    ok := true;
    ListsLinked(mesh, edges, adjacency);
  }

  lemma EdgeInRange(mesh: Mesh, edges: map<Edge, EdgeUse>, key: Edge)
    requires Records(mesh, edges, 3 * |mesh|) && key in edges && edges[key].count == 2
    ensures edges[key].first < |mesh| && edges[key].second < |mesh|
  {
    assert RecordsEdge(mesh, edges, 3 * |mesh|, key);
    UsesAre(mesh, 3 * |mesh|, key);
  }

  lemma ListsLinked(mesh: Mesh, edges: map<Edge, EdgeUse>, adjacency: seq<seq<nat>>)
    requires Records(mesh, edges, 3 * |mesh|) && Watertight(mesh) && Sound(mesh) && ListsExactly(adjacency, edges, edges.Keys, |mesh|)
    ensures IsAdjacency(mesh, adjacency)
  {
    hide Records, Watertight, Sound, Linked;
    forall i: nat, j: nat | i < |mesh|
      ensures ListsNeighbour(mesh, adjacency, i, j)
    {
      assert ListsJoined(adjacency, edges, edges.Keys, i, j);
      if j in adjacency[i] {
        var key :| key in edges.Keys && Joins(edges[key], i, j);
        EdgeLinks(mesh, edges, key);
      }
      if Linked(mesh, i, j) {
        LinksAreRecorded(mesh, edges, i, j);
      }
    }
  }

  // ---------- The enclosed volume ----------

  function AbsoluteSixth(x: real): real {
    (if x < 0.0 then -x else x) / 6.0
  }

  /** The mesh bounds one region: no degenerate triangle, every edge crossed once each way, all
      triangles connected, and a volume other than zero. */
  ghost predicate EnclosesRegion(mesh: Mesh) {
    mesh != [] && Sound(mesh) && Watertight(mesh) && Connected(mesh) && SixVolume(mesh, ZERO, |mesh|) != 0.0
  }

  /** A volume is found exactly for a mesh that bounds one region, and it is the same seen from anywhere. */
  ghost predicate Measured(mesh: Mesh, volume: real, ok: bool) {
    && (ok <==> EnclosesRegion(mesh))
    && (ok ==> volume > 0.0 && forall o: Vec3 :: VolumeFrom(mesh, o, volume))
  }

  /** Computes the volume, seen from the first vertex. For what it comes to on boxes and tetrahedra see
      Solids.BoxVolume and Solids.TetrahedronVolume. */
  method EnclosedVolume(mesh: Mesh) returns (volume: real, ok: bool)
    ensures Measured(mesh, volume, ok)
  {
    hide Connected, Watertight, Records, IsAdjacency;
    if mesh == [] {
      return 0.0, false;
    }
    var edges: map<Edge, EdgeUse> := map[];
    var origin, six := mesh[0].v0, 0.0;
    NothingRecorded(mesh);
    for t := 0 to |mesh|
      invariant Records(mesh, edges, 3 * t) && six == SixVolume(mesh, origin, t)
      invariant forall i | 0 <= i < t :: !Degenerate(mesh[i])
    {
      hide Degenerate, SixVolumeOf;
      if Degenerate(mesh[t]) {
        return 0.0, false;
      }
      six := six + SixVolumeOf(mesh[t], origin);
      edges := AddMeshEdgeUse(mesh, edges, 3 * t);
      edges := AddMeshEdgeUse(mesh, edges, 3 * t + 1);
      edges := AddMeshEdgeUse(mesh, edges, 3 * t + 2);
    }
    var adjacency, tight := BuildAdjacency(mesh, edges);
    if !tight {
      return 0.0, false;
    }
    var connected := MeshTrianglesConnected(mesh, adjacency);
    VolumeIgnoresOrigin(mesh, origin, ZERO);
    if !connected || AbsoluteSixth(six) <= 0.0 {
      return 0.0, false;
    }
    volume, ok := AbsoluteSixth(six), true;
    forall o: Vec3
      ensures VolumeFrom(mesh, o, volume)
    {
      VolumeIgnoresOrigin(mesh, origin, o);
    }
  }

  ghost predicate VolumeFrom(mesh: Mesh, o: Vec3, volume: real) {
    volume == AbsoluteSixth(SixVolume(mesh, o, |mesh|))
  }

  lemma NothingRecorded(mesh: Mesh)
    ensures Records(mesh, map[], 0)
  {
    forall key: Edge
      ensures RecordsEdge(mesh, map[], 0, key)
    {
    }
  }
}
