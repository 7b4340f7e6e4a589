/** The bounding volume hierarchy over a triangle mesh (geometry/bvh.go). */
module BVH {
  import opened Intersections
  import opened Sorting
  import opened TriangleHits
  import opened Vectors

  const LEAF_TRIANGLES := 4

  type Mesh = seq<Triangle>

  datatype Tree = Leaf(box: Box, triangles: seq<nat>) | Node(box: Box, left: Tree, right: Tree)

  /** The triangles of the leaves, from left to right. */
  function Triangles(tree: Tree): seq<nat> {
    match tree
    case Leaf(_, triangles) => triangles
    case Node(_, left, right) => Triangles(left) + Triangles(right)
  }

  predicate Bounds(b: Box, tri: Triangle) {
    b.Contains(tri.v0) && b.Contains(tri.v1) && b.Contains(tri.v2)
  }

  ghost predicate BoundsAll(mesh: Mesh, b: Box, indices: seq<nat>) {
    Proper(b) && forall k | 0 <= k < |indices| :: indices[k] < |mesh| && Bounds(b, mesh[indices[k]])
  }

  /** Every node's box bounds all triangles below it, and leaves are small. */
  ghost predicate Valid(mesh: Mesh, tree: Tree) {
    && BoundsAll(mesh, tree.box, Triangles(tree))
    && match tree
       case Leaf(_, triangles) => 0 < |triangles| <= LEAF_TRIANGLES
       case Node(_, left, right) => Valid(mesh, left) && Valid(mesh, right)
  }

  // ---------- Building ----------

  function Centroid(tri: Triangle): (c: Vec3)
    ensures c.Add(c).Add(c) == tri.v0.Add(tri.v1).Add(tri.v2)
  {
    tri.v0.Add(tri.v1).Add(tri.v2).Scale(1.0 / 3.0)
  }

  function TriangleBounds(tri: Triangle): (b: Box)
    ensures Proper(b) && Bounds(b, tri)
  {
    Box(MinCorner(MinCorner(tri.v0, tri.v1), tri.v2), MaxCorner(MaxCorner(tri.v0, tri.v1), tri.v2))
  }

  function UnionBox(a: Box, b: Box): Box {
    Box(MinCorner(a.lo, b.lo), MaxCorner(a.hi, b.hi))
  }

  lemma UnionBounds(a: Box, b: Box, tri: Triangle)
    requires Proper(a) && Proper(b) && (Bounds(a, tri) || Bounds(b, tri))
    ensures Proper(UnionBox(a, b)) && Bounds(UnionBox(a, b), tri)
  {
  }

  method BoundsFor(mesh: Mesh, indices: seq<nat>) returns (b: Box)
    requires indices != [] && forall k | 0 <= k < |indices| :: indices[k] < |mesh|
    ensures BoundsAll(mesh, b, indices)
    ensures |indices| == 1 ==> b == TriangleBounds(mesh[indices[0]])
  {
    b := TriangleBounds(mesh[indices[0]]);
    for n := 1 to |indices|
      invariant Proper(b) && forall k | 0 <= k < n :: Bounds(b, mesh[indices[k]])
      invariant n == 1 ==> b == TriangleBounds(mesh[indices[0]])
    {
      var next := TriangleBounds(mesh[indices[n]]);
      forall k | 0 <= k <= n
        ensures Proper(UnionBox(b, next)) && Bounds(UnionBox(b, next), mesh[indices[k]])
      {
        UnionBounds(b, next, mesh[indices[k]]);
      }
      b := UnionBox(b, next);
    }
  }

  method CentroidBounds(mesh: Mesh, indices: seq<nat>) returns (b: Box)
    requires indices != [] && forall k | 0 <= k < |indices| :: indices[k] < |mesh|
    ensures forall k | 0 <= k < |indices| :: b.Contains(Centroid(mesh[indices[k]]))
  {
    var c := Centroid(mesh[indices[0]]);
    b := Box(c, c);
    for n := 1 to |indices|
      invariant forall k | 0 <= k < n :: b.Contains(Centroid(mesh[indices[k]]))
    {
      c := Centroid(mesh[indices[n]]);
      b := Box(MinCorner(b.lo, c), MaxCorner(b.hi, c));
    }
  }

  function LongestAxis(v: Vec3): (a: nat)
    ensures a < 3 && v.Axis(a) >= v.x && v.Axis(a) >= v.y && v.Axis(a) >= v.z
  {
    if v.y > v.x && v.y >= v.z then 1 else if v.z > v.x && v.z > v.y then 2 else 0
  }

  predicate IsBelow(mesh: Mesh, i: nat, axis: nat, pivot: real) {
    i < |mesh| && Centroid(mesh[i]).Axis(axis) < pivot
  }

  /** The indices on one side of the pivot, in their old order. */
  function Side(mesh: Mesh, indices: seq<nat>, axis: nat, pivot: real, below: bool): seq<nat> {
    if indices == [] then []
    else
      var n := |indices| - 1;
      Side(mesh, indices[..n], axis, pivot, below) + if IsBelow(mesh, indices[n], axis, pivot) == below then [indices[n]] else []
  }

  lemma {:induction false} SidesAreAll(mesh: Mesh, indices: seq<nat>, axis: nat, pivot: real)
    ensures multiset(Side(mesh, indices, axis, pivot, true)) + multiset(Side(mesh, indices, axis, pivot, false)) == multiset(indices)
    decreases |indices|
  {
    hide IsBelow;
    if indices != [] {
      var n := |indices| - 1;
      SidesAreAll(mesh, indices[..n], axis, pivot);
      var left, right := Side(mesh, indices[..n], axis, pivot, true), Side(mesh, indices[..n], axis, pivot, false);
      assert indices == indices[..n] + [indices[n]];
      OneMore(left, indices[n]);
      OneMore(right, indices[n]);
      OneMore(indices[..n], indices[n]);
    }
  }

  lemma OneMore(s: seq<nat>, i: nat)
    ensures multiset(s + [i]) == multiset(s)[i := multiset(s)[i] + 1] && s + [] == s
  {
  }

  lemma SidesSplit(mesh: Mesh, indices: seq<nat>, axis: nat, pivot: real)
    requires forall k | 0 <= k < |indices| :: indices[k] < |mesh|
    ensures var left, right := Side(mesh, indices, axis, pivot, true), Side(mesh, indices, axis, pivot, false);
            && multiset(left) + multiset(right) == multiset(indices)
            && (forall k | 0 <= k < |left| :: left[k] < |mesh| && Centroid(mesh[left[k]]).Axis(axis) < pivot)
            && (forall k | 0 <= k < |right| :: right[k] < |mesh| && Centroid(mesh[right[k]]).Axis(axis) >= pivot)
  {
    hide Centroid, Vec3.Axis, Side;
    SidesAreAll(mesh, indices, axis, pivot);
    var left, right := Side(mesh, indices, axis, pivot, true), Side(mesh, indices, axis, pivot, false);
    SideHolds(mesh, indices, axis, pivot, true);
    SideHolds(mesh, indices, axis, pivot, false);
    assert forall k | 0 <= k < |left| :: left[k] in left;
    assert forall k | 0 <= k < |right| :: right[k] in right;
  }

  lemma {:induction false} SideHolds(mesh: Mesh, indices: seq<nat>, axis: nat, pivot: real, below: bool)
    ensures forall i :: i in Side(mesh, indices, axis, pivot, below) <==> i in indices && IsBelow(mesh, i, axis, pivot) == below
    decreases |indices|
  {
    hide IsBelow;
    if indices != [] {
      var n := |indices| - 1;
      SideHolds(mesh, indices[..n], axis, pivot, below);
      assert indices == indices[..n] + [indices[n]];
    }
  }

  /** Below the pivot goes left, the rest goes right, each in its old order. */
  method Partition(mesh: Mesh, indices: seq<nat>, axis: nat, pivot: real) returns (left: seq<nat>, right: seq<nat>)
    requires forall k | 0 <= k < |indices| :: indices[k] < |mesh|
    ensures left == Side(mesh, indices, axis, pivot, true) && right == Side(mesh, indices, axis, pivot, false)
    ensures multiset(left) + multiset(right) == multiset(indices)
    ensures forall k | 0 <= k < |left| :: left[k] < |mesh| && Centroid(mesh[left[k]]).Axis(axis) < pivot
    ensures forall k | 0 <= k < |right| :: right[k] < |mesh| && Centroid(mesh[right[k]]).Axis(axis) >= pivot
  {
    hide IsBelow;
    left, right := [], [];
    for n := 0 to |indices|
      invariant left == Side(mesh, indices[..n], axis, pivot, true) && right == Side(mesh, indices[..n], axis, pivot, false)
    {
      assert indices[..n + 1][..n] == indices[..n];
      if IsBelow(mesh, indices[n], axis, pivot) {
        left := left + [indices[n]];
      } else {
        right := right + [indices[n]];
      }
    }
    assert indices[..|indices|] == indices;
    SidesSplit(mesh, indices, axis, pivot);
  }

  /** Splits at the middle of the centroids, or at the median when that leaves a side empty. */
  method Split(mesh: Mesh, indices: seq<nat>) returns (left: seq<nat>, right: seq<nat>)
    requires |indices| > 1 && forall k | 0 <= k < |indices| :: indices[k] < |mesh|
    ensures multiset(left) + multiset(right) == multiset(indices)
    ensures left != [] && right != []
  {
    var centroids := CentroidBounds(mesh, indices);
    var axis := LongestAxis(centroids.Dimensions());
    left, right := Partition(mesh, indices, axis, centroids.Center().Axis(axis));
    if left == [] || right == [] {
      var key := (i: nat) => if i < |mesh| then Centroid(mesh[i]).Axis(axis) else 0.0;
      var sorted := SortBy((i: nat, j: nat) => key(i) < key(j) || (key(i) == key(j) && i <= j), indices);
      var mid := |sorted| / 2;
      assert sorted == sorted[..mid] + sorted[mid..];
      left, right := sorted[..mid], sorted[mid..];
    }
  }

  lemma PartsAreSmaller(left: seq<nat>, right: seq<nat>, indices: seq<nat>, n: nat)
    requires multiset(left) + multiset(right) == multiset(indices) && left != [] && right != []
    requires forall k | 0 <= k < |indices| :: indices[k] < n
    ensures |left| < |indices| && |right| < |indices|
    ensures forall k | 0 <= k < |left| :: left[k] < n
    ensures forall k | 0 <= k < |right| :: right[k] < n
  {
    assert |multiset(left)| + |multiset(right)| == |multiset(indices)|;
    forall k | 0 <= k < |left|
      ensures left[k] < n
    {
      assert left[k] in multiset(left) && left[k] in multiset(indices);
    }
    forall k | 0 <= k < |right|
      ensures right[k] < n
    {
      assert right[k] in multiset(right) && right[k] in multiset(indices);
    }
  }

  lemma BoundsPermuted(mesh: Mesh, b: Box, indices: seq<nat>, permuted: seq<nat>)
    requires BoundsAll(mesh, b, indices) && multiset(permuted) == multiset(indices)
    ensures BoundsAll(mesh, b, permuted)
  {
    SameElements(permuted, indices);
    forall k | 0 <= k < |permuted|
      ensures permuted[k] < |mesh| && Bounds(b, mesh[permuted[k]])
    {
      assert permuted[k] in indices;
    }
  }

  /** The leaves of the hierarchy partition the given triangles. */
  method Build(mesh: Mesh, indices: seq<nat>) returns (tree: Tree)
    requires indices != [] && forall k | 0 <= k < |indices| :: indices[k] < |mesh|
    ensures Valid(mesh, tree) && multiset(Triangles(tree)) == multiset(indices)
    ensures |indices| == 1 ==> tree.box == TriangleBounds(mesh[indices[0]])
    decreases |indices|
  {
    var box := BoundsFor(mesh, indices);
    if |indices| <= LEAF_TRIANGLES {
      return Leaf(box, indices);
    }
    var left, right := Split(mesh, indices);
    PartsAreSmaller(left, right, indices, |mesh|);
    var leftTree := Build(mesh, left);
    var rightTree := Build(mesh, right);
    tree := Node(box, leftTree, rightTree);
    BoundsPermuted(mesh, box, indices, Triangles(tree));
  }

  // ---------- Nearest hits ----------

  ghost predicate HitsAt(mesh: Mesh, r: Ray, j: nat, t: real) {
    j < |mesh| && RayTriangle(r, mesh[j]) == HitAt(t)
  }

  /** The nearest hit among `ts` closer than `maxT`, if there is one. */
  ghost predicate Nearest(mesh: Mesh, r: Ray, ts: seq<nat>, maxT: Bound, t: real, idx: nat, hit: bool) {
    if hit then
      && idx in ts && HitsAt(mesh, r, idx, t) && Less(Finite(t), maxT)
      && forall j, s | j in ts && HitsAt(mesh, r, j, s) :: t <= s
    else forall j, s | j in ts && HitsAt(mesh, r, j, s) :: !Less(Finite(s), maxT)
  }

  /** The bound after a search: the hit, or the bound it started from. */
  function Tighter(maxT: Bound, t: real, hit: bool): Bound {
    if hit then Finite(t) else maxT
  }

  /** Searching `b` with the bound that `a` left searches both. */
  lemma SearchBoth(mesh: Mesh, r: Ray, a: seq<nat>, b: seq<nat>, maxT: Bound, t: real, i: nat, hit: bool, t': real, i': nat, hit': bool)
    requires Nearest(mesh, r, a, maxT, t, i, hit) && Nearest(mesh, r, b, Tighter(maxT, t, hit), t', i', hit')
    ensures Nearest(mesh, r, a + b, maxT, if hit' then t' else t, if hit' then i' else i, hit || hit')
    ensures Nearest(mesh, r, b + a, maxT, if hit' then t' else t, if hit' then i' else i, hit || hit')
  {
  }

  lemma HitInsideNode(mesh: Mesh, tree: Tree, r: Ray, j: nat, t: real)
    requires Resolvable(r.direction) && BoundsAll(mesh, tree.box, Triangles(tree)) && j in Triangles(tree) && HitsAt(mesh, r, j, t)
    ensures t > 0.0 && InSlabs(r, tree.box, 3, t)
  {
    HitLiesInBox(r, mesh[j], tree.box);
    SlabsAreTheBox(r, tree.box, t);
  }

  /** A node whose box is missed, or entered beyond the bound, holds nothing nearer. */
  lemma NothingNearer(mesh: Mesh, tree: Tree, r: Ray, tMin: Bound, tMax: Bound, boxHit: bool, maxT: Bound)
    requires Resolvable(r.direction) && BoundsAll(mesh, tree.box, Triangles(tree))
    requires boxHit ==> forall t: real :: InSlabs(r, tree.box, 3, t) <==> Within(tMin, t, tMax)
    requires !boxHit ==> forall t: real | t > 0.0 :: !InSlabs(r, tree.box, 3, t)
    requires !boxHit || Less(maxT, tMin)
    ensures Nearest(mesh, r, Triangles(tree), maxT, 0.0, 0, false)
  {
    forall j, s | j in Triangles(tree) && HitsAt(mesh, r, j, s)
      ensures !Less(Finite(s), maxT)
    {
      HitInsideNode(mesh, tree, r, j, s);
    }
  }

  method IntersectLeaf(mesh: Mesh, triangles: seq<nat>, r: Ray, maxT: Bound) returns (t: real, idx: nat, hit: bool)
    requires forall k | 0 <= k < |triangles| :: triangles[k] < |mesh|
    ensures Nearest(mesh, r, triangles, maxT, t, idx, hit)
  {
    t, idx, hit := 0.0, 0, false;
    for n := 0 to |triangles|
      invariant Nearest(mesh, r, triangles[..n], maxT, t, idx, hit)
    {
      var j := triangles[n];
      var candidate := RayTriangle(r, mesh[j]);
      var closer := candidate.HitAt? && Less(Finite(candidate.t), Tighter(maxT, t, hit));
      assert triangles[..n + 1] == triangles[..n] + [j];
      OneTriangle(mesh, r, j, Tighter(maxT, t, hit), if closer then candidate.t else 0.0, closer);
      SearchBoth(mesh, r, triangles[..n], [j], maxT, t, idx, hit, if closer then candidate.t else 0.0, j, closer);
      if closer {
        t, idx, hit := candidate.t, j, true;
      }
    }
    assert triangles[..|triangles|] == triangles;
  }

  lemma OneTriangle(mesh: Mesh, r: Ray, j: nat, maxT: Bound, t: real, closer: bool)
    requires j < |mesh|
    requires closer <==> RayTriangle(r, mesh[j]).HitAt? && Less(Finite(RayTriangle(r, mesh[j]).t), maxT)
    requires closer ==> t == RayTriangle(r, mesh[j]).t
    ensures Nearest(mesh, r, [j], maxT, t, j, closer)
  {
  }

  /** A child with the parameter at which the ray enters its box. */
  datatype Candidate = Candidate(node: Tree, entry: Bound, hit: bool)

  ghost predicate CandidateOk(mesh: Mesh, r: Ray, c: Candidate) {
    && Valid(mesh, c.node)
    && (Resolvable(r.direction) ==> forall j, s | j in Triangles(c.node) && HitsAt(mesh, r, j, s) :: c.hit && !Less(Finite(s), c.entry))
  }

  method TraversalFor(mesh: Mesh, node: Tree, r: Ray) returns (c: Candidate)
    requires Valid(mesh, node)
    ensures c.node == node && CandidateOk(mesh, r, c)
  {
    var tMin, tMax, hit := RayBox(r, node.box);
    c := Candidate(node, if Less(tMin, Finite(0.0)) then Finite(0.0) else tMin, hit);
    forall j, s | Resolvable(r.direction) && j in Triangles(node) && HitsAt(mesh, r, j, s)
      ensures c.hit && !Less(Finite(s), c.entry)
    {
      HitInsideNode(mesh, node, r, j, s);
    }
  }

  /** No point of the ray passes the slab test of the box. */
  ghost predicate Overlooks(r: Ray, b: Box) {
    forall s: real :: !InSlabs(r, b, 3, s)
  }

  /** The nearest hit below a node that is closer than `maxT`. */
  method IntersectNearest(mesh: Mesh, tree: Tree, r: Ray, maxT: Bound) returns (t: real, idx: nat, hit: bool)
    requires Valid(mesh, tree)
    ensures Resolvable(r.direction) ==> Nearest(mesh, r, Triangles(tree), maxT, t, idx, hit)
    ensures Overlooks(r, tree.box) ==> !hit
    decreases tree, 1
  {
    var tMin, tMax, boxHit := RayBox(r, tree.box);
    if !boxHit || Less(maxT, tMin) {
      if Resolvable(r.direction) {
        NothingNearer(mesh, tree, r, tMin, tMax, boxHit, maxT);
      }
      return 0.0, 0, false;
    }
    ghost var some := Inhabited(tMin, tMax);
    assert InSlabs(r, tree.box, 3, some);
    match tree
    case Leaf(_, triangles) =>
      t, idx, hit := IntersectLeaf(mesh, triangles, r, maxT);
    case Node(_, left, right) =>
      var first := TraversalFor(mesh, left, r);
      var second := TraversalFor(mesh, right, r);
      if second.hit && (!first.hit || Less(second.entry, first.entry)) {
        first, second := second, first;
      }
      t, idx, hit := IntersectChild(mesh, first, r, maxT);
      var t', idx', hit' := IntersectChild(mesh, second, r, Tighter(maxT, t, hit));
      if Resolvable(r.direction) {
        SearchBoth(mesh, r, Triangles(first.node), Triangles(second.node), maxT, t, idx, hit, t', idx', hit');
      }
      if hit' {
        t, idx, hit := t', idx', true;
      }
  }

  /** Skips a child that the ray misses or enters beyond the bound. */
  method IntersectChild(mesh: Mesh, child: Candidate, r: Ray, bound: Bound) returns (t: real, idx: nat, hit: bool)
    requires CandidateOk(mesh, r, child)
    ensures Resolvable(r.direction) ==> Nearest(mesh, r, Triangles(child.node), bound, t, idx, hit)
    decreases child.node, 2
  {
    if !child.hit || Less(bound, child.entry) {
      return 0.0, 0, false;
    }
    t, idx, hit := IntersectNearest(mesh, child.node, r, bound);
  }

  // ---------- Agreement with brute force ----------

  /** Builds the hierarchy of a mesh; an empty mesh has none. */
  method BuildBVH(mesh: Mesh) returns (roots: seq<Tree>)
    ensures |roots| == if mesh == [] then 0 else 1
    ensures mesh != [] ==> Valid(mesh, roots[0]) && multiset(Triangles(roots[0])) == multiset(seq(|mesh|, i => i))
    ensures |mesh| == 1 ==> roots[0].box == TriangleBounds(mesh[0])
  {
    if mesh == [] {
      return [];
    }
    var tree := Build(mesh, seq(|mesh|, i => i));
    roots := [tree];
  }

  /** The ray crosses the j-th triangle at `t`, a point of that triangle. */
  ghost predicate CrossesAt(mesh: Mesh, r: Ray, j: nat, t: real) {
    j < |mesh| && Crosses(r, mesh[j], t)
  }

  lemma HitsAreCrossings(mesh: Mesh, r: Ray)
    ensures forall j, t :: HitsAt(mesh, r, j, t) <==> CrossesAt(mesh, r, j, t)
  {
    forall j: nat, t
      ensures HitsAt(mesh, r, j, t) <==> CrossesAt(mesh, r, j, t)
    {
      if j < |mesh| {
        TriangleTestIsExact(r, mesh[j], t);
      }
    }
  }

  /** Some triangle is crossed exactly when a hit is reported, and then at the smallest distance of all
      crossings, in a triangle that attains it. */
  ghost predicate AgreesWithBruteForce(mesh: Mesh, r: Ray, t: real, idx: nat, hit: bool) {
    && (hit <==> exists j, s :: CrossesAt(mesh, r, j, s))
    && (hit ==> CrossesAt(mesh, r, idx, t) && forall j, s | CrossesAt(mesh, r, j, s) :: t <= s)
  }

  /** Agreement holds on every mesh exactly for the rays the slab test resolves: see OnlyResolvableRaysAgree. */
  method Intersect(mesh: Mesh, roots: seq<Tree>, r: Ray) returns (t: real, idx: nat, hit: bool)
    requires |roots| == if mesh == [] then 0 else 1
    requires mesh != [] ==> Valid(mesh, roots[0]) && multiset(Triangles(roots[0])) == multiset(seq(|mesh|, i => i))
    ensures Resolvable(r.direction) ==> AgreesWithBruteForce(mesh, r, t, idx, hit)
    ensures mesh != [] && Overlooks(r, roots[0].box) ==> !hit
  {
    if roots == [] {
      return 0.0, 0, false;
    }
    t, idx, hit := IntersectNearest(mesh, roots[0], r, PosInf);
    EveryTriangleIsListed(mesh, Triangles(roots[0]));
    HitsAreCrossings(mesh, r);
  }

  /** For any other ray there is a one-triangle mesh that the ray hits and whose box it overlooks,
      so that no search that reports a miss agrees with brute force. */
  lemma OnlyResolvableRaysAgree(r: Ray) returns (mesh: Mesh)
    requires !Resolvable(r.direction)
    ensures |mesh| == 1 && Overlooks(r, TriangleBounds(mesh[0]))
    ensures forall t, idx :: !AgreesWithBruteForce(mesh, r, t, idx, false)
  {
    var tri, t := UnresolvableRayIsFooled(r);
    mesh := [tri];
    HitsAreCrossings(mesh, r);
    assert HitsAt(mesh, r, 0, t);
    forall s: real
      ensures !InSlabs(r, TriangleBounds(tri), 3, s)
    {
      AsideIsOverlooked(r, tri, s);
    }
  }

  lemma AsideIsOverlooked(r: Ray, tri: Triangle, s: real)
    requires Aside(r, tri)
    ensures !InSlabs(r, TriangleBounds(tri), 3, s)
  {
  }

  lemma EveryTriangleIsListed(mesh: Mesh, ts: seq<nat>)
    requires multiset(ts) == multiset(seq(|mesh|, i => i))
    ensures forall j: nat :: j in ts <==> j < |mesh|
  {
    var all := seq(|mesh|, i => i);
    SameElements(ts, all);
    forall j: nat
      ensures j in all <==> j < |mesh|
    {
      if j < |mesh| {
        assert all[j] == j;
      }
    }
  }
}
