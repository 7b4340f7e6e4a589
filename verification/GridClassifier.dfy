/** Classifying the nodes of a regular grid against a convex room (pde/ibm_grid.go, pde/convex.go). */
module GridClassifier {
  import opened IBMGrid
  import opened Vectors

  const NODE_PLANE_TOL: real := 0.000000001
  const MIN_WALL_FRAC: real := 0.000001

  // ---------- The convex room ----------

  /** Strictly on the inner side of every wall plane. */
  ghost predicate Inside(walls: seq<Plane>, p: Vec3) {
    forall k | 0 <= k < |walls| :: walls[k].SideOf(p) > 0.0
  }

  method PointInside(walls: seq<Plane>, p: Vec3) returns (r: bool)
    ensures r <==> Inside(walls, p)
  {
    for k := 0 to |walls|
      invariant forall j | 0 <= j < k :: walls[j].SideOf(p) > 0.0
    {
      if walls[k].SideOf(p) <= 0.0 {
        return false;
      }
    }
    return true;
  }

  /** The first wall nearest to `p`, or -1 in a room without walls. */
  ghost predicate IsNearest(walls: seq<Plane>, p: Vec3, wall: int) {
    if walls == [] then wall == -1
    else
      && 0 <= wall < |walls|
      && (forall k | 0 <= k < |walls| :: walls[wall].SideOf(p) <= walls[k].SideOf(p))
      && (forall k | 0 <= k < wall :: walls[wall].SideOf(p) < walls[k].SideOf(p))
  }

  method NearestWall(walls: seq<Plane>, p: Vec3) returns (wall: int)
    ensures IsNearest(walls, p, wall)
  {
    wall := -1;
    for k := 0 to |walls|
      invariant k == 0 ==> wall == -1
      invariant k > 0 ==> 0 <= wall < k
      invariant forall j | 0 <= j < k :: walls[wall].SideOf(p) <= walls[j].SideOf(p)
      invariant forall j | 0 <= j < wall :: walls[wall].SideOf(p) < walls[j].SideOf(p)
    {
      if wall < 0 || walls[k].SideOf(p) < walls[wall].SideOf(p) {
        wall := k;
      }
    }
  }

  // ---------- The distance to the wall along an axis ----------

  function AxisDirection(a: nat, d: nat): Vec3 {
    var s := if d == 0 then -1.0 else 1.0;
    Vec3(if a == 0 then s else 0.0, if a == 1 then s else 0.0, if a == 2 then s else 0.0)
  }

  function Along(p: Vec3, dir: Vec3, t: real): Vec3 {
    p.Add(dir.Scale(t))
  }

  /** The ray from `p` leaves through wall `w` after the positive distance `t`. */
  predicate Crosses(w: Plane, p: Vec3, dir: Vec3, t: real) {
    w.normal.Dot(dir) < 0.0 && t > 0.0 && t == -w.SideOf(p) / w.normal.Dot(dir)
  }

  ghost predicate SomeCrossing(walls: seq<Plane>, p: Vec3, dir: Vec3, t: real) {
    exists k :: 0 <= k < |walls| && Crosses(walls[k], p, dir, t)
  }

  ghost predicate FirstCrossing(walls: seq<Plane>, p: Vec3, dir: Vec3, t: real) {
    && SomeCrossing(walls, p, dir, t)
    && forall s :: SomeCrossing(walls, p, dir, s) ==> t <= s
  }

  /** A fraction pinned into (0, 1]. */
  function Snap(frac: real): (r: real)
    ensures 0.0 < r <= 1.0
    ensures MIN_WALL_FRAC <= frac <= 1.0 - NODE_PLANE_TOL ==> r == frac
    ensures 0.0 < frac <= 1.0 ==> -NODE_PLANE_TOL <= frac - r <= NODE_PLANE_TOL || frac < r == MIN_WALL_FRAC
  {
    if frac > 1.0 - NODE_PLANE_TOL then 1.0 else if frac < MIN_WALL_FRAC then MIN_WALL_FRAC else frac
  }

  method FracToWall(walls: seq<Plane>, p: Vec3, dir: Vec3, h: real) returns (frac: real, ok: bool)
    requires h > 0.0
    ensures 0.0 < frac <= 1.0
    ensures ok ==> exists t :: FirstCrossing(walls, p, dir, t) && frac == Snap(t / h)
    ensures !ok ==> frac == 1.0 && forall t :: !SomeCrossing(walls, p, dir, t)
  {
    var best := 0.0;
    ok := false;
    for k := 0 to |walls|
      invariant ok ==> exists j :: 0 <= j < k && Crosses(walls[j], p, dir, best)
      invariant forall j, s | 0 <= j < k && Crosses(walls[j], p, dir, s) :: ok && best <= s
    {
      var denom := walls[k].normal.Dot(dir);
      if denom < 0.0 {
        var t := -walls[k].SideOf(p) / denom;
        if t > 0.0 && (!ok || t < best) {
          best, ok := t, true;
          assert Crosses(walls[k], p, dir, best);
        }
      }
    }
    if !ok {
      return 1.0, false;
    }
    assert FirstCrossing(walls, p, dir, best);
    frac := Snap(best / h);
  }

  lemma SideAlong(w: Plane, p: Vec3, dir: Vec3, t: real)
    ensures w.SideOf(Along(p, dir, t)) == w.SideOf(p) + t * w.normal.Dot(dir)
  {
    Spread(w.normal.x, p.x, dir.x, t);
    Spread(w.normal.y, p.y, dir.y, t);
    Spread(w.normal.z, p.z, dir.z, t);
    Collect(t, w.normal.x * dir.x, w.normal.y * dir.y, w.normal.z * dir.z);
  }

  lemma Spread(n: real, p: real, d: real, t: real)
    ensures n * (p + d * t) == n * p + t * (n * d)
  {
  }

  lemma Collect(t: real, a: real, b: real, c: real)
    ensures t * (a + b + c) == t * a + t * b + t * c
  {
  }

  lemma FallsBelow(side: real, slope: real, t: real)
    requires slope < 0.0
    ensures side + t * slope <= 0.0 <==> t >= -side / slope
  {
    var q := -side / slope;
    assert q * slope == -side;
    assert side + t * slope == (t - q) * slope;
    NegativeSlope(t - q, slope);
  }

  lemma NegativeSlope(x: real, slope: real)
    requires slope < 0.0
    ensures x * slope <= 0.0 <==> x >= 0.0
  {
  }

  lemma NeverFalls(side: real, slope: real, t: real)
    requires side > 0.0 && slope >= 0.0 && t >= 0.0
    ensures side + t * slope > 0.0
  {
    assert t * slope >= 0.0;
  }

  /** From an inside point a wall plane is passed exactly from its crossing distance on. */
  lemma PassesAt(w: Plane, p: Vec3, dir: Vec3, t: real)
    requires w.SideOf(p) > 0.0 && t >= 0.0
    ensures w.SideOf(Along(p, dir, t)) <= 0.0 <==> exists s :: s <= t && Crosses(w, p, dir, s)
  {
    SideAlong(w, p, dir, t);
    var slope := w.normal.Dot(dir);
    if slope < 0.0 {
      var s := -w.SideOf(p) / slope;
      FallsBelow(w.SideOf(p), slope, t);
      FallsBelow(w.SideOf(p), slope, 0.0);
      if s <= t {
        assert Crosses(w, p, dir, s);
      }
    } else {
      NeverFalls(w.SideOf(p), slope, t);
    }
  }

  /** Walking from an inside point, the room is left exactly when the first crossing is reached. */
  lemma LeavesAtFirstCrossing(walls: seq<Plane>, p: Vec3, dir: Vec3, t: real, s: real)
    requires Inside(walls, p) && FirstCrossing(walls, p, dir, t) && s >= 0.0
    ensures Inside(walls, Along(p, dir, s)) <==> s < t
  {
    forall k | 0 <= k < |walls|
      ensures walls[k].SideOf(Along(p, dir, s)) <= 0.0 ==> t <= s
    {
      PassesAt(walls[k], p, dir, s);
      if walls[k].SideOf(Along(p, dir, s)) <= 0.0 {
        var c :| c <= s && Crosses(walls[k], p, dir, c);
        assert SomeCrossing(walls, p, dir, c);
      }
    }
    var k :| 0 <= k < |walls| && Crosses(walls[k], p, dir, t);
    PassesAt(walls[k], p, dir, s);
    assert t <= s ==> walls[k].SideOf(Along(p, dir, s)) <= 0.0;
  }

  /** Between an inside node and an outside one there is a wall. */
  lemma OutsideMeansCrossing(walls: seq<Plane>, p: Vec3, dir: Vec3, t: real)
    requires Inside(walls, p) && !Inside(walls, Along(p, dir, t)) && t >= 0.0
    ensures exists s :: s <= t && SomeCrossing(walls, p, dir, s)
  {
    var k :| 0 <= k < |walls| && walls[k].SideOf(Along(p, dir, t)) <= 0.0;
    PassesAt(walls[k], p, dir, t);
    var s :| s <= t && Crosses(walls[k], p, dir, s);
    assert SomeCrossing(walls, p, dir, s);
  }

  // ---------- Grid coordinates ----------

  datatype Frame = Frame(nx: nat, ny: nat, nz: nat, h: real, origin: Vec3)

  function NodeCount(f: Frame): nat {
    f.nx * f.ny * f.nz
  }

  function NodeIndex(f: Frame, ix: int, iy: int, iz: int): int {
    ix * f.ny * f.nz + iy * f.nz + iz
  }

  function OffsetFrom(base: real, i: int, h: real): real {
    base + i as real * h
  }

  function NodePos(f: Frame, ix: int, iy: int, iz: int): Vec3 {
    Vec3(OffsetFrom(f.origin.x, ix, f.h), OffsetFrom(f.origin.y, iy, f.h), OffsetFrom(f.origin.z, iz, f.h))
  }

  predicate InFrame(f: Frame, ix: int, iy: int, iz: int) {
    0 <= ix < f.nx && 0 <= iy < f.ny && 0 <= iz < f.nz
  }

  /** Node `i` sits at the given coordinates. */
  predicate SitsAt(f: Frame, i: int, ix: int, iy: int, iz: int) {
    InFrame(f, ix, iy, iz) && i == NodeIndex(f, ix, iy, iz)
  }

  lemma RowsAdjoin(f: Frame, ix: nat, iy: nat)
    ensures NodeIndex(f, ix, iy, f.nz) == NodeIndex(f, ix, iy + 1, 0)
    ensures NodeIndex(f, ix, f.ny, 0) == NodeIndex(f, ix + 1, 0, 0)
    ensures NodeIndex(f, 0, 0, 0) == 0 && NodeIndex(f, f.nx, 0, 0) == NodeCount(f)
  {
  }

  lemma Scaled(a: int, b: int, k: nat)
    requires a <= b
    ensures a * k <= b * k
  {
  }

  lemma IndexInRange(f: Frame, ix: int, iy: int, iz: int)
    requires InFrame(f, ix, iy, iz)
    ensures 0 <= NodeIndex(f, ix, iy, iz) < NodeCount(f)
  {
    var row := ix * f.ny + iy;
    Scaled(0, ix, f.ny);
    Scaled(ix + 1, f.nx, f.ny);
    assert (ix + 1) * f.ny == ix * f.ny + f.ny;
    Scaled(0, row, f.nz);
    Scaled(row + 1, f.nx * f.ny, f.nz);
    assert (row + 1) * f.nz == row * f.nz + f.nz;
    IndexByRow(f, ix, iy, iz);
  }

  lemma IndexByRow(f: Frame, ix: int, iy: int, iz: int)
    ensures NodeIndex(f, ix, iy, iz) == (ix * f.ny + iy) * f.nz + iz
  {
  }

  lemma SameQuotient(a: int, b: int, k: nat, r: int, s: int)
    requires 0 <= r < k && 0 <= s < k && a * k + r == b * k + s
    ensures a == b && r == s
  {
    assert (a + 1) * k == a * k + k && (b + 1) * k == b * k + k;
    if a < b {
      Scaled(a + 1, b, k);
    } else if b < a {
      Scaled(b + 1, a, k);
    }
  }

  /** A flat index determines its coordinates. */
  lemma CoordinatesUnique(f: Frame, i: int, ix: int, iy: int, iz: int, jx: int, jy: int, jz: int)
    requires SitsAt(f, i, ix, iy, iz) && SitsAt(f, i, jx, jy, jz)
    ensures ix == jx && iy == jy && iz == jz
  {
    IndexByRow(f, ix, iy, iz);
    IndexByRow(f, jx, jy, jz);
    SameQuotient(ix * f.ny + iy, jx * f.ny + jy, f.nz, iz, jz);
    SameQuotient(ix, jx, f.ny, iy, jy);
  }

  // ---------- Pass 1: inside or outside ----------

  ghost predicate Marked(f: Frame, walls: seq<Plane>, inside: seq<bool>, ix: int, iy: int, iz: int)
    requires |inside| == NodeCount(f) && InFrame(f, ix, iy, iz)
  {
    IndexInRange(f, ix, iy, iz);
    inside[NodeIndex(f, ix, iy, iz)] <==> Inside(walls, NodePos(f, ix, iy, iz))
  }

  ghost predicate MarkedBelow(f: Frame, walls: seq<Plane>, inside: seq<bool>, n: int) {
    && |inside| == NodeCount(f)
    && forall ix, iy, iz | InFrame(f, ix, iy, iz) && NodeIndex(f, ix, iy, iz) < n :: Marked(f, walls, inside, ix, iy, iz)
  }

  lemma MarkNode(f: Frame, walls: seq<Plane>, inside: seq<bool>, ix: int, iy: int, iz: int, value: bool)
    requires InFrame(f, ix, iy, iz) && MarkedBelow(f, walls, inside, NodeIndex(f, ix, iy, iz))
    requires value <==> Inside(walls, NodePos(f, ix, iy, iz))
    ensures 0 <= NodeIndex(f, ix, iy, iz) < |inside|
    ensures MarkedBelow(f, walls, inside[NodeIndex(f, ix, iy, iz) := value], NodeIndex(f, ix, iy, iz) + 1)
  {
    IndexInRange(f, ix, iy, iz);
    var i := NodeIndex(f, ix, iy, iz);
    var inside' := inside[i := value];
    forall jx, jy, jz | InFrame(f, jx, jy, jz) && NodeIndex(f, jx, jy, jz) < i + 1
      ensures Marked(f, walls, inside', jx, jy, jz)
    {
      IndexInRange(f, jx, jy, jz);
      if NodeIndex(f, jx, jy, jz) == i {
        CoordinatesUnique(f, i, ix, iy, iz, jx, jy, jz);
      } else {
        assert Marked(f, walls, inside, jx, jy, jz);
      }
    }
  }

  method MarkRow(f: Frame, walls: seq<Plane>, mask: array<bool>, ix: nat, iy: nat)
    requires ix < f.nx && iy < f.ny && MarkedBelow(f, walls, mask[..], NodeIndex(f, ix, iy, 0))
    modifies mask
    ensures MarkedBelow(f, walls, mask[..], NodeIndex(f, ix, iy + 1, 0))
  {
    for iz := 0 to f.nz
      invariant MarkedBelow(f, walls, mask[..], NodeIndex(f, ix, iy, iz))
    {
      var i := NodeIndex(f, ix, iy, iz);
      var value := PointInside(walls, NodePos(f, ix, iy, iz));
      MarkNode(f, walls, mask[..], ix, iy, iz, value);
      ghost var before := mask[..];
      mask[i] := value;
      assert mask[..] == before[i := value];
    }
    RowsAdjoin(f, ix, iy);
  }

  method MarkLayer(f: Frame, walls: seq<Plane>, mask: array<bool>, ix: nat)
    requires ix < f.nx && MarkedBelow(f, walls, mask[..], NodeIndex(f, ix, 0, 0))
    modifies mask
    ensures MarkedBelow(f, walls, mask[..], NodeIndex(f, ix + 1, 0, 0))
  {
    for iy := 0 to f.ny
      invariant MarkedBelow(f, walls, mask[..], NodeIndex(f, ix, iy, 0))
    {
      MarkRow(f, walls, mask, ix, iy);
    }
    RowsAdjoin(f, ix, 0);
  }

  /** Marks every node as inside or outside the room. */
  method MarkInside(f: Frame, walls: seq<Plane>) returns (inside: seq<bool>)
    ensures MarkedBelow(f, walls, inside, NodeCount(f))
  {
    var mask := new bool[NodeCount(f)];
    RowsAdjoin(f, 0, 0);
    NothingBelow(f, walls, mask[..]);
    for ix := 0 to f.nx
      invariant MarkedBelow(f, walls, mask[..], NodeIndex(f, ix, 0, 0))
    {
      MarkLayer(f, walls, mask, ix);
    }
    inside := mask[..];
  }

  lemma NothingBelow(f: Frame, walls: seq<Plane>, inside: seq<bool>)
    requires |inside| == NodeCount(f)
    ensures MarkedBelow(f, walls, inside, 0)
  {
    forall ix, iy, iz | InFrame(f, ix, iy, iz)
      ensures NodeIndex(f, ix, iy, iz) >= 0
    {
      IndexInRange(f, ix, iy, iz);
    }
  }

  // ---------- Pass 2: interior or boundary ----------

  function Shift(axis: nat, a: nat, d: nat): int {
    if axis != a then 0 else if d == 0 then -1 else 1
  }

  /** The neighbour that way is on the grid and inside the room. */
  predicate NeighborIn(f: Frame, inside: seq<bool>, ix: int, iy: int, iz: int, a: nat, d: nat)
    requires |inside| == NodeCount(f)
  {
    var jx, jy, jz := ix + Shift(0, a, d), iy + Shift(1, a, d), iz + Shift(2, a, d);
    if InFrame(f, jx, jy, jz) then
      IndexInRange(f, jx, jy, jz);
      inside[NodeIndex(f, jx, jy, jz)]
    else false
  }

  ghost predicate Surrounded(f: Frame, inside: seq<bool>, ix: int, iy: int, iz: int)
    requires |inside| == NodeCount(f)
  {
    forall a: nat, d: nat | a < 3 && d < 2 :: NeighborIn(f, inside, ix, iy, iz, a, d)
  }

  method HasExterior(f: Frame, inside: seq<bool>, ix: int, iy: int, iz: int) returns (r: bool)
    requires |inside| == NodeCount(f)
    ensures r <==> !Surrounded(f, inside, ix, iy, iz)
  {
    for o := 0 to 6
      invariant forall a: nat, d: nat | a < 3 && d < 2 && 2 * a + d < o :: NeighborIn(f, inside, ix, iy, iz, a, d)
    {
      if !NeighborIn(f, inside, ix, iy, iz, o / 2, o % 2) {
        return true;
      }
    }
    return false;
  }

  /** What a fraction says: 0 for an active neighbour, and otherwise the pinned distance to the wall. */
  ghost predicate FractionMeans(f: Frame, walls: seq<Plane>, inside: seq<bool>, ix: int, iy: int, iz: int, a: nat, d: nat,
                                theta: real)
    requires |inside| == NodeCount(f) && f.h > 0.0
  {
    if NeighborIn(f, inside, ix, iy, iz, a, d) then theta == 0.0
    else 0.0 < theta <= 1.0 && WallDistance(walls, NodePos(f, ix, iy, iz), AxisDirection(a, d), f.h, theta)
  }

  ghost predicate WallDistance(walls: seq<Plane>, p: Vec3, dir: Vec3, h: real, frac: real)
    requires h > 0.0
  {
    || (exists t :: FirstCrossing(walls, p, dir, t) && frac == Snap(t / h))
    || (frac == 1.0 && forall t :: !SomeCrossing(walls, p, dir, t))
  }

  ghost predicate InfoOk(f: Frame, walls: seq<Plane>, inside: seq<bool>, ix: int, iy: int, iz: int, info: BoundaryInfo)
    requires |inside| == NodeCount(f) && f.h > 0.0
  {
    && IsNearest(walls, NodePos(f, ix, iy, iz), info.wall)
    && |info.frac| == 6 && forall o | 0 <= o < 6 :: FractionMeans(f, walls, inside, ix, iy, iz, o / 2, o % 2, info.frac[o])
  }

  method BoundaryInfoAt(f: Frame, walls: seq<Plane>, inside: seq<bool>, ix: int, iy: int, iz: int) returns (info: BoundaryInfo)
    requires |inside| == NodeCount(f) && f.h > 0.0
    ensures InfoOk(f, walls, inside, ix, iy, iz, info)
  {
    var p := NodePos(f, ix, iy, iz);
    var wall := NearestWall(walls, p);
    var frac: seq<real> := [];
    for o := 0 to 6
      invariant |frac| == o
      invariant forall j | 0 <= j < o :: FractionMeans(f, walls, inside, ix, iy, iz, j / 2, j % 2, frac[j])
    {
      var value := 0.0;
      if !NeighborIn(f, inside, ix, iy, iz, o / 2, o % 2) {
        var distance, _ := FracToWall(walls, p, AxisDirection(o / 2, o % 2), f.h);
        value := distance;
      }
      frac := frac + [value];
    }
    info := BoundaryInfo(frac, wall);
  }

  /** The node has its class and, on the boundary, its wall fractions. */
  ghost predicate Classified(f: Frame, walls: seq<Plane>, inside: seq<bool>, class_: seq<NodeClass>, boundary: map<nat, BoundaryInfo>,
                             ix: int, iy: int, iz: int)
    requires |inside| == |class_| == NodeCount(f) && f.h > 0.0 && InFrame(f, ix, iy, iz)
  {
    IndexInRange(f, ix, iy, iz);
    var i := NodeIndex(f, ix, iy, iz);
    && (class_[i].Exterior? <==> !inside[i])
    && (class_[i].Interior? <==> inside[i] && Surrounded(f, inside, ix, iy, iz))
    && (class_[i].Boundary? <==> i in boundary) && (i in boundary ==> InfoOk(f, walls, inside, ix, iy, iz, boundary[i]))
  }

  ghost predicate ClassifiedBelow(f: Frame, walls: seq<Plane>, inside: seq<bool>, class_: seq<NodeClass>, boundary: map<nat, BoundaryInfo>, n: int)
    requires f.h > 0.0
  {
    && |inside| == |class_| == NodeCount(f) && (forall j | j in boundary :: j < n)
    && forall ix, iy, iz | InFrame(f, ix, iy, iz) && NodeIndex(f, ix, iy, iz) < n :: Classified(f, walls, inside, class_, boundary, ix, iy, iz)
  }

  lemma ClassifyNode(f: Frame, walls: seq<Plane>, inside: seq<bool>, class_: seq<NodeClass>, boundary: map<nat, BoundaryInfo>,
                     class': seq<NodeClass>, boundary': map<nat, BoundaryInfo>, ix: int, iy: int, iz: int)
    requires f.h > 0.0 && InFrame(f, ix, iy, iz) && ClassifiedBelow(f, walls, inside, class_, boundary, NodeIndex(f, ix, iy, iz))
    requires |class'| == |class_| && forall j: nat | j < NodeIndex(f, ix, iy, iz) && j < |class_| :: class'[j] == class_[j]
    requires forall j | j in boundary :: j in boundary' && boundary'[j] == boundary[j]
    requires forall j | j in boundary' :: j in boundary || j == NodeIndex(f, ix, iy, iz)
    requires Classified(f, walls, inside, class', boundary', ix, iy, iz)
    ensures ClassifiedBelow(f, walls, inside, class', boundary', NodeIndex(f, ix, iy, iz) + 1)
  {
    var i := NodeIndex(f, ix, iy, iz);
    forall jx, jy, jz | InFrame(f, jx, jy, jz) && NodeIndex(f, jx, jy, jz) < i + 1
      ensures Classified(f, walls, inside, class', boundary', jx, jy, jz)
    {
      IndexInRange(f, jx, jy, jz);
      if NodeIndex(f, jx, jy, jz) == i {
        CoordinatesUnique(f, i, ix, iy, iz, jx, jy, jz);
      } else {
        assert Classified(f, walls, inside, class_, boundary, jx, jy, jz);
      }
    }
  }

  method ClassifyOne(f: Frame, walls: seq<Plane>, inside: seq<bool>, ix: int, iy: int, iz: int)
    returns (class_: NodeClass, info: BoundaryInfo)
    requires |inside| == NodeCount(f) && f.h > 0.0 && InFrame(f, ix, iy, iz) && 0 <= NodeIndex(f, ix, iy, iz) < |inside|
    ensures class_.Exterior? <==> !inside[NodeIndex(f, ix, iy, iz)]
    ensures class_.Interior? <==> inside[NodeIndex(f, ix, iy, iz)] && Surrounded(f, inside, ix, iy, iz)
    ensures class_.Boundary? ==> InfoOk(f, walls, inside, ix, iy, iz, info)
  {
    info := BoundaryInfo([], -1);
    if !inside[NodeIndex(f, ix, iy, iz)] {
      return Exterior, info;
    }
    var edge := HasExterior(f, inside, ix, iy, iz);
    if !edge {
      return Interior, info;
    }
    class_ := Boundary;
    info := BoundaryInfoAt(f, walls, inside, ix, iy, iz);
  }

  method ClassifyRow(f: Frame, walls: seq<Plane>, inside: seq<bool>, classes: array<NodeClass>, start: map<nat, BoundaryInfo>, ix: nat, iy: nat)
    returns (boundary: map<nat, BoundaryInfo>)
    requires f.h > 0.0 && ix < f.nx && iy < f.ny && ClassifiedBelow(f, walls, inside, classes[..], start, NodeIndex(f, ix, iy, 0))
    modifies classes
    ensures ClassifiedBelow(f, walls, inside, classes[..], boundary, NodeIndex(f, ix, iy + 1, 0))
  {
    boundary := start;
    for iz := 0 to f.nz
      invariant ClassifiedBelow(f, walls, inside, classes[..], boundary, NodeIndex(f, ix, iy, iz))
    {
      var i := NodeIndex(f, ix, iy, iz);
      IndexInRange(f, ix, iy, iz);
      ghost var before, known := classes[..], boundary;
      var class_, info := ClassifyOne(f, walls, inside, ix, iy, iz);
      classes[i] := class_;
      if class_.Boundary? {
        boundary := boundary[i := info];
      }
      ClassifyNode(f, walls, inside, before, known, classes[..], boundary, ix, iy, iz);
    }
    RowsAdjoin(f, ix, iy);
  }

  method ClassifyLayer(f: Frame, walls: seq<Plane>, inside: seq<bool>, classes: array<NodeClass>, start: map<nat, BoundaryInfo>, ix: nat)
    returns (boundary: map<nat, BoundaryInfo>)
    requires f.h > 0.0 && ix < f.nx && ClassifiedBelow(f, walls, inside, classes[..], start, NodeIndex(f, ix, 0, 0))
    modifies classes
    ensures ClassifiedBelow(f, walls, inside, classes[..], boundary, NodeIndex(f, ix + 1, 0, 0))
  {
    boundary := start;
    for iy := 0 to f.ny
      invariant ClassifiedBelow(f, walls, inside, classes[..], boundary, NodeIndex(f, ix, iy, 0))
    {
      boundary := ClassifyRow(f, walls, inside, classes, boundary, ix, iy);
    }
    RowsAdjoin(f, ix, 0);
  }

  /** Inside nodes with an outside neighbour become boundary nodes, with their wall fractions. */
  method ClassifyNodes(f: Frame, walls: seq<Plane>, inside: seq<bool>) returns (class_: seq<NodeClass>, boundary: map<nat, BoundaryInfo>)
    requires f.h > 0.0 && |inside| == NodeCount(f)
    ensures ClassifiedBelow(f, walls, inside, class_, boundary, NodeCount(f))
  {
    var classes := new NodeClass[NodeCount(f)];
    boundary := map[];
    RowsAdjoin(f, 0, 0);
    NoneClassified(f, walls, inside, classes[..], boundary);
    for ix := 0 to f.nx
      invariant ClassifiedBelow(f, walls, inside, classes[..], boundary, NodeIndex(f, ix, 0, 0))
    {
      boundary := ClassifyLayer(f, walls, inside, classes, boundary, ix);
    }
    class_ := classes[..];
  }

  lemma NoneClassified(f: Frame, walls: seq<Plane>, inside: seq<bool>, class_: seq<NodeClass>, boundary: map<nat, BoundaryInfo>)
    requires f.h > 0.0 && |inside| == |class_| == NodeCount(f) && boundary == map[]
    ensures ClassifiedBelow(f, walls, inside, class_, boundary, 0)
  {
    forall ix, iy, iz | InFrame(f, ix, iy, iz)
      ensures NodeIndex(f, ix, iy, iz) >= 0
    {
      IndexInRange(f, ix, iy, iz);
    }
  }

  // ---------- Pass 3: the sparse node lists ----------

  ghost predicate RefOk(f: Frame, class_: seq<NodeClass>, boundary: map<nat, BoundaryInfo>, ref: BoundaryRef, n: int) {
    && ref.idx < n && ref.idx < |class_| && SitsAt(f, ref.idx, ref.ix, ref.iy, ref.iz) && class_[ref.idx].Boundary?
    && ref.idx in boundary && ref.info == boundary[ref.idx]
  }

  ghost predicate Listed(refs: seq<BoundaryRef>, i: nat) {
    exists k :: 0 <= k < |refs| && refs[k].idx == i
  }

  /** The lists name the active nodes below `n`, in ascending order. */
  ghost predicate ListsBelow(f: Frame, class_: seq<NodeClass>, boundary: map<nat, BoundaryInfo>, ints: seq<nat>, refs: seq<BoundaryRef>, n: int) {
    && (forall k | 0 <= k < |ints| :: ints[k] < n && ints[k] < |class_| && class_[ints[k]].Interior?)
    && (forall k | 0 <= k < |refs| :: RefOk(f, class_, boundary, refs[k], n))
    && (forall j, k | 0 <= j < k < |ints| :: ints[j] < ints[k])
    && (forall j, k | 0 <= j < k < |refs| :: refs[j].idx < refs[k].idx)
    && (forall i: nat | i < n && i < |class_| && class_[i].Interior? :: i in ints)
    && (forall i: nat | i < n && i < |class_| && class_[i].Boundary? :: Listed(refs, i))
  }

  ghost predicate AllKnown(class_: seq<NodeClass>, boundary: map<nat, BoundaryInfo>) {
    forall i: nat | i < |class_| && class_[i].Boundary? :: i in boundary
  }

  lemma ListNode(f: Frame, class_: seq<NodeClass>, boundary: map<nat, BoundaryInfo>, ints: seq<nat>, refs: seq<BoundaryRef>,
                 ix: nat, iy: nat, iz: nat, i: nat)
    requires SitsAt(f, i, ix, iy, iz) && i < |class_| && AllKnown(class_, boundary) && ListsBelow(f, class_, boundary, ints, refs, i)
    ensures class_[i].Interior? ==> ListsBelow(f, class_, boundary, ints + [i], refs, i + 1)
    ensures class_[i].Boundary? ==> ListsBelow(f, class_, boundary, ints, refs + [BoundaryRef(i, ix, iy, iz, boundary[i])], i + 1)
    ensures class_[i].Exterior? ==> ListsBelow(f, class_, boundary, ints, refs, i + 1)
  {
    if class_[i].Interior? {
      assert (ints + [i])[|ints|] == i;
    } else if class_[i].Boundary? {
      ListBoundaryNode(f, class_, boundary, ints, refs, ix, iy, iz, i);
    }
  }

  lemma ListBoundaryNode(f: Frame, class_: seq<NodeClass>, boundary: map<nat, BoundaryInfo>, ints: seq<nat>, refs: seq<BoundaryRef>,
                         ix: nat, iy: nat, iz: nat, i: nat)
    requires SitsAt(f, i, ix, iy, iz) && i < |class_| && ListsBelow(f, class_, boundary, ints, refs, i) && class_[i].Boundary? && i in boundary
    ensures ListsBelow(f, class_, boundary, ints, refs + [BoundaryRef(i, ix, iy, iz, boundary[i])], i + 1)
  {
    var refs' := refs + [BoundaryRef(i, ix, iy, iz, boundary[i])];
    forall j: nat | j < i + 1 && class_[j].Boundary?
      ensures Listed(refs', j)
    {
      if j == i {
        assert refs'[|refs|].idx == i;
      } else {
        assert Listed(refs, j);
        var k :| 0 <= k < |refs| && refs[k].idx == j;
        assert refs'[k].idx == j;
      }
    }
  }

  method ListRow(f: Frame, class_: seq<NodeClass>, boundary: map<nat, BoundaryInfo>, ints0: seq<nat>, refs0: seq<BoundaryRef>, ix: nat, iy: nat)
    returns (ints: seq<nat>, refs: seq<BoundaryRef>)
    requires |class_| == NodeCount(f) && AllKnown(class_, boundary) && ix < f.nx && iy < f.ny
    requires ListsBelow(f, class_, boundary, ints0, refs0, NodeIndex(f, ix, iy, 0))
    ensures ListsBelow(f, class_, boundary, ints, refs, NodeIndex(f, ix, iy + 1, 0))
  {
    ints, refs := ints0, refs0;
    for iz := 0 to f.nz
      invariant ListsBelow(f, class_, boundary, ints, refs, NodeIndex(f, ix, iy, iz))
    {
      var i := NodeIndex(f, ix, iy, iz);
      IndexInRange(f, ix, iy, iz);
      ListNode(f, class_, boundary, ints, refs, ix, iy, iz, i);
      match class_[i]
      case Interior => ints := ints + [i];
      case Boundary => refs := refs + [BoundaryRef(i, ix, iy, iz, boundary[i])];
      case Exterior =>
    }
    RowsAdjoin(f, ix, iy);
  }

  method ListLayer(f: Frame, class_: seq<NodeClass>, boundary: map<nat, BoundaryInfo>, ints0: seq<nat>, refs0: seq<BoundaryRef>, ix: nat)
    returns (ints: seq<nat>, refs: seq<BoundaryRef>)
    requires |class_| == NodeCount(f) && AllKnown(class_, boundary) && ix < f.nx
    requires ListsBelow(f, class_, boundary, ints0, refs0, NodeIndex(f, ix, 0, 0))
    ensures ListsBelow(f, class_, boundary, ints, refs, NodeIndex(f, ix + 1, 0, 0))
  {
    ints, refs := ints0, refs0;
    for iy := 0 to f.ny
      invariant ListsBelow(f, class_, boundary, ints, refs, NodeIndex(f, ix, iy, 0))
    {
      ints, refs := ListRow(f, class_, boundary, ints, refs, ix, iy);
    }
    RowsAdjoin(f, ix, 0);
  }

  method BuildActiveNodeLists(f: Frame, class_: seq<NodeClass>, boundary: map<nat, BoundaryInfo>) returns (ints: seq<nat>, refs: seq<BoundaryRef>)
    requires |class_| == NodeCount(f) && AllKnown(class_, boundary)
    ensures ListsBelow(f, class_, boundary, ints, refs, NodeCount(f))
  {
    ints, refs := [], [];
    RowsAdjoin(f, 0, 0);
    for ix := 0 to f.nx
      invariant ListsBelow(f, class_, boundary, ints, refs, NodeIndex(f, ix, 0, 0))
    {
      ints, refs := ListLayer(f, class_, boundary, ints, refs, ix);
    }
  }

  // ---------- The whole classifier ----------

  function LayoutOf(f: Frame, class_: seq<NodeClass>, ints: seq<nat>, refs: seq<BoundaryRef>): Layout {
    Layout(f.nx, f.ny, f.nz, f.h, class_, ints, refs)
  }

  lemma PositiveFactors(a: nat, b: nat, c: nat)
    requires a * b * c > 0
    ensures b > 0 && c > 0
  {
  }

  lemma CoordinatesExist(f: Frame, i: nat) returns (ix: nat, iy: nat, iz: nat)
    requires i < NodeCount(f)
    ensures SitsAt(f, i, ix, iy, iz)
  {
    PositiveFactors(f.nx, f.ny, f.nz);
    Divide(i, f.nx * f.ny, f.nz);
    var row := i / f.nz;
    Divide(row, f.nx, f.ny);
    ix, iy, iz := row / f.ny, row % f.ny, i % f.nz;
    IndexByRow(f, ix, iy, iz);
  }

  lemma Divide(i: nat, rows: nat, width: nat)
    requires width > 0 && i < rows * width
    ensures i == i / width * width + i % width && 0 <= i / width < rows && 0 <= i % width < width
  {
    if i / width >= rows {
      Scaled(rows, i / width, width);
    }
  }

  lemma NeighborIndex(f: Frame, g: Layout, ix: int, iy: int, iz: int, a: nat, d: nat)
    requires g.ny == f.ny && g.nz == f.nz && a < 3 && d < 2
    ensures NodeIndex(f, ix + Shift(0, a, d), iy + Shift(1, a, d), iz + Shift(2, a, d)) == NodeIndex(f, ix, iy, iz) + Delta(g, a, d)
  {
  }

  /** The three passes fit together: node `i`, at its coordinates, has a correct class and info. */
  ghost predicate Result(f: Frame, walls: seq<Plane>, inside: seq<bool>, class_: seq<NodeClass>, boundary: map<nat, BoundaryInfo>) {
    f.h > 0.0 && MarkedBelow(f, walls, inside, NodeCount(f)) && ClassifiedBelow(f, walls, inside, class_, boundary, NodeCount(f))
  }

  lemma ActiveIsInside(f: Frame, walls: seq<Plane>, inside: seq<bool>, class_: seq<NodeClass>, boundary: map<nat, BoundaryInfo>, g: Layout,
                       ix: int, iy: int, iz: int)
    requires Result(f, walls, inside, class_, boundary) && InFrame(f, ix, iy, iz) && g.class_ == class_
    ensures Active(g, NodeIndex(f, ix, iy, iz)) <==> Inside(walls, NodePos(f, ix, iy, iz))
    ensures 0 <= NodeIndex(f, ix, iy, iz) < |inside| && (inside[NodeIndex(f, ix, iy, iz)] <==> Active(g, NodeIndex(f, ix, iy, iz)))
  {
    IndexInRange(f, ix, iy, iz);
    assert Marked(f, walls, inside, ix, iy, iz) && Classified(f, walls, inside, class_, boundary, ix, iy, iz);
  }

  lemma NeighborActive(f: Frame, walls: seq<Plane>, inside: seq<bool>, class_: seq<NodeClass>, boundary: map<nat, BoundaryInfo>, g: Layout,
                       ix: int, iy: int, iz: int, a: nat, d: nat)
    requires Result(f, walls, inside, class_, boundary) && g.class_ == class_ && g.ny == f.ny && g.nz == f.nz && a < 3 && d < 2
    ensures NeighborIn(f, inside, ix, iy, iz, a, d) <==>
              && InFrame(f, ix + Shift(0, a, d), iy + Shift(1, a, d), iz + Shift(2, a, d))
              && Active(g, NodeIndex(f, ix, iy, iz) + Delta(g, a, d))
  {
    var jx, jy, jz := ix + Shift(0, a, d), iy + Shift(1, a, d), iz + Shift(2, a, d);
    NeighborIndex(f, g, ix, iy, iz, a, d);
    if InFrame(f, jx, jy, jz) {
      ActiveIsInside(f, walls, inside, class_, boundary, g, jx, jy, jz);
    }
  }

  lemma InteriorIsOk(f: Frame, walls: seq<Plane>, inside: seq<bool>, class_: seq<NodeClass>, boundary: map<nat, BoundaryInfo>, g: Layout, i: nat)
    requires Result(f, walls, inside, class_, boundary) && g.class_ == class_ && g.ny == f.ny && g.nz == f.nz
    requires i < |class_| && class_[i].Interior?
    ensures InteriorOk(g, i)
  {
    var ix, iy, iz := CoordinatesExist(f, i);
    assert Classified(f, walls, inside, class_, boundary, ix, iy, iz);
    forall a: nat, d: nat | a < 3 && d < 2
      ensures Active(g, i + Delta(g, a, d))
    {
      assert NeighborIn(f, inside, ix, iy, iz, a, d);
      NeighborActive(f, walls, inside, class_, boundary, g, ix, iy, iz, a, d);
    }
  }

  lemma BoundaryIsOk(f: Frame, walls: seq<Plane>, inside: seq<bool>, class_: seq<NodeClass>, boundary: map<nat, BoundaryInfo>, g: Layout, ref: BoundaryRef)
    requires Result(f, walls, inside, class_, boundary) && g.class_ == class_ && g.nx == f.nx && g.ny == f.ny && g.nz == f.nz
    requires RefOk(f, class_, boundary, ref, NodeCount(f))
    ensures BoundaryOk(g, ref) && InfoOk(f, walls, inside, ref.ix, ref.iy, ref.iz, ref.info)
  {
    var ix, iy, iz := ref.ix, ref.iy, ref.iz;
    assert Classified(f, walls, inside, class_, boundary, ix, iy, iz);
    forall a: nat, d: nat | a < 3 && d < 2
      ensures FractionOk(g, ref, a, d)
    {
      NeighborActive(f, walls, inside, class_, boundary, g, ix, iy, iz, a, d);
      assert FractionMeans(f, walls, inside, ix, iy, iz, (2 * a + d) / 2, (2 * a + d) % 2, ref.info.frac[2 * a + d]);
      assert OnGrid(g, ref, a, d) <==> InFrame(f, ix + Shift(0, a, d), iy + Shift(1, a, d), iz + Shift(2, a, d));
    }
  }

  lemma LayoutIsValid(f: Frame, walls: seq<Plane>, inside: seq<bool>, class_: seq<NodeClass>, boundary: map<nat, BoundaryInfo>,
                      ints: seq<nat>, refs: seq<BoundaryRef>)
    requires Result(f, walls, inside, class_, boundary) && ListsBelow(f, class_, boundary, ints, refs, NodeCount(f))
    ensures ValidLayout(LayoutOf(f, class_, ints, refs))
  {
    var g := LayoutOf(f, class_, ints, refs);
    forall k | 0 <= k < |ints|
      ensures InteriorOk(g, g.interiorIdx[k])
    {
      InteriorIsOk(f, walls, inside, class_, boundary, g, ints[k]);
    }
    forall k | 0 <= k < |refs|
      ensures BoundaryOk(g, g.boundaryIdx[k])
    {
      BoundaryIsOk(f, walls, inside, class_, boundary, g, refs[k]);
    }
    forall i: nat | i < |g.class_| && g.class_[i].Boundary?
      ensures exists k :: RefAt(g, k, i)
    {
      assert Listed(refs, i);
      var k :| 0 <= k < |refs| && refs[k].idx == i;
      assert RefAt(g, k, i);
    }
  }

  /** Where the neighbour is a node outside the room, the stored fraction is the pinned distance at
      which the room is left, and that distance is at most one cell. */
  ghost predicate MeasuresExit(f: Frame, walls: seq<Plane>, ref: BoundaryRef, a: nat, d: nat)
    requires f.h > 0.0 && 2 * a + d < |ref.info.frac|
  {
    exists t :: 0.0 < t <= f.h && ref.info.frac[2 * a + d] == Snap(t / f.h) && ExitsAt(f, walls, ref, a, d, t)
  }

  ghost predicate ExitsAt(f: Frame, walls: seq<Plane>, ref: BoundaryRef, a: nat, d: nat, t: real) {
    forall s | s >= 0.0 :: Inside(walls, Along(NodePos(f, ref.ix, ref.iy, ref.iz), AxisDirection(a, d), s)) <==> s < t
  }

  lemma NextOffset(base: real, i: int, s: int, h: real)
    ensures OffsetFrom(base, i + s, h) == OffsetFrom(base, i, h) + s as real * h
  {
    assert (i + s) as real * h == i as real * h + s as real * h;
  }

  lemma NextNode(f: Frame, ix: int, iy: int, iz: int, a: nat, d: nat)
    requires a < 3 && d < 2
    ensures Along(NodePos(f, ix, iy, iz), AxisDirection(a, d), f.h) == NodePos(f, ix + Shift(0, a, d), iy + Shift(1, a, d), iz + Shift(2, a, d))
  {
    NextOffset(f.origin.x, ix, Shift(0, a, d), f.h);
    NextOffset(f.origin.y, iy, Shift(1, a, d), f.h);
    NextOffset(f.origin.z, iz, Shift(2, a, d), f.h);
  }

  lemma FractionIsExit(f: Frame, walls: seq<Plane>, inside: seq<bool>, class_: seq<NodeClass>, boundary: map<nat, BoundaryInfo>, g: Layout,
                       ref: BoundaryRef, a: nat, d: nat)
    requires Result(f, walls, inside, class_, boundary) && g == LayoutOf(f, class_, g.interiorIdx, g.boundaryIdx)
    requires RefOk(f, class_, boundary, ref, NodeCount(f)) && a < 3 && d < 2
    requires OnGrid(g, ref, a, d) && !Active(g, ref.idx + Delta(g, a, d)) && 2 * a + d < |ref.info.frac|
    ensures MeasuresExit(f, walls, ref, a, d)
  {
    var ix, iy, iz := ref.ix, ref.iy, ref.iz;
    var jx, jy, jz := ix + Shift(0, a, d), iy + Shift(1, a, d), iz + Shift(2, a, d);
    var p, dir := NodePos(f, ix, iy, iz), AxisDirection(a, d);
    BoundaryIsOk(f, walls, inside, class_, boundary, g, ref);
    ActiveIsInside(f, walls, inside, class_, boundary, g, ix, iy, iz);
    NeighborIndex(f, g, ix, iy, iz, a, d);
    ActiveIsInside(f, walls, inside, class_, boundary, g, jx, jy, jz);
    NextNode(f, ix, iy, iz, a, d);
    NeighborActive(f, walls, inside, class_, boundary, g, ix, iy, iz, a, d);
    assert FractionMeans(f, walls, inside, ix, iy, iz, (2 * a + d) / 2, (2 * a + d) % 2, ref.info.frac[2 * a + d]);
    OutsideMeansCrossing(walls, p, dir, f.h);
    var near :| near <= f.h && SomeCrossing(walls, p, dir, near);
    var t :| FirstCrossing(walls, p, dir, t) && ref.info.frac[2 * a + d] == Snap(t / f.h);
    forall s | s >= 0.0
      ensures Inside(walls, Along(p, dir, s)) <==> s < t
    {
      LeavesAtFirstCrossing(walls, p, dir, t, s);
    }
    assert ExitsAt(f, walls, ref, a, d, t);
  }

  // ---------- The frame ----------

  function Ceil(x: real): (n: int)
    ensures n as real - 1.0 < x <= n as real
  {
    -((-x).Floor)
  }

  /** The least and the greatest coordinate of the vertices along an axis. */
  ghost predicate IsLow(vertices: seq<Vec3>, a: nat, x: real) {
    (exists k :: 0 <= k < |vertices| && vertices[k].Axis(a) == x) && forall k | 0 <= k < |vertices| :: x <= vertices[k].Axis(a)
  }

  ghost predicate IsHigh(vertices: seq<Vec3>, a: nat, x: real) {
    (exists k :: 0 <= k < |vertices| && vertices[k].Axis(a) == x) && forall k | 0 <= k < |vertices| :: vertices[k].Axis(a) <= x
  }

  ghost predicate Encloses(vertices: seq<Vec3>, lo: Vec3, hi: Vec3, a: nat) {
    IsLow(vertices, a, lo.Axis(a)) && IsHigh(vertices, a, hi.Axis(a))
  }

  lemma WidenAxis(vertices: seq<Vec3>, n: nat, lo: Vec3, hi: Vec3, a: nat)
    requires n < |vertices| && a < 3 && Encloses(vertices[..n], lo, hi, a)
    ensures Encloses(vertices[..n + 1], MinCorner(lo, vertices[n]), MaxCorner(hi, vertices[n]), a)
  {
    var v, w := vertices[..n], vertices[..n + 1];
    assert w == v + [vertices[n]];
    var i :| 0 <= i < |v| && v[i].Axis(a) == lo.Axis(a);
    var j :| 0 <= j < |v| && v[j].Axis(a) == hi.Axis(a);
    assert w[i] == v[i] && w[j] == v[j] && w[n] == vertices[n];
  }

  /** The box of the vertices, grown by the padding on every side. */
  method BoundingBox(vertices: seq<Vec3>, padding: real) returns (box: Box)
    requires padding >= 0.0
    ensures vertices == [] ==> box == Box(ZERO, ZERO)
    ensures vertices != [] ==> forall a: nat | a < 3 :: Surrounds(vertices, padding, box, a)
    ensures box.lo.x <= box.hi.x && box.lo.y <= box.hi.y && box.lo.z <= box.hi.z
  {
    hide Encloses;
    if vertices == [] {
      return Box(ZERO, ZERO);
    }
    var lo, hi := vertices[0], vertices[0];
    FirstEncloses(vertices);
    for k := 1 to |vertices|
      invariant forall a: nat | a < 3 :: Encloses(vertices[..k], lo, hi, a)
    {
      var lower, upper := MinCorner(lo, vertices[k]), MaxCorner(hi, vertices[k]);
      ghost var seen := vertices[..k + 1];
      forall a: nat | a < 3
        ensures Encloses(seen, lower, upper, a)
      {
        WidenAxis(vertices, k, lo, hi, a);
      }
      lo, hi := lower, upper;
    }
    assert vertices[..|vertices|] == vertices;
    var pad := Vec3(padding, padding, padding);
    box := Box(lo.Sub(pad), hi.Add(pad));
    forall a: nat | a < 3
      ensures Surrounds(vertices, padding, box, a) && box.lo.Axis(a) <= box.hi.Axis(a)
    {
      GrownBox(vertices, padding, lo, hi, a);
    }
    assert box.lo.Axis(0) <= box.hi.Axis(0) && box.lo.Axis(1) <= box.hi.Axis(1) && box.lo.Axis(2) <= box.hi.Axis(2);
  }

  lemma FirstEncloses(vertices: seq<Vec3>)
    requires vertices != []
    ensures forall a: nat | a < 3 :: Encloses(vertices[..1], vertices[0], vertices[0], a)
  {
    forall a: nat | a < 3
      ensures Encloses(vertices[..1], vertices[0], vertices[0], a)
    {
      assert vertices[..1][0] == vertices[0];
    }
  }

  lemma GrownBox(vertices: seq<Vec3>, padding: real, lo: Vec3, hi: Vec3, a: nat)
    requires a < 3 && padding >= 0.0 && vertices != [] && Encloses(vertices, lo, hi, a)
    ensures var pad := Vec3(padding, padding, padding);
            Surrounds(vertices, padding, Box(lo.Sub(pad), hi.Add(pad)), a) && lo.Sub(pad).Axis(a) <= hi.Add(pad).Axis(a)
  {
    assert lo.Axis(a) <= vertices[0].Axis(a) <= hi.Axis(a);
  }

  /** Along an axis the box reaches as far as the vertices and by the padding further. */
  ghost predicate Surrounds(vertices: seq<Vec3>, padding: real, box: Box, a: nat) {
    IsLow(vertices, a, box.lo.Axis(a) + padding) && IsHigh(vertices, a, box.hi.Axis(a) - padding)
  }

  function HalfCount(width: real, h: real): (n: nat)
    requires width >= 0.0 && h > 0.0
    ensures n as real * h >= width * 0.5
    ensures (n - 1) as real * h < width * 0.5
  {
    var q := width / (2.0 * h);
    QuotientBounds(width, h);
    var n := Ceil(q);
    Around(q, n as real, (n - 1) as real, h, width * 0.5);
    n
  }

  lemma Around(q: real, above: real, below: real, h: real, half: real)
    requires below < q <= above && h > 0.0 && q * h == half
    ensures above * h >= half && below * h < half
  {
    ProductMono(q, above, h);
    StrictMono(below, q, h);
  }

  lemma StrictMono(x: real, y: real, h: real)
    requires x < y && h > 0.0
    ensures x * h < y * h
  {
  }

  lemma QuotientBounds(width: real, h: real)
    requires width >= 0.0 && h > 0.0
    ensures width / (2.0 * h) >= 0.0 && (width / (2.0 * h)) * h == width * 0.5
  {
    var q := width / (2.0 * h);
    assert q * (2.0 * h) == width;
    assert q * (2.0 * h) == 2.0 * (q * h);
    if q < 0.0 {
      NegativeTimes(q, 2.0 * h);
    }
  }

  lemma NegativeTimes(x: real, y: real)
    requires x < 0.0 && y > 0.0
    ensures x * y < 0.0
  {
  }

  lemma ProductMono(x: real, y: real, h: real)
    requires x <= y && h > 0.0
    ensures x * h <= y * h
  {
  }

  /** Along an axis the grid has `n` nodes, an odd number and no more than needed to span the box, and
      the node in the middle is the middle of the box. */
  ghost predicate AxisSpans(origin: real, n: nat, h: real, lo: real, hi: real) {
    exists half: nat :: n == 2 * half + 1 && Centered(origin, half, h, lo, hi)
  }

  ghost predicate Centered(origin: real, half: nat, h: real, lo: real, hi: real) {
    origin + half as real * h == (lo + hi) * 0.5 && (half - 1) as real * h < (hi - lo) * 0.5 <= half as real * h
  }

  function CountAlong(f: Frame, a: nat): nat {
    if a == 1 then f.ny else if a == 2 then f.nz else f.nx
  }

  ghost predicate Spans(f: Frame, box: Box) {
    forall a: nat | a < 3 :: AxisSpans(f.origin.Axis(a), CountAlong(f, a), f.h, box.lo.Axis(a), box.hi.Axis(a))
  }

  lemma AxisIsSpanned(lo: real, hi: real, h: real, half: nat)
    requires half as real * h >= (hi - lo) * 0.5 && (half - 1) as real * h < (hi - lo) * 0.5
    ensures AxisSpans(OffsetFrom((lo + hi) * 0.5, 0 - half, h), 2 * half + 1, h, lo, hi)
  {
    assert (0 - half) as real * h == -(half as real * h);
    assert Centered(OffsetFrom((lo + hi) * 0.5, 0 - half, h), half, h, lo, hi);
  }

  function FrameOver(box: Box, h: real): (f: Frame)
    requires h > 0.0 && box.lo.x <= box.hi.x && box.lo.y <= box.hi.y && box.lo.z <= box.hi.z
    ensures Spans(f, box) && f.h == h
  {
    var dims, center := box.Dimensions(), box.Center();
    var hx, hy, hz := HalfCount(dims.x, h), HalfCount(dims.y, h), HalfCount(dims.z, h);
    AxisIsSpanned(box.lo.x, box.hi.x, h, hx);
    AxisIsSpanned(box.lo.y, box.hi.y, h, hy);
    AxisIsSpanned(box.lo.z, box.hi.z, h, hz);
    Frame(2 * hx + 1, 2 * hy + 1, 2 * hz + 1, h,
          Vec3(OffsetFrom(center.x, 0 - hx, h), OffsetFrom(center.y, 0 - hy, h), OffsetFrom(center.z, 0 - hz, h)))
  }

  ghost predicate IsInterior(g: Layout, i: int) {
    0 <= i < |g.class_| && g.class_[i].Interior?
  }

  /** All six neighbours are on the grid, by their coordinates, and active. */
  ghost predicate NeighborsActive(f: Frame, g: Layout, ix: int, iy: int, iz: int) {
    forall a: nat, d: nat | a < 3 && d < 2 :: NeighborAt(f, g, ix, iy, iz, a, d)
  }

  ghost predicate NeighborAt(f: Frame, g: Layout, ix: int, iy: int, iz: int, a: nat, d: nat) {
    var jx, jy, jz := ix + Shift(0, a, d), iy + Shift(1, a, d), iz + Shift(2, a, d);
    InFrame(f, jx, jy, jz) && Active(g, NodeIndex(f, jx, jy, jz))
  }

  lemma InteriorNeighbors(f: Frame, walls: seq<Plane>, inside: seq<bool>, class_: seq<NodeClass>, boundary: map<nat, BoundaryInfo>, g: Layout,
                          ix: int, iy: int, iz: int)
    requires Result(f, walls, inside, class_, boundary) && g.class_ == class_ && g.ny == f.ny && g.nz == f.nz
    requires InFrame(f, ix, iy, iz) && IsInterior(g, NodeIndex(f, ix, iy, iz))
    ensures NeighborsActive(f, g, ix, iy, iz)
  {
    hide Inside;
    IndexInRange(f, ix, iy, iz);
    assert Classified(f, walls, inside, class_, boundary, ix, iy, iz);
    forall a: nat, d: nat | a < 3 && d < 2
      ensures NeighborAt(f, g, ix, iy, iz, a, d)
    {
      assert NeighborIn(f, inside, ix, iy, iz, a, d);
      NeighborActive(f, walls, inside, class_, boundary, g, ix, iy, iz, a, d);
      NeighborIndex(f, g, ix, iy, iz, a, d);
    }
  }

  /** Lays a grid over the room and classifies its nodes. */
  method ClassifyGrid(walls: seq<Plane>, vertices: seq<Vec3>, h: real) returns (g: Layout, f: Frame)
    requires h > 0.0
    ensures ValidLayout(g) && f.h == h && g == LayoutOf(f, g.class_, g.interiorIdx, g.boundaryIdx)
    ensures forall ix, iy, iz | InFrame(f, ix, iy, iz) :: Active(g, NodeIndex(f, ix, iy, iz)) <==> Inside(walls, NodePos(f, ix, iy, iz))
    ensures forall ix, iy, iz | InFrame(f, ix, iy, iz) && IsInterior(g, NodeIndex(f, ix, iy, iz)) :: NeighborsActive(f, g, ix, iy, iz)
    ensures forall k | 0 <= k < |g.boundaryIdx| ::
              var ref := g.boundaryIdx[k]; IsNearest(walls, NodePos(f, ref.ix, ref.iy, ref.iz), ref.info.wall)
    ensures forall k, a: nat, d: nat | 0 <= k < |g.boundaryIdx| && a < 3 && d < 2
              && OnGrid(g, g.boundaryIdx[k], a, d) && !Active(g, g.boundaryIdx[k].idx + Delta(g, a, d)) ::
              |g.boundaryIdx[k].info.frac| == 6 && MeasuresExit(f, walls, g.boundaryIdx[k], a, d)
    ensures vertices != [] ==> exists box :: Spans(f, box) && forall a: nat | a < 3 :: Surrounds(vertices, h, box, a)
  {
    hide Inside, NodePos, NeighborsActive, IsNearest, MeasuresExit, Spans, Surrounds, ValidLayout, OnGrid, Delta, AllKnown;
    var box := BoundingBox(vertices, h);
    f := FrameOver(box, h);
    var inside := MarkInside(f, walls);
    var class_, boundary := ClassifyNodes(f, walls, inside);
    assert Result(f, walls, inside, class_, boundary);
    KnownEverywhere(f, walls, inside, class_, boundary);
    var ints, refs := BuildActiveNodeLists(f, class_, boundary);
    g := LayoutOf(f, class_, ints, refs);
    LayoutIsValid(f, walls, inside, class_, boundary, ints, refs);
    forall ix, iy, iz | InFrame(f, ix, iy, iz)
      ensures Active(g, NodeIndex(f, ix, iy, iz)) <==> Inside(walls, NodePos(f, ix, iy, iz))
    {
      ActiveIsInside(f, walls, inside, class_, boundary, g, ix, iy, iz);
    }
    forall ix, iy, iz | InFrame(f, ix, iy, iz) && IsInterior(g, NodeIndex(f, ix, iy, iz))
      ensures NeighborsActive(f, g, ix, iy, iz)
    {
      InteriorNeighbors(f, walls, inside, class_, boundary, g, ix, iy, iz);
    }
    forall k | 0 <= k < |refs|
      ensures IsNearest(walls, NodePos(f, refs[k].ix, refs[k].iy, refs[k].iz), refs[k].info.wall)
    {
      BoundaryIsOk(f, walls, inside, class_, boundary, g, refs[k]);
    }
    forall k, a: nat, d: nat | 0 <= k < |refs| && a < 3 && d < 2 && OnGrid(g, refs[k], a, d) && !Active(g, refs[k].idx + Delta(g, a, d))
      ensures |refs[k].info.frac| == 6 && MeasuresExit(f, walls, refs[k], a, d)
    {
      BoundaryIsOk(f, walls, inside, class_, boundary, g, refs[k]);
      FractionIsExit(f, walls, inside, class_, boundary, g, refs[k], a, d);
    }
  }

  lemma KnownEverywhere(f: Frame, walls: seq<Plane>, inside: seq<bool>, class_: seq<NodeClass>, boundary: map<nat, BoundaryInfo>)
    requires Result(f, walls, inside, class_, boundary)
    ensures AllKnown(class_, boundary)
  {
    forall i: nat | i < |class_| && class_[i].Boundary?
      ensures i in boundary
    {
      var ix, iy, iz := CoordinatesExist(f, i);
      assert Classified(f, walls, inside, class_, boundary, ix, iy, iz);
    }
  }
}
