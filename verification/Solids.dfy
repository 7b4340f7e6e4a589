/** The volumes of boxes and tetrahedra, in coordinates: what the signed mesh volume is for
    (geometry/mesh.go). */
module Solids {
  import opened Finite
  import opened Intersections
  import opened MeshVolume
  import opened Vectors

  // ---------- Meshes given by corner numbers ----------

  datatype Face = Face(a: nat, b: nat, c: nat)

  function FaceSide(f: Face, s: nat): (nat, nat) {
    if s == 0 then (f.a, f.b) else if s == 1 then (f.b, f.c) else (f.c, f.a)
  }

  /** `count` faces over `corners` corners. `at` finds a directed edge, and `up(t)` is a side that the
      t-th face shares with a face of lower rank. */
  datatype Pattern = Pattern(count: nat, corners: nat, face: nat -> Face, at: ((nat, nat)) -> nat, up: nat -> nat, rank: nat -> nat) {
    /** The corner numbers of the k-th directed edge. */
    function Ends(k: nat): (nat, nat) {
      FaceSide(face(k / 3), k % 3)
    }

    /** The edge that runs along the k-th one the other way. */
    function Mate(k: nat): nat {
      at((Ends(k).1, Ends(k).0))
    }

    predicate FaceFits(t: nat) {
      face(t).a < corners && face(t).b < corners && face(t).c < corners
    }

    predicate EdgeFits(k: nat) {
      && Ends(k).0 != Ends(k).1 && at(Ends(k)) == k
      && Mate(k) < 3 * count && Ends(Mate(k)) == (Ends(k).1, Ends(k).0)
    }

    predicate Hangs(t: nat) {
      up(t) < 3 && Mate(3 * t + up(t)) / 3 < count && rank(Mate(3 * t + up(t)) / 3) < rank(t)
    }

    /** The faces close up and hang together. */
    ghost predicate ClosedUp() {
      && count > 0
      && (forall t: nat | t < count :: FaceFits(t))
      && (forall k: nat | k < 3 * count :: EdgeFits(k))
      && (forall t: nat | 0 < t < count :: Hangs(t))
    }
  }

  function MeshOf(p: Pattern, corners: seq<Vec3>): (mesh: Mesh)
    requires |corners| == p.corners && forall t: nat | t < p.count :: p.FaceFits(t)
    ensures |mesh| == p.count
  {
    seq(p.count, t requires 0 <= t < p.count =>
      assert p.FaceFits(t);
      Triangle(corners[p.face(t).a], corners[p.face(t).b], corners[p.face(t).c]))
  }

  ghost predicate Distinct(corners: seq<Vec3>) {
    forall i, j | 0 <= i < j < |corners| :: corners[i] != corners[j]
  }

  lemma EdgeOf(p: Pattern, corners: seq<Vec3>, k: nat)
    requires p.ClosedUp() && |corners| == p.corners && k < 3 * p.count
    ensures p.Ends(k).0 < |corners| && p.Ends(k).1 < |corners|
    ensures EdgeAt(MeshOf(p, corners), k) == Edge(corners[p.Ends(k).0], corners[p.Ends(k).1])
  {
    assert p.FaceFits(k / 3);
  }

  /** An edge's two users are itself and its mate. */
  lemma UsersOf(p: Pattern, corners: seq<Vec3>, k: nat, j: nat)
    requires p.ClosedUp() && |corners| == p.corners && Distinct(corners) && k < 3 * p.count && j < 3 * p.count
    ensures var mesh := MeshOf(p, corners); KeyOf(EdgeAt(mesh, j)) == KeyOf(EdgeAt(mesh, k)) <==> j == k || j == p.Mate(k)
  {
    EdgeOf(p, corners, k);
    EdgeOf(p, corners, j);
    var mesh, m := MeshOf(p, corners), p.Mate(k);
    assert p.EdgeFits(k) && p.EdgeFits(j) && p.EdgeFits(m);
    EdgeOf(p, corners, m);
    SameKey(EdgeAt(mesh, j), EdgeAt(mesh, k));
    hide KeyOf, EdgeAt, MeshOf, Pattern.Ends;
  }

  lemma EdgeIsPaired(p: Pattern, corners: seq<Vec3>, k: nat)
    requires p.ClosedUp() && |corners| == p.corners && Distinct(corners) && k < 3 * p.count
    ensures PairedAt(MeshOf(p, corners), k)
  {
    hide KeyOf, EdgeAt, MeshOf, Uses, Orientation, Forward;
    var mesh, n := MeshOf(p, corners), 3 * p.count;
    var key, m := KeyOf(EdgeAt(mesh, k)), p.Mate(k);
    assert p.EdgeFits(k) && m != k;
    UsesAre(mesh, n, key);
    var uses := Uses(mesh, n, key);
    forall j: nat
      ensures j in uses <==> j == k || j == m
    {
      if j < n {
        UsersOf(p, corners, k, j);
      }
    }
    CountEnds(uses, true, k, m);
    OrientationOfTwo(mesh, n, key);
    EdgeOf(p, corners, k);
    EdgeOf(p, corners, m);
    assert uses[0] in uses && uses[1] in uses;
    OppositeForward(mesh, k, m, key);
  }

  lemma OppositeForward(mesh: Mesh, k: nat, m: nat, key: Edge)
    requires k < 3 * |mesh| && m < 3 * |mesh| && key == KeyOf(EdgeAt(mesh, k))
    requires EdgeAt(mesh, k).a != EdgeAt(mesh, k).b && EdgeAt(mesh, m) == Edge(EdgeAt(mesh, k).b, EdgeAt(mesh, k).a)
    ensures Forward(mesh, k, key) <==> !Forward(mesh, m, key)
  {
  }

  lemma {:induction false} FaceIsReached(p: Pattern, corners: seq<Vec3>, t: nat)
    requires p.ClosedUp() && |corners| == p.corners && t < p.count
    ensures Reached(MeshOf(p, corners), t)
    decreases p.rank(t)
  {
    var mesh := MeshOf(p, corners);
    if t == 0 {
      assert ChainTo(mesh, [0], 0);
    } else {
      assert p.Hangs(t);
      var k := 3 * t + p.up(t);
      var m := p.Mate(k);
      assert p.EdgeFits(k);
      FaceIsReached(p, corners, m / 3);
      EdgeOf(p, corners, k);
      EdgeOf(p, corners, m);
      SideIndex(mesh, t, p.up(t));
      assert SharesSide(mesh, m / 3, m % 3, t, p.up(t));
      ReachNext(mesh, m / 3, t);
    }
  }

  /** Such a mesh is watertight and connected wherever its corners are. */
  lemma ClosesUp(p: Pattern, corners: seq<Vec3>)
    requires p.ClosedUp() && |corners| == p.corners && Distinct(corners)
    ensures Watertight(MeshOf(p, corners)) && Connected(MeshOf(p, corners))
  {
    assert forall t: nat | t < p.count :: p.FaceFits(t);
    hide Pattern.ClosedUp;
    forall k: nat | k < 3 * p.count
      ensures PairedAt(MeshOf(p, corners), k)
    {
      EdgeIsPaired(p, corners, k);
    }
    forall t: nat | t < p.count
      ensures Reached(MeshOf(p, corners), t)
    {
      FaceIsReached(p, corners, t);
    }
  }

  // ---------- The pattern of a box ----------

  function BoxFace(t: nat): Face {
    match t
    case 0 => Face(0, 3, 4)
    case 1 => Face(3, 7, 4)
    case 2 => Face(1, 5, 2)
    case 3 => Face(2, 5, 6)
    case 4 => Face(0, 4, 1)
    case 5 => Face(1, 4, 5)
    case 6 => Face(3, 2, 7)
    case 7 => Face(2, 6, 7)
    case 8 => Face(0, 1, 3)
    case 9 => Face(1, 2, 3)
    case 10 => Face(4, 7, 5)
    case _ => Face(5, 7, 6)
  }

  function BoxEdge(e: (nat, nat)): nat {
    match e.0
    case 0 => if e.1 == 1 then 24 else if e.1 == 3 then 0 else 12
    case 1 => if e.1 == 0 then 14 else if e.1 == 2 then 27 else if e.1 == 3 then 25 else if e.1 == 4 then 15 else 6
    case 2 => if e.1 == 1 then 8 else if e.1 == 3 then 28 else if e.1 == 5 then 9 else if e.1 == 6 then 21 else 19
    case 3 => if e.1 == 0 then 26 else if e.1 == 1 then 29 else if e.1 == 2 then 18 else if e.1 == 4 then 1 else 3
    case 4 => if e.1 == 0 then 2 else if e.1 == 1 then 13 else if e.1 == 3 then 5 else if e.1 == 5 then 16 else 30
    case 5 => if e.1 == 1 then 17 else if e.1 == 2 then 7 else if e.1 == 4 then 32 else if e.1 == 6 then 10 else 33
    case 6 => if e.1 == 2 then 11 else if e.1 == 5 then 35 else 22
    case _ => if e.1 == 2 then 23 else if e.1 == 3 then 20 else if e.1 == 4 then 4 else if e.1 == 5 then 31 else 34
  }

  function BoxUp(t: nat): nat {
    if t == 1 || t == 3 || 6 <= t < 10 then 2 else 0
  }

  function BoxRank(t: nat): nat {
    match t
    case 0 => 0
    case 1 => 1
    case 2 => 3
    case 3 => 4
    case 4 => 1
    case 7 => 3
    case 8 => 1
    case 11 => 3
    case _ => 2
  }

  const BOX := Pattern(12, 8, BoxFace, BoxEdge, BoxUp, BoxRank)

  lemma LowEdgeFits(k: nat)
    requires k < 18
    ensures BOX.EdgeFits(k)
  {
  }

  lemma HighEdgeFits(k: nat)
    requires 18 <= k < 36
    ensures BOX.EdgeFits(k)
  {
  }

  lemma BoxFaceFits(t: nat)
    requires t < 12
    ensures BOX.FaceFits(t) && (t > 0 ==> BOX.Hangs(t))
  {
  }

  lemma BoxClosesUp()
    ensures BOX.ClosedUp()
  {
    hide Pattern.EdgeFits, Pattern.FaceFits, Pattern.Hangs;
    forall k: nat | k < 36
      ensures BOX.EdgeFits(k)
    {
      if k < 18 {
        LowEdgeFits(k);
      } else {
        HighEdgeFits(k);
      }
    }
    forall t: nat | t < 12
      ensures BOX.FaceFits(t) && (t > 0 ==> BOX.Hangs(t))
    {
      BoxFaceFits(t);
    }
  }

  // ---------- The volume of a box ----------

  /** The twelve triangles of an axis-aligned box, wound counterclockwise as seen from inside. */
  function MeshFromBox(lo: Vec3, hi: Vec3): (mesh: Mesh)
    ensures |mesh| == 12
  {
    var v := BoxCorners(lo, hi);
    [Triangle(v[0], v[3], v[4]), Triangle(v[3], v[7], v[4]), Triangle(v[1], v[5], v[2]), Triangle(v[2], v[5], v[6]),
     Triangle(v[0], v[4], v[1]), Triangle(v[1], v[4], v[5]), Triangle(v[3], v[2], v[7]), Triangle(v[2], v[6], v[7]),
     Triangle(v[0], v[1], v[3]), Triangle(v[1], v[2], v[3]), Triangle(v[4], v[7], v[5]), Triangle(v[5], v[7], v[6])]
  }

  function BoxCorners(lo: Vec3, hi: Vec3): (v: seq<Vec3>)
    ensures |v| == 8
  {
    [lo, Vec3(hi.x, lo.y, lo.z), Vec3(hi.x, hi.y, lo.z), Vec3(lo.x, hi.y, lo.z),
     Vec3(lo.x, lo.y, hi.z), Vec3(hi.x, lo.y, hi.z), hi, Vec3(lo.x, hi.y, hi.z)]
  }

  lemma BoxHasPattern(lo: Vec3, hi: Vec3)
    ensures forall t: nat | t < 12 :: BOX.FaceFits(t)
    ensures MeshFromBox(lo, hi) == MeshOf(BOX, BoxCorners(lo, hi))
  {
    BoxClosesUp();
    forall t: nat | t < 12
      ensures BOX.FaceFits(t) && MeshFromBox(lo, hi)[t] == MeshOf(BOX, BoxCorners(lo, hi))[t]
    {
      BoxFaceFits(t);
    }
  }

  lemma BoxEncloses(lo: Vec3, hi: Vec3)
    requires lo.x != hi.x && lo.y != hi.y && lo.z != hi.z
    ensures Watertight(MeshFromBox(lo, hi)) && Connected(MeshFromBox(lo, hi))
  {
    BoxHasPattern(lo, hi);
    BoxClosesUp();
    ClosesUp(BOX, BoxCorners(lo, hi));
    hide Pattern.ClosedUp, Watertight, Connected, MeshOf;
  }

  /** The area of the t-th triangle's face. */
  function FaceArea(a: real, b: real, c: real, t: nat): real {
    if t < 4 then b * c else if t < 8 then a * c else a * b
  }

  lemma BoxNormal(lo: Vec3, hi: Vec3, t: nat)
    requires t < 12
    ensures var n, area := NormalOf(MeshFromBox(lo, hi)[t]), FaceArea(hi.x - lo.x, hi.y - lo.y, hi.z - lo.z, t);
            n.Dot(n) == area * area
  {
  }

  /** Seen from its first corner, only the three far faces have volume. */
  lemma BoxTriangle(lo: Vec3, hi: Vec3, t: nat)
    requires t < 12
    ensures SixVolumeOf(MeshFromBox(lo, hi)[t], lo) == if t % 4 < 2 then 0.0 else -((hi.x - lo.x) * (hi.y - lo.y) * (hi.z - lo.z))
  {
  }

  ghost predicate FarShare(mesh: Mesh, o: Vec3, v: real, t: nat) {
    t < |mesh| && SixVolumeOf(mesh[t], o) == if t % 4 < 2 then 0.0 else -v
  }

  /** The shares of the first `n` triangles. */
  function FarShares(v: real, n: nat): real {
    if n == 0 then 0.0 else FarShares(v, n - 1) - if (n - 1) % 4 < 2 then 0.0 else v
  }

  lemma {:induction false} SumOfShares(mesh: Mesh, o: Vec3, v: real, n: nat)
    requires n <= |mesh| && forall t: nat | t < n :: FarShare(mesh, o, v, t)
    ensures SixVolume(mesh, o, n) == FarShares(v, n)
  {
    hide SixVolumeOf;
    if n > 0 {
      SumOfShares(mesh, o, v, n - 1);
      assert FarShare(mesh, o, v, n - 1);
    }
  }

  lemma AllShares(v: real)
    ensures FarShares(v, 12) == -(6.0 * v)
  {
    assert FarShares(v, 1) == 0.0 && FarShares(v, 2) == 0.0 && FarShares(v, 4) == -(2.0 * v);
    assert FarShares(v, 6) == -(2.0 * v) && FarShares(v, 8) == -(4.0 * v);
    assert FarShares(v, 10) == -(4.0 * v);
  }

  lemma BoxSum(lo: Vec3, hi: Vec3, v: real)
    requires v == (hi.x - lo.x) * (hi.y - lo.y) * (hi.z - lo.z)
    ensures SixVolume(MeshFromBox(lo, hi), lo, 12) == -(6.0 * v)
  {
    forall t: nat | t < 12
      ensures FarShare(MeshFromBox(lo, hi), lo, v, t)
    {
      BoxTriangle(lo, hi, t);
    }
    SumOfShares(MeshFromBox(lo, hi), lo, v, 12);
    AllShares(v);
    hide *;
  }

  lemma SquareExceeds(x: real)
    ensures x * x > DEGENERATE_SQUARED <==> Spacious(x)
  {
    var bound := 0.000000000002;
    assert bound * bound == DEGENERATE_SQUARED;
    assert x * x - bound * bound == (x - bound) * (x + bound);
    if x >= 0.0 {
      SignOfProduct(x - bound, x + bound);
    } else {
      SignOfProduct(x + bound, x - bound);
    }
  }

  lemma BoxIsDegenerate(lo: Vec3, hi: Vec3, t: nat)
    requires t < 12
    ensures Degenerate(MeshFromBox(lo, hi)[t]) <==> !Spacious(FaceArea(hi.x - lo.x, hi.y - lo.y, hi.z - lo.z, t))
  {
    hide MeshFromBox, Spacious, FaceArea, NormalOf, Vec3.Dot;
    BoxNormal(lo, hi, t);
    SquareExceeds(FaceArea(hi.x - lo.x, hi.y - lo.y, hi.z - lo.z, t));
  }

  lemma BoxIsSound(lo: Vec3, hi: Vec3, x: real, y: real, z: real)
    requires x == (hi.y - lo.y) * (hi.z - lo.z) && y == (hi.x - lo.x) * (hi.z - lo.z) && z == (hi.x - lo.x) * (hi.y - lo.y)
    ensures Sound(MeshFromBox(lo, hi)) <==> Spacious(x) && Spacious(y) && Spacious(z)
  {
    var mesh := MeshFromBox(lo, hi);
    forall t: nat | t < 12
      ensures Degenerate(mesh[t]) <==> !Spacious(if t < 4 then x else if t < 8 then y else z)
    {
      BoxIsDegenerate(lo, hi, t);
    }
    hide Degenerate, Spacious, MeshFromBox;
    assert Degenerate(mesh[0]) <==> !Spacious(x);
    assert Degenerate(mesh[4]) <==> !Spacious(y);
    assert Degenerate(mesh[8]) <==> !Spacious(z);
  }

  /** A face of this area has triangles of more than the smallest area. */
  predicate Spacious(area: real) {
    area > 0.000000000002 || area < -0.000000000002
  }

  /** The mesh of a box, of any corners, has a volume exactly if every face is larger than the
      tolerance, and the volume is width times depth times height. */
  lemma BoxVolume(lo: Vec3, hi: Vec3, volume: real, ok: bool)
    requires Measured(MeshFromBox(lo, hi), volume, ok)
    ensures var a, b, c := hi.x - lo.x, hi.y - lo.y, hi.z - lo.z;
            && (ok <==> Spacious(a * b) && Spacious(a * c) && Spacious(b * c))
            && (ok ==> volume == Magnitude(a * b * c))
  {
    var a, b, c := hi.x - lo.x, hi.y - lo.y, hi.z - lo.z;
    hide MeshFromBox, Watertight, Connected, Spacious, SixVolume, Sound, Measured;
    MeasuredIsSound(MeshFromBox(lo, hi), volume, ok);
    BoxIsSound(lo, hi, b * c, a * c, a * b);
    if Spacious(a * b) && Spacious(a * c) && Spacious(b * c) {
      SidesDiffer(a, b, c);
      BoxEncloses(lo, hi);
      BoxSum(lo, hi, a * b * c);
      SoundVolume(MeshFromBox(lo, hi), lo, a * b * c, volume, ok);
    }
  }

  lemma MeasuredIsSound(mesh: Mesh, volume: real, ok: bool)
    requires Measured(mesh, volume, ok)
    ensures ok ==> Sound(mesh)
  {
  }

  /** A sound, closed mesh of a signed volume other than zero has that volume's magnitude. */
  lemma SoundVolume(mesh: Mesh, o: Vec3, v: real, volume: real, ok: bool)
    requires Measured(mesh, volume, ok) && mesh != [] && Sound(mesh) && Watertight(mesh) && Connected(mesh)
    requires v != 0.0 && (SixVolume(mesh, o, |mesh|) == 6.0 * v || SixVolume(mesh, o, |mesh|) == -(6.0 * v))
    ensures ok && volume == Magnitude(v)
  {
    hide Watertight, Connected, SixVolume, Sound;
    VolumeIgnoresOrigin(mesh, o, ZERO);
    assert EnclosesRegion(mesh);
    assert VolumeFrom(mesh, o, volume);
  }

  lemma SidesDiffer(a: real, b: real, c: real)
    requires Spacious(a * b) && Spacious(a * c) && Spacious(b * c)
    ensures a != 0.0 && b != 0.0 && c != 0.0 && a * b * c != 0.0
  {
    NoZeroFactor(a, b);
    NoZeroFactor(a * b, c);
    NoZeroFactor(a, c);
  }

  lemma NoZeroFactor(x: real, y: real)
    ensures x * y != 0.0 <==> x != 0.0 && y != 0.0
  {
  }

  function Magnitude(x: real): (r: real)
    ensures r >= 0.0 && (r == x || r == -x)
  {
    if x < 0.0 then -x else x
  }

  // ---------- The pattern of a tetrahedron ----------

  function TetraFace(t: nat): Face {
    match t
    case 0 => Face(0, 1, 2)
    case 1 => Face(0, 3, 1)
    case 2 => Face(1, 3, 2)
    case _ => Face(2, 3, 0)
  }

  function TetraEdge(e: (nat, nat)): nat {
    match e.0
    case 0 => if e.1 == 1 then 0 else if e.1 == 2 then 11 else 3
    case 1 => if e.1 == 0 then 5 else if e.1 == 2 then 1 else 6
    case 2 => if e.1 == 0 then 2 else if e.1 == 1 then 8 else 9
    case _ => if e.1 == 0 then 10 else if e.1 == 1 then 4 else 7
  }

  const TETRA := Pattern(4, 4, TetraFace, TetraEdge, t => if t == 0 then 0 else 2, t => t)

  lemma TetraClosesUp()
    ensures TETRA.ClosedUp()
  {
  }

  // ---------- The volume of a tetrahedron ----------

  /** The four faces over a base triangle and an apex. */
  function Tetrahedron(p: Vec3, q: Vec3, r: Vec3, apex: Vec3): (mesh: Mesh)
    ensures |mesh| == 4
  {
    [Triangle(p, q, r), Triangle(p, apex, q), Triangle(q, apex, r), Triangle(r, apex, p)]
  }

  /** The area of a triangle in the plane, by its coordinates. */
  function PlaneArea(p: Vec3, q: Vec3, r: Vec3): real {
    Magnitude((q.x - p.x) * (r.y - p.y) - (r.x - p.x) * (q.y - p.y)) / 2.0
  }

  lemma TetraFacesFit()
    ensures forall t: nat | t < 4 :: TETRA.FaceFits(t)
    ensures TETRA.face(0) == Face(0, 1, 2) && TETRA.face(1) == Face(0, 3, 1)
    ensures TETRA.face(2) == Face(1, 3, 2) && TETRA.face(3) == Face(2, 3, 0)
  {
  }

  lemma TetraHasPattern(p: Vec3, q: Vec3, r: Vec3, apex: Vec3)
    ensures forall t: nat | t < 4 :: TETRA.FaceFits(t)
    ensures Tetrahedron(p, q, r, apex) == MeshOf(TETRA, [p, q, r, apex])
  {
    TetraFacesFit();
    var mesh := MeshOf(TETRA, [p, q, r, apex]);
    assert mesh[0] == Triangle(p, q, r) && mesh[1] == Triangle(p, apex, q);
    assert mesh[2] == Triangle(q, apex, r) && mesh[3] == Triangle(r, apex, p);
  }

  /** A face that holds the corner it is seen from has no volume. */
  lemma FaceAtCorner(p: Vec3, q: Vec3, r: Vec3)
    ensures SixVolumeOf(Triangle(p, q, r), p) == 0.0 && SixVolumeOf(Triangle(q, r, p), p) == 0.0
  {
    assert p.Sub(p) == ZERO;
  }

  lemma FaceAcross(p: Vec3, q: Vec3, r: Vec3, apex: Vec3, area: real)
    requires p.z == q.z == r.z && area == (q.x - p.x) * (r.y - p.y) - (r.x - p.x) * (q.y - p.y)
    ensures SixVolumeOf(Triangle(q, apex, r), p) == -(area * (apex.z - p.z))
  {
    assert q.Sub(p).z == 0.0 && r.Sub(p).z == 0.0;
    PlaneTriple(q.x - p.x, q.y - p.y, r.x - p.x, r.y - p.y, apex.x - p.x, apex.y - p.y, apex.z - p.z);
  }

  lemma PlaneTriple(qx: real, qy: real, rx: real, ry: real, ax: real, ay: real, h: real)
    ensures qx * (ay * 0.0 - h * ry) + qy * (h * rx - ax * 0.0) + 0.0 * (ax * ry - ay * rx) == -((qx * ry - rx * qy) * h)
  {
  }

  /** Seen from a corner of its base, only the face across has volume. */
  lemma TetraSum(p: Vec3, q: Vec3, r: Vec3, apex: Vec3, v: real)
    requires SixVolumeOf(Triangle(q, apex, r), p) == v
    ensures SixVolume(Tetrahedron(p, q, r, apex), p, 4) == v
  {
    FaceAtCorner(p, q, r);
    FaceAtCorner(p, apex, q);
    FaceAtCorner(p, r, apex);
    hide SixVolumeOf;
    assert SixVolume(Tetrahedron(p, q, r, apex), p, 1) == 0.0;
    assert SixVolume(Tetrahedron(p, q, r, apex), p, 2) == 0.0;
  }

  /** A tetrahedron is accepted unless one of its faces is smaller than the tolerance, and its volume
      is a third of base area times height. */
  lemma TetrahedronVolume(p: Vec3, q: Vec3, r: Vec3, apex: Vec3, volume: real, ok: bool)
    requires Measured(Tetrahedron(p, q, r, apex), volume, ok)
    requires p.z == q.z == r.z != apex.z
    ensures ok <==> Sound(Tetrahedron(p, q, r, apex))
    ensures ok ==> volume == PlaneArea(p, q, r) * Magnitude(apex.z - p.z) / 3.0
  {
    hide Watertight, Connected, SixVolume, Sound, Measured, Tetrahedron;
    var mesh, area, height := Tetrahedron(p, q, r, apex), (q.x - p.x) * (r.y - p.y) - (r.x - p.x) * (q.y - p.y), apex.z - p.z;
    MeasuredIsSound(mesh, volume, ok);
    if Sound(mesh) {
      TetraEncloses(p, q, r, apex);
      BaseIsFlat(p, q, r, apex, area);
      FaceAcross(p, q, r, apex, area);
      TetraSum(p, q, r, apex, -(area * height));
      NoZeroFactor(area, height);
      assert 6.0 * (area * height / 6.0) == area * height;
      SoundVolume(mesh, p, area * height / 6.0, volume, ok);
      MagnitudeOfProduct(area, height);
    }
  }

  lemma MagnitudeOfProduct(x: real, y: real)
    ensures Magnitude(x * y / 6.0) == Magnitude(x) / 2.0 * Magnitude(y) / 3.0
  {
  }

  lemma TetraEncloses(p: Vec3, q: Vec3, r: Vec3, apex: Vec3)
    requires Sound(Tetrahedron(p, q, r, apex))
    ensures Watertight(Tetrahedron(p, q, r, apex)) && Connected(Tetrahedron(p, q, r, apex))
  {
    var mesh := Tetrahedron(p, q, r, apex);
    assert !Degenerate(mesh[0]) && !Degenerate(mesh[1]) && !Degenerate(mesh[2]) && !Degenerate(mesh[3]);
    CornersDiffer(mesh[0]);
    CornersDiffer(mesh[1]);
    CornersDiffer(mesh[2]);
    CornersDiffer(mesh[3]);
    TetraHasPattern(p, q, r, apex);
    TetraClosesUp();
    ClosesUp(TETRA, [p, q, r, apex]);
    hide Pattern.ClosedUp, Watertight, Connected, MeshOf;
  }

  /** A base that is large enough has an area. */
  lemma BaseIsFlat(p: Vec3, q: Vec3, r: Vec3, apex: Vec3, area: real)
    requires Sound(Tetrahedron(p, q, r, apex)) && p.z == q.z == r.z
    requires area == (q.x - p.x) * (r.y - p.y) - (r.x - p.x) * (q.y - p.y)
    ensures area != 0.0
  {
    assert !Degenerate(Tetrahedron(p, q, r, apex)[0]);
    assert q.Sub(p).z == 0.0 && r.Sub(p).z == 0.0;
    var n := NormalOf(Triangle(p, q, r));
    assert n.x == 0.0 && n.y == 0.0 && n.z == area;
  }
}
