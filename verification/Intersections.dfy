/** Rays against boxes and triangles (geometry/intersect.go, geometry/triangle.go). */
module Intersections {
  import opened Vectors

  const PARALLEL_EPS: real := 0.000000000001
  const TRIANGLE_EPS: real := 0.000000001

  datatype Ray = Ray(origin: Vec3, direction: Vec3) {
    function At(t: real): Vec3 {
      origin.Add(direction.Scale(t))
    }
  }

  datatype Triangle = Triangle(v0: Vec3, v1: Vec3, v2: Vec3)

  function Abs(x: real): real {
    if x < 0.0 then -x else x
  }

  // ---------- Ray parameters with infinities ----------

  datatype Bound = NegInf | Finite(value: real) | PosInf

  predicate Less(a: Bound, b: Bound) {
    match (a, b)
    case (Finite(x), Finite(y)) => x < y
    case (NegInf, NegInf) => false
    case (NegInf, _) => true
    case (_, PosInf) => !a.PosInf?
    case _ => false
  }

  predicate Within(lo: Bound, t: real, hi: Bound) {
    !Less(Finite(t), lo) && !Less(hi, Finite(t))
  }

  // ---------- The slab test ----------

  /** The ray point at `t` lies between the two slab planes of an axis; a nearly parallel ray is
      judged by its origin. */
  predicate InSlab(r: Ray, b: Box, a: nat, t: real) {
    var o, d := r.origin.Axis(a), r.direction.Axis(a);
    if Abs(d) < PARALLEL_EPS then b.lo.Axis(a) <= o <= b.hi.Axis(a) else b.lo.Axis(a) <= o + t * d <= b.hi.Axis(a)
  }

  predicate InSlabs(r: Ray, b: Box, n: nat, t: real) {
    (n > 0 ==> InSlab(r, b, 0, t)) && (n > 1 ==> InSlab(r, b, 1, t)) && (n > 2 ==> InSlab(r, b, 2, t))
  }

  lemma Reaches(lo: real, o: real, d: real, t: real)
    requires d != 0.0
    ensures d > 0.0 ==> (lo <= o + t * d <==> (lo - o) * (1.0 / d) <= t)
    ensures d < 0.0 ==> (lo <= o + t * d <==> t <= (lo - o) * (1.0 / d))
    ensures d > 0.0 ==> (o + t * d <= lo <==> t <= (lo - o) * (1.0 / d))
    ensures d < 0.0 ==> (o + t * d <= lo <==> (lo - o) * (1.0 / d) <= t)
  {
    var inv := 1.0 / d;
    var x := (lo - o) * inv;
    assert inv * d == 1.0;
    assert x * d == (lo - o) * (inv * d);
    assert o + t * d - lo == (t - x) * d;
    SignOfProduct(t - x, d);
  }

  lemma SignOfProduct(x: real, d: real)
    ensures d > 0.0 ==> (x * d >= 0.0 <==> x >= 0.0) && (x * d <= 0.0 <==> x <= 0.0)
    ensures d < 0.0 ==> (x * d >= 0.0 <==> x <= 0.0) && (x * d <= 0.0 <==> x >= 0.0)
  {
  }

  /** The parameter interval in which a ray is between two slab planes. */
  function SlabInterval(lo: real, hi: real, o: real, d: real): (real, real)
    requires d != 0.0
  {
    var t0, t1 := (lo - o) * (1.0 / d), (hi - o) * (1.0 / d);
    if t0 > t1 then (t1, t0) else (t0, t1)
  }

  lemma IntervalIsExact(lo: real, hi: real, o: real, d: real, t: real)
    requires d != 0.0 && lo <= hi
    ensures var i := SlabInterval(lo, hi, o, d); lo <= o + t * d <= hi <==> i.0 <= t <= i.1
  {
    var t0, t1 := (lo - o) * (1.0 / d), (hi - o) * (1.0 / d);
    Reaches(lo, o, d, t);
    Reaches(hi, o, d, t);
    Reaches(lo, o, d, t1);
    Reaches(hi, o, d, t1);
  }

  function Raise(tMin: Bound, t: real): Bound {
    if Less(tMin, Finite(t)) then Finite(t) else tMin
  }

  function Lower(tMax: Bound, t: real): Bound {
    if Less(Finite(t), tMax) then Finite(t) else tMax
  }

  lemma Narrow(tMin: Bound, tMax: Bound, i: (real, real), t: real)
    ensures Within(Raise(tMin, i.0), t, Lower(tMax, i.1)) <==> Within(tMin, t, tMax) && i.0 <= t <= i.1
  {
  }

  lemma EmptyRange(tMin: Bound, tMax: Bound, t: real)
    requires Less(tMax, tMin)
    ensures !Within(tMin, t, tMax)
  {
  }

  lemma Inhabited(tMin: Bound, tMax: Bound) returns (t: real)
    requires !Less(tMax, tMin) && Less(Finite(0.0), tMax) && !tMin.PosInf?
    ensures Within(tMin, t, tMax)
  {
    t := if tMin.Finite? then tMin.value else 0.0;
  }

  predicate Proper(b: Box) {
    b.lo.x <= b.hi.x && b.lo.y <= b.hi.y && b.lo.z <= b.hi.z
  }

  /** One slab narrows the parameter range to exactly the parameters inside it. */
  lemma SlabNarrows(r: Ray, b: Box, a: nat, tMin: Bound, tMax: Bound, t: real)
    requires Proper(b) && a < 3 && !(Abs(r.direction.Axis(a)) < PARALLEL_EPS)
    requires InSlabs(r, b, a, t) <==> Within(tMin, t, tMax)
    ensures var i := SlabInterval(b.lo.Axis(a), b.hi.Axis(a), r.origin.Axis(a), r.direction.Axis(a));
            InSlabs(r, b, a + 1, t) <==> Within(Raise(tMin, i.0), t, Lower(tMax, i.1))
  {
    var i := SlabInterval(b.lo.Axis(a), b.hi.Axis(a), r.origin.Axis(a), r.direction.Axis(a));
    SlabIsInterval(r, b, a, t);
    Narrow(tMin, tMax, i, t);
    NextSlab(r, b, a, t);
  }

  lemma SlabIsInterval(r: Ray, b: Box, a: nat, t: real)
    requires Proper(b) && a < 3 && !(Abs(r.direction.Axis(a)) < PARALLEL_EPS)
    ensures var i := SlabInterval(b.lo.Axis(a), b.hi.Axis(a), r.origin.Axis(a), r.direction.Axis(a)); InSlab(r, b, a, t) <==> i.0 <= t <= i.1
  {
    hide SlabInterval, Vec3.Axis, Proper;
    ProperOnAxis(b, a);
    IntervalIsExact(b.lo.Axis(a), b.hi.Axis(a), r.origin.Axis(a), r.direction.Axis(a), t);
  }

  lemma ProperOnAxis(b: Box, a: nat)
    requires Proper(b)
    ensures b.lo.Axis(a) <= b.hi.Axis(a)
  {
  }

  lemma NextSlab(r: Ray, b: Box, a: nat, t: real)
    requires a < 3
    ensures InSlabs(r, b, a + 1, t) <==> InSlabs(r, b, a, t) && InSlab(r, b, a, t)
    ensures InSlabs(r, b, 3, t) ==> InSlabs(r, b, a + 1, t)
  {
  }

  /** Entry and exit parameters of a ray through a box: the parameters inside all three slabs are
      exactly those from entry to exit, and a miss means that no positive parameter is. */
  method RayBox(r: Ray, b: Box) returns (tMin: Bound, tMax: Bound, hit: bool)
    requires Proper(b)
    ensures hit ==> Less(Finite(0.0), tMax) && !Less(tMax, tMin) && !tMin.PosInf? && forall t: real :: InSlabs(r, b, 3, t) <==> Within(tMin, t, tMax)
    ensures !hit ==> forall t: real | t > 0.0 :: !InSlabs(r, b, 3, t)
  {
    tMin, tMax := NegInf, PosInf;
    for a := 0 to 3
      invariant !Less(tMax, tMin) && !tMin.PosInf? && forall t: real :: InSlabs(r, b, a, t) <==> Within(tMin, t, tMax)
    {
      var o, d := r.origin.Axis(a), r.direction.Axis(a);
      if Abs(d) < PARALLEL_EPS {
        if o < b.lo.Axis(a) || o > b.hi.Axis(a) {
          forall t: real
            ensures !InSlabs(r, b, 3, t)
          {
            NextSlab(r, b, a, t);
          }
          return Finite(0.0), Finite(0.0), false;
        }
        forall t: real
          ensures InSlabs(r, b, a + 1, t) <==> InSlabs(r, b, a, t)
        {
          NextSlab(r, b, a, t);
        }
      } else {
        var i := SlabInterval(b.lo.Axis(a), b.hi.Axis(a), o, d);
        forall t: real
          ensures InSlabs(r, b, a + 1, t) <==> Within(Raise(tMin, i.0), t, Lower(tMax, i.1))
        {
          SlabNarrows(r, b, a, tMin, tMax, t);
        }
        tMin, tMax := Raise(tMin, i.0), Lower(tMax, i.1);
        if Less(tMax, tMin) {
          forall t: real
            ensures !InSlabs(r, b, 3, t)
          {
            EmptyRange(tMin, tMax, t);
            NextSlab(r, b, a, t);
          }
          return Finite(0.0), Finite(0.0), false;
        }
      }
    }
    hit := Less(Finite(0.0), tMax);
  }

  /** Components are zero or large enough for the slab test to use them. */
  predicate Resolvable(d: Vec3) {
    (d.x == 0.0 || Abs(d.x) >= PARALLEL_EPS) && (d.y == 0.0 || Abs(d.y) >= PARALLEL_EPS) && (d.z == 0.0 || Abs(d.z) >= PARALLEL_EPS)
  }

  lemma SlabsAreTheBox(r: Ray, b: Box, t: real)
    requires Resolvable(r.direction)
    ensures InSlabs(r, b, 3, t) <==> b.Contains(r.At(t))
  {
    FirstSlab(r, b, t);
    SecondSlab(r, b, t);
    ThirdSlab(r, b, t);
  }

  lemma FirstSlab(r: Ray, b: Box, t: real)
    requires r.direction.x == 0.0 || Abs(r.direction.x) >= PARALLEL_EPS
    ensures InSlab(r, b, 0, t) <==> b.lo.x <= r.At(t).x <= b.hi.x
  {
    ScalarSlab(b.lo.x, b.hi.x, r.origin.x, r.direction.x, t);
  }

  lemma SecondSlab(r: Ray, b: Box, t: real)
    requires r.direction.y == 0.0 || Abs(r.direction.y) >= PARALLEL_EPS
    ensures InSlab(r, b, 1, t) <==> b.lo.y <= r.At(t).y <= b.hi.y
  {
    ScalarSlab(b.lo.y, b.hi.y, r.origin.y, r.direction.y, t);
  }

  lemma ThirdSlab(r: Ray, b: Box, t: real)
    requires r.direction.z == 0.0 || Abs(r.direction.z) >= PARALLEL_EPS
    ensures InSlab(r, b, 2, t) <==> b.lo.z <= r.At(t).z <= b.hi.z
  {
    ScalarSlab(b.lo.z, b.hi.z, r.origin.z, r.direction.z, t);
  }

  lemma ScalarSlab(lo: real, hi: real, o: real, d: real, t: real)
    requires d == 0.0 || Abs(d) >= PARALLEL_EPS
    ensures (if Abs(d) < PARALLEL_EPS then lo <= o <= hi else lo <= o + t * d <= hi) <==> lo <= o + t * d <= hi
  {
    if d == 0.0 {
      assert t * d == 0.0;
    }
  }

  // ---------- The triangle test ----------

  datatype Hit = Miss | HitAt(t: real)

  /** Accepts or rejects a hit, from the determinant and the three numerators of u, v and t. */
  function Decide(det: real, p: real, q: real, w: real): (hit: Hit)
    ensures hit.HitAt? ==> hit.t >= TRIANGLE_EPS && det != 0.0
  {
    if Abs(det) < TRIANGLE_EPS then Miss
    else
      var inv := 1.0 / det;
      var u, v, t := p * inv, q * inv, w * inv;
      if u < 0.0 || u > 1.0 then Miss
      else if v < 0.0 || u + v > 1.0 then Miss
      else if t < TRIANGLE_EPS then Miss
      else HitAt(t)
  }

  /** The Moller-Trumbore test, from both sides. */
  function RayTriangle(r: Ray, tri: Triangle): Hit {
    var e1, e2, s := tri.v1.Sub(tri.v0), tri.v2.Sub(tri.v0), r.origin.Sub(tri.v0);
    var h, q := r.direction.Cross(e2), s.Cross(e1);
    Decide(e1.Dot(h), s.Dot(h), r.direction.Dot(q), e2.Dot(q))
  }

  /** The triple product, expanded along the first coordinate. */
  lemma TripleProduct(a1: real, a2: real, a3: real, d1: real, d2: real, d3: real, b1: real, b2: real, b3: real)
    ensures a1 * (d2 * b3 - d3 * b2) + a2 * (d3 * b1 - d1 * b3) + a3 * (d1 * b2 - d2 * b1)
            == -(a1 * (b2 * d3 - b3 * d2)) - d1 * (a2 * b3 - a3 * b2) + b1 * (a2 * d3 - a3 * d2)
  {
  }

  /** A four-by-four determinant with two equal rows vanishes. */
  lemma EqualRows(s: real, a: real, b: real, d: real, sa: real, sb: real, sd: real, ab: real, ad: real, bd: real)
    ensures s * (-(a * bd) - d * ab + b * ad)
            == a * (-(s * bd) - d * sb + b * sd) + b * (-(d * -sa) - s * -ad + a * -sd) - d * (-(b * -sa) - s * -ab + a * -sb)
  {
  }

  lemma CramerAxis(d1: real, d2: real, d3: real, a1: real, a2: real, a3: real, b1: real, b2: real, b3: real, s1: real, s2: real, s3: real,
                   det: real, p: real, q: real, w: real)
    requires det == a1 * (d2 * b3 - d3 * b2) + a2 * (d3 * b1 - d1 * b3) + a3 * (d1 * b2 - d2 * b1)
    requires p == s1 * (d2 * b3 - d3 * b2) + s2 * (d3 * b1 - d1 * b3) + s3 * (d1 * b2 - d2 * b1)
    requires q == d1 * (s2 * a3 - s3 * a2) + d2 * (s3 * a1 - s1 * a3) + d3 * (s1 * a2 - s2 * a1)
    requires w == b1 * (s2 * a3 - s3 * a2) + b2 * (s3 * a1 - s1 * a3) + b3 * (s1 * a2 - s2 * a1)
    ensures s1 * det == a1 * p + b1 * q - d1 * w
  {
    TripleProduct(a1, a2, a3, d1, d2, d3, b1, b2, b3);
    TripleProduct(s1, s2, s3, d1, d2, d3, b1, b2, b3);
    TripleProduct(d1, d2, d3, s1, s2, s3, a1, a2, a3);
    TripleProduct(b1, b2, b3, s1, s2, s3, a1, a2, a3);
    EqualRows(s1, a1, b1, d1, s2 * a3 - s3 * a2, s2 * b3 - s3 * b2, s2 * d3 - s3 * d2, a2 * b3 - a3 * b2, a2 * d3 - a3 * d2, b2 * d3 - b3 * d2);
  }

  lemma CramerX(d: Vec3, e1: Vec3, e2: Vec3, s: Vec3)
    ensures s.x * e1.Dot(d.Cross(e2)) == e1.x * s.Dot(d.Cross(e2)) + e2.x * d.Dot(s.Cross(e1)) - d.x * e2.Dot(s.Cross(e1))
  {
    CramerAxis(d.x, d.y, d.z, e1.x, e1.y, e1.z, e2.x, e2.y, e2.z, s.x, s.y, s.z,
               e1.Dot(d.Cross(e2)), s.Dot(d.Cross(e2)), d.Dot(s.Cross(e1)), e2.Dot(s.Cross(e1)));
  }

  lemma CramerY(d: Vec3, e1: Vec3, e2: Vec3, s: Vec3)
    ensures s.y * e1.Dot(d.Cross(e2)) == e1.y * s.Dot(d.Cross(e2)) + e2.y * d.Dot(s.Cross(e1)) - d.y * e2.Dot(s.Cross(e1))
  {
    CramerAxis(d.y, d.z, d.x, e1.y, e1.z, e1.x, e2.y, e2.z, e2.x, s.y, s.z, s.x,
               e1.Dot(d.Cross(e2)), s.Dot(d.Cross(e2)), d.Dot(s.Cross(e1)), e2.Dot(s.Cross(e1)));
  }

  lemma CramerZ(d: Vec3, e1: Vec3, e2: Vec3, s: Vec3)
    ensures s.z * e1.Dot(d.Cross(e2)) == e1.z * s.Dot(d.Cross(e2)) + e2.z * d.Dot(s.Cross(e1)) - d.z * e2.Dot(s.Cross(e1))
  {
    CramerAxis(d.z, d.x, d.y, e1.z, e1.x, e1.y, e2.z, e2.x, e2.y, s.z, s.x, s.y,
               e1.Dot(d.Cross(e2)), s.Dot(d.Cross(e2)), d.Dot(s.Cross(e1)), e2.Dot(s.Cross(e1)));
  }

  /** Cramer's rule for s = u e1 + v e2 - t d, scaled by the determinant. */
  lemma Cramer(d: Vec3, e1: Vec3, e2: Vec3, s: Vec3, a: nat)
    requires a < 3
    ensures s.Axis(a) * e1.Dot(d.Cross(e2))
            == e1.Axis(a) * s.Dot(d.Cross(e2)) + e2.Axis(a) * d.Dot(s.Cross(e1)) - d.Axis(a) * e2.Dot(s.Cross(e1))
  {
    hide Vec3.Dot, Vec3.Cross;
    if a == 0 {
      CramerX(d, e1, e2, s);
    } else if a == 1 {
      CramerY(d, e1, e2, s);
    } else {
      CramerZ(d, e1, e2, s);
    }
  }

  lemma DivideOut(s: real, det: real, e1: real, e2: real, d: real, p: real, q: real, w: real)
    requires det != 0.0 && s * det == e1 * p + e2 * q - d * w
    ensures var inv := 1.0 / det; s == e1 * (p * inv) + e2 * (q * inv) - d * (w * inv)
  {
    var inv := 1.0 / det;
    assert inv * det == 1.0;
    assert (s * det) * inv == s * (inv * det);
    Distribute(e1, p, e2, q, d, w, inv);
  }

  lemma Distribute(e1: real, p: real, e2: real, q: real, d: real, w: real, inv: real)
    ensures (e1 * p + e2 * q - d * w) * inv == e1 * (p * inv) + e2 * (q * inv) - d * (w * inv)
  {
  }

  ghost predicate Mixes(a: real, b: real, c: real, u: real, v: real, p: real) {
    p == a + (b - a) * u + (c - a) * v
  }

  /** The point with barycentric weights 1 - u - v, u and v. */
  ghost predicate Barycentric(tri: Triangle, p: Vec3, u: real, v: real) {
    && u >= 0.0 && v >= 0.0 && u + v <= 1.0
    && forall a: nat | a < 3 :: Mixes(tri.v0.Axis(a), tri.v1.Axis(a), tri.v2.Axis(a), u, v, p.Axis(a))
  }

  /** On one axis, a hit puts the ray point at the mixture of the corners. */
  lemma HitOnAxis(o: real, d: real, a: real, b: real, c: real, s: real, e1: real, e2: real, det: real, p: real, q: real, w: real)
    requires Decide(det, p, q, w).HitAt? && s == o - a && e1 == b - a && e2 == c - a
    requires s * det == e1 * p + e2 * q - d * w
    ensures Mixes(a, b, c, p * (1.0 / det), q * (1.0 / det), o + d * Decide(det, p, q, w).t)
  {
    DivideOut(s, det, e1, e2, d, p, q, w);
  }

  lemma AcceptedWeights(det: real, p: real, q: real, w: real)
    requires Decide(det, p, q, w).HitAt?
    ensures var u, v := p * (1.0 / det), q * (1.0 / det); u >= 0.0 && v >= 0.0 && u + v <= 1.0
  {
  }

  /** The equation that puts the hit on one axis. */
  ghost predicate Balanced(r: Ray, tri: Triangle, det: real, p: real, q: real, w: real, a: nat) {
    r.origin.Sub(tri.v0).Axis(a) * det == tri.v1.Sub(tri.v0).Axis(a) * p + tri.v2.Sub(tri.v0).Axis(a) * q - r.direction.Axis(a) * w
  }

  lemma HitOnAxisOf(r: Ray, tri: Triangle, det: real, p: real, q: real, w: real, a: nat)
    requires a < 3 && Decide(det, p, q, w).HitAt? && Balanced(r, tri, det, p, q, w, a)
    ensures Mixes(tri.v0.Axis(a), tri.v1.Axis(a), tri.v2.Axis(a), p * (1.0 / det), q * (1.0 / det), r.At(Decide(det, p, q, w).t).Axis(a))
  {
    SubAxis(r.origin, tri.v0, a);
    SubAxis(tri.v1, tri.v0, a);
    SubAxis(tri.v2, tri.v0, a);
    AtAxis(r, Decide(det, p, q, w).t, a);
    hide Vec3.Axis, Vec3.Sub, Vec3.Scale, Vec3.Add, Ray.At, Decide, Mixes;
    HitOnAxis(r.origin.Axis(a), r.direction.Axis(a), tri.v0.Axis(a), tri.v1.Axis(a), tri.v2.Axis(a),
              r.origin.Sub(tri.v0).Axis(a), tri.v1.Sub(tri.v0).Axis(a), tri.v2.Sub(tri.v0).Axis(a), det, p, q, w);
  }

  lemma SubAxis(v: Vec3, w: Vec3, a: nat)
    ensures v.Sub(w).Axis(a) == v.Axis(a) - w.Axis(a)
  {
  }

  lemma AtAxis(r: Ray, t: real, a: nat)
    ensures r.At(t).Axis(a) == r.origin.Axis(a) + r.direction.Axis(a) * t
  {
  }

  lemma HitFromNumerators(r: Ray, tri: Triangle, det: real, p: real, q: real, w: real)
    requires Decide(det, p, q, w).HitAt?
    requires forall a: nat | a < 3 :: Balanced(r, tri, det, p, q, w, a)
    ensures Barycentric(tri, r.At(Decide(det, p, q, w).t), p * (1.0 / det), q * (1.0 / det))
  {
    AcceptedWeights(det, p, q, w);
    forall a: nat | a < 3
      ensures Mixes(tri.v0.Axis(a), tri.v1.Axis(a), tri.v2.Axis(a), p * (1.0 / det), q * (1.0 / det), r.At(Decide(det, p, q, w).t).Axis(a))
    {
      assert Balanced(r, tri, det, p, q, w, a);
      HitOnAxisOf(r, tri, det, p, q, w, a);
    }
  }

  lemma NumeratorsBalance(r: Ray, tri: Triangle, det: real, p: real, q: real, w: real, a: nat)
    requires a < 3
    requires var e1, e2, s, d := tri.v1.Sub(tri.v0), tri.v2.Sub(tri.v0), r.origin.Sub(tri.v0), r.direction;
             det == e1.Dot(d.Cross(e2)) && p == s.Dot(d.Cross(e2)) && q == d.Dot(s.Cross(e1)) && w == e2.Dot(s.Cross(e1))
    ensures Balanced(r, tri, det, p, q, w, a)
  {
    hide Vec3.Dot, Vec3.Cross, Vec3.Sub, Vec3.Axis;
    Cramer(r.direction, tri.v1.Sub(tri.v0), tri.v2.Sub(tri.v0), r.origin.Sub(tri.v0), a);
  }

  /** A reported hit is a point of the ray that lies in the triangle. */
  lemma HitLiesInTriangle(r: Ray, tri: Triangle) returns (u: real, v: real)
    requires RayTriangle(r, tri).HitAt?
    ensures Barycentric(tri, r.At(RayTriangle(r, tri).t), u, v)
  {
    hide Vec3.Dot, Vec3.Cross, Vec3.Sub, Vec3.Axis, Barycentric, Balanced, Decide;
    var e1, e2, s, d := tri.v1.Sub(tri.v0), tri.v2.Sub(tri.v0), r.origin.Sub(tri.v0), r.direction;
    var det, p, q, w := e1.Dot(d.Cross(e2)), s.Dot(d.Cross(e2)), d.Dot(s.Cross(e1)), e2.Dot(s.Cross(e1));
    forall a: nat | a < 3
      ensures Balanced(r, tri, det, p, q, w, a)
    {
      NumeratorsBalance(r, tri, det, p, q, w, a);
    }
    HitFromNumerators(r, tri, det, p, q, w);
    u, v := p * (1.0 / det), q * (1.0 / det);
  }

  lemma NonNegative(x: real, y: real)
    requires x >= 0.0 && y >= 0.0
    ensures x * y >= 0.0
  {
  }

  lemma AboveLow(a: real, b: real, c: real, lo: real, u: real, v: real)
    ensures a + (b - a) * u + (c - a) * v - lo == (a - lo) * (1.0 - u - v) + (b - lo) * u + (c - lo) * v
  {
  }

  lemma MixtureAtLeast(a: real, b: real, c: real, lo: real, u: real, v: real, p: real)
    requires lo <= a && lo <= b && lo <= c && u >= 0.0 && v >= 0.0 && u + v <= 1.0 && Mixes(a, b, c, u, v, p)
    ensures lo <= p
  {
    AboveLow(a, b, c, lo, u, v);
    NonNegative(a - lo, 1.0 - u - v);
    NonNegative(b - lo, u);
    NonNegative(c - lo, v);
  }

  lemma Mirrored(a: real, b: real, u: real)
    ensures (-b - -a) * u == -((b - a) * u)
  {
  }

  lemma MixtureStaysBetween(a: real, b: real, c: real, lo: real, hi: real, u: real, v: real, p: real)
    requires lo <= a <= hi && lo <= b <= hi && lo <= c <= hi && u >= 0.0 && v >= 0.0 && u + v <= 1.0 && Mixes(a, b, c, u, v, p)
    ensures lo <= p <= hi
  {
    MixtureAtLeast(a, b, c, lo, u, v, p);
    Mirrored(a, b, u);
    Mirrored(a, c, v);
    MixtureAtLeast(-a, -b, -c, -hi, u, v, -p);
  }

  lemma PointStaysInBox(tri: Triangle, b: Box, p: Vec3, u: real, v: real)
    requires Barycentric(tri, p, u, v) && b.Contains(tri.v0) && b.Contains(tri.v1) && b.Contains(tri.v2)
    ensures b.Contains(p)
  {
    assert Mixes(tri.v0.Axis(0), tri.v1.Axis(0), tri.v2.Axis(0), u, v, p.Axis(0));
    assert Mixes(tri.v0.Axis(1), tri.v1.Axis(1), tri.v2.Axis(1), u, v, p.Axis(1));
    assert Mixes(tri.v0.Axis(2), tri.v1.Axis(2), tri.v2.Axis(2), u, v, p.Axis(2));
    MixtureStaysBetween(tri.v0.x, tri.v1.x, tri.v2.x, b.lo.x, b.hi.x, u, v, p.x);
    MixtureStaysBetween(tri.v0.y, tri.v1.y, tri.v2.y, b.lo.y, b.hi.y, u, v, p.y);
    MixtureStaysBetween(tri.v0.z, tri.v1.z, tri.v2.z, b.lo.z, b.hi.z, u, v, p.z);
  }

  /** A box around the three corners holds every hit point. */
  lemma HitLiesInBox(r: Ray, tri: Triangle, b: Box)
    requires RayTriangle(r, tri).HitAt? && b.Contains(tri.v0) && b.Contains(tri.v1) && b.Contains(tri.v2)
    ensures b.Contains(r.At(RayTriangle(r, tri).t))
  {
    var u, v := HitLiesInTriangle(r, tri);
    PointStaysInBox(tri, b, r.At(RayTriangle(r, tri).t), u, v);
  }

  // ---------- Rays the slab test cannot resolve ----------

  lemma QuarterHit(det: real, t: real)
    requires Abs(det) >= TRIANGLE_EPS && t >= TRIANGLE_EPS
    ensures Decide(det, det * 0.25, det * 0.25, det * t) == HitAt(t)
  {
    var inv := 1.0 / det;
    assert det * inv == 1.0;
    Regroup(det, 0.25, inv);
    Regroup(det, t, inv);
  }

  lemma Regroup(a: real, b: real, c: real)
    ensures (a * b) * c == (a * c) * b
  {
  }

  function Rotate(v: Vec3): Vec3 {
    Vec3(v.y, v.z, v.x)
  }

  function RotateTriangle(tri: Triangle): Triangle {
    Triangle(Rotate(tri.v0), Rotate(tri.v1), Rotate(tri.v2))
  }

  /** Renaming the axes in a circle changes no hit. */
  lemma RotationKeepsHits(r: Ray, tri: Triangle)
    ensures RayTriangle(Ray(Rotate(r.origin), Rotate(r.direction)), RotateTriangle(tri)) == RayTriangle(r, tri)
  {
    var e1, e2, s, d := tri.v1.Sub(tri.v0), tri.v2.Sub(tri.v0), r.origin.Sub(tri.v0), r.direction;
    RotatedTriple(e1, d, e2);
    RotatedTriple(s, d, e2);
    RotatedTriple(d, s, e1);
    RotatedTriple(e2, s, e1);
    assert Rotate(e1) == Rotate(tri.v1).Sub(Rotate(tri.v0)) && Rotate(e2) == Rotate(tri.v2).Sub(Rotate(tri.v0));
    assert Rotate(s) == Rotate(r.origin).Sub(Rotate(tri.v0));
    hide Vec3.Dot, Vec3.Cross, Vec3.Sub, Rotate, Decide;
  }

  lemma RotatedTriple(a: Vec3, b: Vec3, c: Vec3)
    ensures Rotate(a).Dot(Rotate(b).Cross(Rotate(c))) == a.Dot(b.Cross(c))
  {
  }

  /** A triangle across the ray in the plane one unit along the x axis. */
  function Screen(r: Ray, q: real): Triangle {
    var p := r.At(q);
    var v0 := Vec3(p.x, p.y - q, p.z - q);
    Triangle(v0, Vec3(v0.x, v0.y + 4.0 * q, v0.z), Vec3(v0.x, v0.y, v0.z + 4.0 * q))
  }

  /** The determinant and numerators of the screen. */
  lemma ScreenNumerators(r: Ray, q: real)
    ensures var tri := Screen(r, q);
            var e1, e2, s, d := tri.v1.Sub(tri.v0), tri.v2.Sub(tri.v0), r.origin.Sub(tri.v0), r.direction;
            var det := -16.0 * (q * q * d.x);
            && e1.Dot(d.Cross(e2)) == det && s.Dot(d.Cross(e2)) == det * 0.25
            && d.Dot(s.Cross(e1)) == det * 0.25 && e2.Dot(s.Cross(e1)) == det * q
  {
    var d, f := r.direction, 4.0 * q;
    ScreenProducts(d.x, d.y, d.z, q);
    var tri := Screen(r, q);
    var e1, e2, s := Vec3(0.0, f, 0.0), Vec3(0.0, 0.0, f), Vec3(-(d.x * q), q - d.y * q, q - d.z * q);
    assert tri.v1.Sub(tri.v0) == e1 && tri.v2.Sub(tri.v0) == e2 && r.origin.Sub(tri.v0) == s;
    assert d.Cross(e2) == Vec3(d.y * f, -(d.x * f), 0.0);
    assert s.Cross(e1) == Vec3(-(s.z * f), 0.0, s.x * f);
  }

  lemma ScreenProducts(x: real, y: real, z: real, q: real)
    ensures var f, det := 4.0 * q, -16.0 * (q * q * x);
            && f * -(x * f) == det
            && -(x * q) * (y * f) + (q - y * q) * -(x * f) == det * 0.25
            && x * -((q - z * q) * f) + z * (-(x * q) * f) == det * 0.25
            && f * (-(x * q) * f) == det * q
  {
  }

  lemma Reciprocal(x: real) returns (q: real)
    requires 0.0 < Abs(x) < PARALLEL_EPS
    ensures q > 1.0 && q * Abs(x) == 1.0 && (x * q == 1.0 || x * q == -1.0)
  {
    q := 1.0 / Abs(x);
    assert q * Abs(x) == 1.0;
    if q <= 1.0 {
      SmallProduct(q, Abs(x));
    }
    assert x == Abs(x) || x == -Abs(x);
    assert (-Abs(x)) * q == -(q * Abs(x));
  }

  lemma SmallProduct(q: real, y: real)
    requires q <= 1.0 && 0.0 < y < 1.0
    ensures q * y < 1.0
  {
    if q > 0.0 {
      assert q * y <= y;
    } else {
      assert q * y <= 0.0;
    }
  }

  lemma LargeDeterminant(q: real, x: real)
    requires q > 1.0 && (x * q == 1.0 || x * q == -1.0)
    ensures Abs(-16.0 * (q * q * x)) >= TRIANGLE_EPS
  {
    assert q * q * x == q * (x * q);
  }

  lemma ScreenHitAt(r: Ray, q: real)
    requires q > 1.0 && (r.direction.x * q == 1.0 || r.direction.x * q == -1.0)
    ensures RayTriangle(r, Screen(r, q)) == HitAt(q)
  {
    hide Vec3.Dot, Vec3.Cross, Vec3.Sub, Screen, RayTriangle;
    LargeDeterminant(q, r.direction.x);
    ScreenNumerators(r, q);
    ScreenDecides(r, Screen(r, q), -16.0 * (q * q * r.direction.x), q);
  }

  lemma ScreenDecides(r: Ray, tri: Triangle, det: real, q: real)
    requires Abs(det) >= TRIANGLE_EPS && q > 1.0
    requires var e1, e2, s, d := tri.v1.Sub(tri.v0), tri.v2.Sub(tri.v0), r.origin.Sub(tri.v0), r.direction;
             && e1.Dot(d.Cross(e2)) == det && s.Dot(d.Cross(e2)) == det * 0.25
             && d.Dot(s.Cross(e1)) == det * 0.25 && e2.Dot(s.Cross(e1)) == det * q
    ensures RayTriangle(r, tri) == HitAt(q)
  {
    hide Vec3.Dot, Vec3.Cross, Vec3.Sub, Decide, Abs;
    QuarterHit(det, q);
  }

  /** A ray with a tiny x component hits a triangle that lies wholly on one side of its origin along x. */
  lemma ScreenIsHit(r: Ray) returns (tri: Triangle, t: real)
    requires 0.0 < Abs(r.direction.x) < PARALLEL_EPS
    ensures RayTriangle(r, tri) == HitAt(t)
    ensures tri.v0.x == tri.v1.x == tri.v2.x != r.origin.x
  {
    t := Reciprocal(r.direction.x);
    tri := Screen(r, t);
    ScreenHitAt(r, t);
    hide RayTriangle;
  }

  /** The triangle lies wholly on one side of the origin along an axis the slab test calls parallel. */
  predicate Aside(r: Ray, tri: Triangle) {
    || (Abs(r.direction.x) < PARALLEL_EPS && tri.v0.x == tri.v1.x == tri.v2.x != r.origin.x)
    || (Abs(r.direction.y) < PARALLEL_EPS && tri.v0.y == tri.v1.y == tri.v2.y != r.origin.y)
    || (Abs(r.direction.z) < PARALLEL_EPS && tri.v0.z == tri.v1.z == tri.v2.z != r.origin.z)
  }

  function TurnRay(r: Ray): Ray {
    Ray(Rotate(r.origin), Rotate(r.direction))
  }

  lemma UnresolvableRayIsFooled(r: Ray) returns (tri: Triangle, t: real)
    requires !Resolvable(r.direction)
    ensures RayTriangle(r, tri) == HitAt(t) && Aside(r, tri)
  {
    hide RayTriangle;
    if 0.0 < Abs(r.direction.x) < PARALLEL_EPS {
      tri, t := ScreenIsHit(r);
    } else if 0.0 < Abs(r.direction.y) < PARALLEL_EPS {
      var turned: Triangle;
      turned, t := ScreenIsHit(TurnRay(r));
      tri := RotateTriangle(RotateTriangle(turned));
      RotationKeepsHits(r, tri);
    } else {
      var turned: Triangle;
      turned, t := ScreenIsHit(TurnRay(TurnRay(r)));
      tri := RotateTriangle(turned);
      RotationKeepsHits(r, tri);
      RotationKeepsHits(TurnRay(r), RotateTriangle(tri));
    }
  }
}
