/** The triangle test against geometry: it reports a parameter exactly when the ray is there inside the
    triangle (geometry/triangle.go). */
module TriangleHits {
  import opened Intersections
  import opened Vectors

  /** At `t` the ray is at the mixture of the corners with weights 1 - u - v, u and v. */
  ghost predicate MeetsWith(r: Ray, tri: Triangle, t: real, u: real, v: real) {
    && u >= 0.0 && v >= 0.0 && u + v <= 1.0
    && r.origin.x + t * r.direction.x == tri.v0.x + u * (tri.v1.x - tri.v0.x) + v * (tri.v2.x - tri.v0.x)
    && r.origin.y + t * r.direction.y == tri.v0.y + u * (tri.v1.y - tri.v0.y) + v * (tri.v2.y - tri.v0.y)
    && r.origin.z + t * r.direction.z == tri.v0.z + u * (tri.v1.z - tri.v0.z) + v * (tri.v2.z - tri.v0.z)
  }

  /** At `t` the ray is in the triangle. */
  ghost predicate Meets(r: Ray, tri: Triangle, t: real) {
    exists u, v :: MeetsWith(r, tri, t, u, v)
  }

  /** How squarely the ray faces the triangle: the determinant of the direction and the two sides. */
  ghost function Facing(r: Ray, tri: Triangle): real {
    var px, py, pz := tri.v1.x - tri.v0.x, tri.v1.y - tri.v0.y, tri.v1.z - tri.v0.z;
    var qx, qy, qz := tri.v2.x - tri.v0.x, tri.v2.y - tri.v0.y, tri.v2.z - tri.v0.z;
    px * (r.direction.y * qz - r.direction.z * qy) + py * (r.direction.z * qx - r.direction.x * qz) + pz * (r.direction.x * qy - r.direction.y * qx)
  }

  /** The ray faces the triangle and meets it at `t`, beyond the tolerance. */
  ghost predicate Crosses(r: Ray, tri: Triangle, t: real) {
    (Facing(r, tri) >= 0.000000001 || Facing(r, tri) <= -0.000000001) && t >= 0.000000001 && Meets(r, tri, t)
  }

  // ---------- A point of the triangle is found ----------

  lemma DotOfMixture(a: Vec3, b: Vec3, d: Vec3, s: Vec3, u: real, v: real, t: real, m: Vec3)
    requires s.x == u * a.x + v * b.x - t * d.x && s.y == u * a.y + v * b.y - t * d.y && s.z == u * a.z + v * b.z - t * d.z
    ensures s.Dot(m) == u * a.Dot(m) + v * b.Dot(m) - t * d.Dot(m)
  {
  }

  /** A triple product vanishes when two factors agree. */
  lemma FlatTriple(a: Vec3, b: Vec3)
    ensures a.Dot(a.Cross(b)) == 0.0 && b.Dot(a.Cross(b)) == 0.0
  {
  }

  /** It keeps its value when the factors move on in a circle. */
  lemma TurnedTriple(a: Vec3, b: Vec3, d: Vec3)
    ensures a.Dot(b.Cross(d)) == b.Dot(d.Cross(a))
  {
  }

  lemma SwappedTriple(a: Vec3, b: Vec3, d: Vec3)
    ensures a.Dot(b.Cross(d)) == -a.Dot(d.Cross(b))
  {
  }

  /** The three numerators are the weights and the parameter, scaled by the determinant. */
  lemma NumeratorsAre(a: Vec3, b: Vec3, d: Vec3, s: Vec3, u: real, v: real, t: real)
    requires s.x == u * a.x + v * b.x - t * d.x && s.y == u * a.y + v * b.y - t * d.y && s.z == u * a.z + v * b.z - t * d.z
    ensures var det := a.Dot(d.Cross(b));
            s.Dot(d.Cross(b)) == det * u && d.Dot(s.Cross(a)) == det * v && b.Dot(s.Cross(a)) == det * t
  {
    var h, k, n := d.Cross(b), a.Cross(d), a.Cross(b);
    DotOfMixture(a, b, d, s, u, v, t, h);
    DotOfMixture(a, b, d, s, u, v, t, k);
    DotOfMixture(a, b, d, s, u, v, t, n);
    FlatTriple(d, b);
    FlatTriple(a, d);
    FlatTriple(a, b);
    TurnedTriple(b, a, d);
    TurnedTriple(d, a, b);
    SwappedTriple(a, b, d);
    TurnedTriple(d, s, a);
    TurnedTriple(b, s, a);
    hide Vec3.Dot, Vec3.Cross;
    var det := a.Dot(h);
    assert s.Dot(h) == u * det + v * 0.0 - t * 0.0;
    assert s.Dot(k) == u * 0.0 + v * det - t * 0.0;
    assert s.Dot(n) == u * 0.0 + v * 0.0 - t * -det;
  }

  lemma DecidesFor(det: real, p: real, q: real, w: real, u: real, v: real, t: real)
    requires p == det * u && q == det * v && w == det * t
    requires Abs(det) >= TRIANGLE_EPS && t >= TRIANGLE_EPS && u >= 0.0 && v >= 0.0 && u + v <= 1.0
    ensures Decide(det, p, q, w) == HitAt(t)
  {
    var inv := 1.0 / det;
    Undo(det, u);
    Undo(det, v);
    Undo(det, t);
    DecidesScaled(det, p, q, w, u, v, t);
  }

  lemma DecidesScaled(det: real, p: real, q: real, w: real, u: real, v: real, t: real)
    requires Abs(det) >= TRIANGLE_EPS && t >= TRIANGLE_EPS && u >= 0.0 && v >= 0.0 && u + v <= 1.0
    requires p * (1.0 / det) == u && q * (1.0 / det) == v && w * (1.0 / det) == t
    ensures Decide(det, p, q, w) == HitAt(t)
  {
  }

  lemma Undo(det: real, x: real)
    requires det != 0.0
    ensures (det * x) * (1.0 / det) == x
  {
    assert det * (1.0 / det) == 1.0;
    Regroup(det, x, 1.0 / det);
  }

  lemma FacingIsDeterminant(r: Ray, tri: Triangle)
    ensures Facing(r, tri) == tri.v1.Sub(tri.v0).Dot(r.direction.Cross(tri.v2.Sub(tri.v0)))
  {
  }

  lemma OffsetOf(r: Ray, tri: Triangle, t: real, u: real, v: real)
    requires MeetsWith(r, tri, t, u, v)
    ensures var a, b, d, s := tri.v1.Sub(tri.v0), tri.v2.Sub(tri.v0), r.direction, r.origin.Sub(tri.v0);
            s.x == u * a.x + v * b.x - t * d.x && s.y == u * a.y + v * b.y - t * d.y && s.z == u * a.z + v * b.z - t * d.z
  {
  }

  lemma CrossingIsReported(r: Ray, tri: Triangle, t: real)
    requires Crosses(r, tri, t)
    ensures RayTriangle(r, tri) == HitAt(t)
  {
    hide Vec3.Dot, Vec3.Cross, Vec3.Sub, Facing, MeetsWith, Decide;
    var u, v :| MeetsWith(r, tri, t, u, v);
    FacingIsDeterminant(r, tri);
    OffsetOf(r, tri, t, u, v);
    var e1, e2, d, s := tri.v1.Sub(tri.v0), tri.v2.Sub(tri.v0), r.direction, r.origin.Sub(tri.v0);
    NumeratorsAre(e1, e2, d, s, u, v, t);
    WeightsOf(r, tri, t, u, v);
    var det := e1.Dot(d.Cross(e2));
    DecidesFor(det, s.Dot(d.Cross(e2)), d.Dot(s.Cross(e1)), e2.Dot(s.Cross(e1)), u, v, t);
  }

  lemma WeightsOf(r: Ray, tri: Triangle, t: real, u: real, v: real)
    requires MeetsWith(r, tri, t, u, v)
    ensures u >= 0.0 && v >= 0.0 && u + v <= 1.0
  {
  }

  // ---------- What is found is a point of the triangle ----------

  lemma BarycentricMeets(r: Ray, tri: Triangle, t: real, u: real, v: real)
    requires Barycentric(tri, r.At(t), u, v)
    ensures MeetsWith(r, tri, t, u, v)
  {
    assert Mixes(tri.v0.Axis(0), tri.v1.Axis(0), tri.v2.Axis(0), u, v, r.At(t).Axis(0));
    assert Mixes(tri.v0.Axis(1), tri.v1.Axis(1), tri.v2.Axis(1), u, v, r.At(t).Axis(1));
    assert Mixes(tri.v0.Axis(2), tri.v1.Axis(2), tri.v2.Axis(2), u, v, r.At(t).Axis(2));
  }

  lemma ReportedIsFacing(r: Ray, tri: Triangle)
    requires RayTriangle(r, tri).HitAt?
    ensures Abs(Facing(r, tri)) >= TRIANGLE_EPS && RayTriangle(r, tri).t >= TRIANGLE_EPS
  {
    FacingIsDeterminant(r, tri);
    hide Vec3.Dot, Vec3.Cross, Vec3.Sub, Facing;
  }

  /** The test reports `t` if and only if the ray crosses the triangle at `t`. */
  lemma TriangleTestIsExact(r: Ray, tri: Triangle, t: real)
    ensures RayTriangle(r, tri) == HitAt(t) <==> Crosses(r, tri, t)
  {
    hide RayTriangle, Facing, Barycentric, MeetsWith;
    if RayTriangle(r, tri) == HitAt(t) {
      ReportedIsFacing(r, tri);
      var u, v := HitLiesInTriangle(r, tri);
      BarycentricMeets(r, tri, t, u, v);
    }
    if Crosses(r, tri, t) {
      CrossingIsReported(r, tri, t);
    }
  }
}
