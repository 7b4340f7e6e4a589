/** What the stencils compute, said of sound fields: the Laplacian is exact on quadratic fields, also
    next to a wall, and each wall model obeys its own law (pde/ibm_stencil.go). */
module StencilLaws {
  import opened IBMGrid
  import opened IBMStencil

  // ---------- Quadratic fields ----------

  /** A quadratic field around a node: value, slopes, and second-order coefficients. */
  datatype Quadratic = Quadratic(c: real, x: real, y: real, z: real, xx: real, yy: real, zz: real, xy: real, yz: real, zx: real) {
    function At(u: real, v: real, w: real): real {
      c + x * u + y * v + z * w + xx * (u * u) + yy * (v * v) + zz * (w * w) + xy * (u * v) + yz * (v * w) + zx * (w * u)
    }

    /** The sum of the second derivatives, which is the same everywhere. */
    function Laplacian(): real {
      2.0 * xx + 2.0 * yy + 2.0 * zz
    }

    /** The field `s` away from the node along an axis. */
    function Along(a: nat, s: real): real {
      if a == 0 then At(s, 0.0, 0.0) else if a == 1 then At(0.0, s, 0.0) else At(0.0, 0.0, s)
    }
  }

  /** Where a number of cells leads, behind (0) or ahead (1) of the node. */
  function Reach(d: nat, cells: real, h: real): real {
    if d == 0 then -(cells * h) else cells * h
  }

  /** A parabola's second difference over arms of any two lengths, from its three quotients. */
  lemma ArmsAreExact(c: real, b: real, a: real, m: real, n: real, neg: real, pos: real, p: real, q: real, r: real)
    requires m > 0.0 && n > 0.0 && neg == c - b * m + a * (m * m) && pos == c + b * n + a * (n * n)
    requires p * (m * n) == c && q * (m * (m + n)) == neg && r * (n * (m + n)) == pos
    ensures p - q - r == -a
  {
    var s := m + n;
    PosProduct(m, n);
    PosProduct(m * n, s);
    Rescale(p, q, r, m, n, s);
    Numerators(c, b, a, m, n, neg, pos);
    Quotients(p, q, r, (m * n) * s, -a, c * s, neg * n, pos * m);
  }

  lemma Rescale(p: real, q: real, r: real, m: real, n: real, s: real)
    ensures p * ((m * n) * s) == (p * (m * n)) * s && q * ((m * n) * s) == (q * (m * s)) * n && r * ((m * n) * s) == (r * (n * s)) * m
  {
  }

  lemma Numerators(c: real, b: real, a: real, m: real, n: real, neg: real, pos: real)
    requires neg == c - b * m + a * (m * m) && pos == c + b * n + a * (n * n)
    ensures c * (m + n) - neg * n - pos * m == -a * ((m * n) * (m + n))
  {
  }

  lemma Quotients(p: real, q: real, r: real, d: real, value: real, pd: real, qd: real, rd: real)
    requires d != 0.0 && p * d == pd && q * d == qd && r * d == rd && pd - qd - rd == value * d
    ensures p - q - r == value
  {
    assert (p - q - r) * d == value * d;
  }

  // ---------- The Laplacian of a quadratic field ----------

  /** What lies `x.alpha` cells behind and `x.beta` cells ahead of the node along an axis. */
  ghost predicate ReadsField(q: Quadratic, h: real, a: nat, x: AxisRead) {
    && x.alpha > 0.0 && x.beta > 0.0
    && x.neg == q.Along(a, Reach(0, x.alpha, h)) && x.pos == q.Along(a, Reach(1, x.beta, h))
  }

  function Curvature(q: Quadratic, a: nat): real {
    if a == 0 then q.xx else if a == 1 then q.yy else q.zz
  }

  function Slope(q: Quadratic, a: nat): real {
    if a == 0 then q.x else if a == 1 then q.y else q.z
  }

  lemma AlongAxis(q: Quadratic, a: nat, s: real)
    requires a < 3
    ensures q.Along(a, s) == q.c + Slope(q, a) * s + Curvature(q, a) * (s * s)
  {
  }

  lemma InCells(c: real, b: real, a: real, h: real, m: real, s: real)
    requires s == m * h
    ensures c + b * -s + a * (-s * -s) == c - (b * h) * m + (a * (h * h)) * (m * m)
    ensures c + b * s + a * (s * s) == c + (b * h) * m + (a * (h * h)) * (m * m)
  {
    Associate(b, h, m);
    assert s * s == (h * h) * (m * m);
    Associate(a, h * h, m * m);
  }

  lemma AlongInCells(q: Quadratic, a: nat, h: real, m: real, slope: real, curve: real)
    requires a < 3 && slope == Slope(q, a) * h && curve == Curvature(q, a) * (h * h)
    ensures q.Along(a, Reach(0, m, h)) == q.c - slope * m + curve * (m * m)
    ensures q.Along(a, Reach(1, m, h)) == q.c + slope * m + curve * (m * m)
  {
    var s := m * h;
    AlongAxis(q, a, s);
    AlongAxis(q, a, -s);
    hide Quadratic.Along, Slope, Curvature;
    InCells(q.c, Slope(q, a), Curvature(q, a), h, m, s);
  }

  lemma TermFromArms(c: real, x: AxisRead, slope: real, curve: real)
    requires x.alpha > 0.0 && x.beta > 0.0
    requires x.neg == c - slope * x.alpha + curve * (x.alpha * x.alpha) && x.pos == c + slope * x.beta + curve * (x.beta * x.beta)
    ensures AxisTerm(c, x) == -curve
  {
    hide AxisTerm;
    var p, q, r := TermQuotients(c, x);
    ArmsAreExact(c, slope, curve, x.alpha, x.beta, x.neg, x.pos, p, q, r);
  }

  lemma TermQuotients(c: real, x: AxisRead) returns (p: real, q: real, r: real)
    requires x.alpha > 0.0 && x.beta > 0.0
    ensures AxisTerm(c, x) == p - q - r
    ensures p * (x.alpha * x.beta) == c && q * (x.alpha * (x.alpha + x.beta)) == x.neg && r * (x.beta * (x.alpha + x.beta)) == x.pos
  {
    var ab, as', bs := x.alpha * x.beta, x.alpha * (x.alpha + x.beta), x.beta * (x.alpha + x.beta);
    PosProduct(x.alpha, x.beta);
    PosProduct(x.alpha, x.alpha + x.beta);
    PosProduct(x.beta, x.alpha + x.beta);
    p, q, r := c / ab, x.neg / as', x.pos / bs;
    Divided(c, ab);
    Divided(x.neg, as');
    Divided(x.pos, bs);
  }

  lemma AxisIsExact(q: Quadratic, h: real, a: nat, x: AxisRead, curve: real)
    requires a < 3 && ReadsField(q, h, a, x) && curve == Curvature(q, a) * (h * h)
    ensures AxisTerm(q.c, x) == -curve
  {
    hide Quadratic.Along, Slope, Curvature, AxisTerm, Reach;
    var slope := Slope(q, a) * h;
    AlongInCells(q, a, h, x.alpha, slope, curve);
    AlongInCells(q, a, h, x.beta, slope, curve);
    TermFromArms(q.c, x, slope, curve);
  }

  /** The boundary stencil gives the negated Laplacian of any quadratic field, whatever the arms. */
  lemma BoundaryTermIsExact(q: Quadratic, h: real, x: AxisRead, y: AxisRead, z: AxisRead)
    requires h > 0.0 && ReadsField(q, h, 0, x) && ReadsField(q, h, 1, y) && ReadsField(q, h, 2, z)
    ensures BoundaryTerm(h, q.c, x, y, z) == -q.Laplacian()
  {
    AxisIsExact(q, h, 0, x, q.xx * (h * h));
    AxisIsExact(q, h, 1, y, q.yy * (h * h));
    AxisIsExact(q, h, 2, z, q.zz * (h * h));
    hide AxisTerm;
    PosProduct(h, h);
    Unscale(q.xx, h * h);
    Unscale(q.yy, h * h);
    Unscale(q.zz, h * h);
  }

  lemma Unscale(x: real, y: real)
    requires y != 0.0
    ensures (2.0 * (1.0 / y)) * -(x * y) == -(2.0 * x)
  {
    var i := 1.0 / y;
    assert i * y == 1.0;
    assert (2.0 * i) * -(x * y) == -2.0 * x * (i * y);
  }

  /** So does the seven-point stencil, one cell away on every side. */
  lemma InteriorTermIsExact(q: Quadratic, h: real)
    requires h > 0.0
    ensures InteriorTerm(h, q.c, q.Along(0, -h), q.Along(0, h), q.Along(1, -h), q.Along(1, h), q.Along(2, -h), q.Along(2, h))
            == -q.Laplacian()
  {
    forall a: nat | a < 3
      ensures q.Along(a, -h) + q.Along(a, h) == 2.0 * q.c + 2.0 * Curvature(q, a) * (h * h)
    {
      AlongAxis(q, a, -h);
      AlongAxis(q, a, h);
    }
    hide Quadratic.Along;
    PosProduct(h, h);
    Unscale(q.xx, h * h);
    Unscale(q.yy, h * h);
    Unscale(q.zz, h * h);
    var i := 1.0 / (h * h);
    var sum := 6.0 * q.c - q.Along(0, -h) - q.Along(0, h) - q.Along(1, -h) - q.Along(1, h) - q.Along(2, -h) - q.Along(2, h);
    assert sum == (-(q.xx * (h * h)) - q.yy * (h * h) - q.zz * (h * h)) * 2.0;
    ThreeParts(-(q.xx * (h * h)), -(q.yy * (h * h)), -(q.zz * (h * h)), i);
  }

  lemma ThreeParts(x: real, y: real, z: real, i: real)
    ensures ((x + y + z) * 2.0) * i == (2.0 * i) * x + (2.0 * i) * y + (2.0 * i) * z
  {
  }

  // ---------- On the grid ----------

  /** The pressures at an interior node and its six neighbours are those of the field. */
  ghost predicate SampledInside(g: Layout, p: seq<real>, i: nat, q: Quadratic)
    requires |p| == |g.class_| && InteriorOk(g, i)
  {
    p[i] == q.c && forall a: nat, d: nat | a < 3 && d < 2 :: p[Neighbor(g, i, a, d)] == q.Along(a, Reach(d, 1.0, g.h))
  }

  lemma InteriorLapIsExact(g: Layout, p: seq<real>, i: nat, q: Quadratic)
    requires |p| == |g.class_| && g.h > 0.0 && InteriorOk(g, i) && SampledInside(g, p, i, q)
    ensures InteriorLap(g, p, i) == -q.Laplacian()
  {
    InteriorTermIsExact(q, g.h);
    hide Quadratic.Along, Quadratic.Laplacian, Neighbor;
  }

  /** What the wall model puts at the wall along an axis, or what the neighbour holds, is the field's value there. */
  ghost predicate SampledAt(g: Layout, bc: WallBC, aux: AuxState, p: seq<real>, ref: BoundaryRef, q: Quadratic, a: nat, d: nat)
    requires |p| == |g.class_| && BoundaryOk(g, ref) && a < 3 && d < 2
  {
    var theta := ref.info.frac[2 * a + d];
    if theta > 0.0 then GhostValue(bc, aux, p[ref.idx], ref.idx) == q.Along(a, Reach(d, theta, g.h))
    else
      assert FractionOk(g, ref, a, d);
      p[ref.idx + Delta(g, a, d)] == q.Along(a, Reach(d, 1.0, g.h))
  }

  ghost predicate SampledAtWall(g: Layout, bc: WallBC, aux: AuxState, p: seq<real>, ref: BoundaryRef, q: Quadratic)
    requires |p| == |g.class_| && BoundaryOk(g, ref)
  {
    p[ref.idx] == q.c && forall a: nat, d: nat | a < 3 && d < 2 :: SampledAt(g, bc, aux, p, ref, q, a, d)
  }

  lemma ValueIsField(g: Layout, bc: WallBC, aux: AuxState, p: seq<real>, ref: BoundaryRef, q: Quadratic, a: nat, d: nat)
    requires |p| == |g.class_| && BoundaryOk(g, ref) && a < 3 && d < 2 && SampledAt(g, bc, aux, p, ref, q, a, d)
    ensures ValueFull(g, bc, aux, p, ref, a, d) == q.Along(a, Reach(d, Distance(ref, a, d), g.h))
  {
    hide Quadratic.Along, Delta, Extent, Coordinate, Reach, GhostValue;
    assert FractionOk(g, ref, a, d);
  }

  lemma ReadIsField(g: Layout, bc: WallBC, aux: AuxState, p: seq<real>, ref: BoundaryRef, q: Quadratic, a: nat)
    requires |p| == |g.class_| && BoundaryOk(g, ref) && a < 3
    requires SampledAt(g, bc, aux, p, ref, q, a, 0) && SampledAt(g, bc, aux, p, ref, q, a, 1)
    ensures ReadsField(q, g.h, a, ReadFull(g, bc, aux, p, ref, a))
  {
    ValueIsField(g, bc, aux, p, ref, q, a, 0);
    ValueIsField(g, bc, aux, p, ref, q, a, 1);
    hide Quadratic.Along, GhostValue, ValueFull, Theta, SampledAt, Reach;
  }

  lemma BoundaryLapIsExact(g: Layout, bc: WallBC, aux: AuxState, p: seq<real>, ref: BoundaryRef, q: Quadratic)
    requires |p| == |g.class_| && g.h > 0.0 && BoundaryOk(g, ref) && SampledAtWall(g, bc, aux, p, ref, q)
    ensures BoundaryLap(g, bc, aux, p, ref) == -q.Laplacian()
  {
    forall a: nat | a < 3
      ensures ReadsField(q, g.h, a, ReadFull(g, bc, aux, p, ref, a))
    {
      ReadIsField(g, bc, aux, p, ref, q, a);
    }
    BoundaryTermIsExact(q, g.h, ReadFull(g, bc, aux, p, ref, 0), ReadFull(g, bc, aux, p, ref, 1), ReadFull(g, bc, aux, p, ref, 2));
    hide ReadFull, BoundaryTerm, Quadratic.Laplacian, ReadsField;
  }

  // ---------- Walls ----------

  /** `n` of the fractions are wall distances. */
  ghost predicate CountsWalls(frac: seq<real>, n: nat) {
    n == |set k | 0 <= k < |frac| && frac[k] > 0.0|
  }

  lemma {:induction false} WallsAreCounted(frac: seq<real>)
    ensures CountsWalls(frac, Walls(frac))
    decreases |frac|
  {
    if frac != [] {
      var m := |frac| - 1;
      WallsAreCounted(frac[..m]);
      var before := set k | 0 <= k < m && frac[..m][k] > 0.0;
      var all := set k | 0 <= k < |frac| && frac[k] > 0.0;
      assert all == if frac[m] > 0.0 then before + {m} else before;
    }
  }

  /** `theta` is the distance of the closest wall, capped. */
  ghost predicate IsClosest(frac: seq<real>, cap: real, theta: real) {
    && (theta == cap || (theta in frac && 0.0 < theta < cap))
    && forall k | 0 <= k < |frac| && frac[k] > 0.0 :: theta <= frac[k]
  }

  lemma {:induction false} NearestIsClosest(frac: seq<real>, cap: real)
    requires cap > 0.0
    ensures IsClosest(frac, cap, Nearest(frac, cap))
    decreases |frac|
  {
    if frac != [] {
      NearestIsClosest(frac[..|frac| - 1], cap);
    }
  }

  lemma ClosestIsUnique(frac: seq<real>, cap: real, s: real, t: real)
    requires IsClosest(frac, cap, s) && IsClosest(frac, cap, t)
    ensures s == t
  {
  }

  /** `theta` is the distance of the closest of at least one wall. */
  ghost predicate IsClosestWall(frac: seq<real>, theta: real) {
    theta in frac && theta > 0.0 && forall k | 0 <= k < |frac| && frac[k] > 0.0 :: theta <= frac[k]
  }

  lemma {:induction false} NearestWallIsClosest(frac: seq<real>)
    ensures Walls(frac) == 0 <==> forall k | 0 <= k < |frac| :: frac[k] <= 0.0
    ensures Walls(frac) > 0 ==> IsClosestWall(frac, NearestWall(frac))
    decreases |frac|
  {
    if frac != [] {
      var rest, f := frac[..|frac| - 1], frac[|frac| - 1];
      NearestWallIsClosest(rest);
      assert frac == rest + [f];
      if Walls(rest) > 0 {
        assert Nearest([f], NearestWall(rest)) == if 0.0 < f < NearestWall(rest) then f else NearestWall(rest);
      }
    }
  }

  // ---------- The wall models ----------

  /** The damping of an impedance wall: the damped wave equation with a centred velocity, and the
      loss per step in terms of the reflection factor, the walls and the closest of them. */
  lemma DampedWave(g: Layout, r: real, pr: StepParams, ref: BoundaryRef, u: real, before: real, lap: real, n: nat, theta: real) returns (sigma: real)
    requires ValidParams(g, Impedance(r), pr) && r < 1.0
    requires CountsWalls(ref.info.frac, n) && IsClosest(ref.info.frac, 1.0, theta)
    ensures sigma >= 0.0 && sigma * theta * ((1.0 + r) * g.h) == n as real * ((1.0 - r) * pr.c * pr.dt)
    ensures var next := BoundaryUpdate(g, Impedance(r), pr, ref, u, before, lap);
            (next - 2.0 * u + before) + sigma * (next - before) == -(pr.c * pr.c * pr.dt * pr.dt * lap)
  {
    sigma := Sigma(g, r, pr, ref.info.frac);
    WallsAreCounted(ref.info.frac);
    NearestIsClosest(ref.info.frac, 1.0);
    ClosestIsUnique(ref.info.frac, 1.0, theta, Nearest(ref.info.frac, 1.0));
    PosProduct(1.0 + r, g.h);
    LossPerStep(n as real, (1.0 - r) * pr.c * pr.dt, (1.0 + r) * g.h, theta);
    var next := BoundaryUpdate(g, Impedance(r), pr, ref, u, before, lap);
    var right := 2.0 * u - (1.0 - sigma) * before - pr.c * pr.c * pr.dt * pr.dt * lap;
    assert next * (1.0 + sigma) == right by {
      Divided(right, 1.0 + sigma);
    }
    Rearranged(next, u, before, sigma, pr.c * pr.c * pr.dt * pr.dt * lap);
  }

  lemma Divided(x: real, y: real)
    requires y != 0.0
    ensures (x / y) * y == x
  {
  }

  lemma Rearranged(next: real, u: real, before: real, sigma: real, push: real)
    requires next * (1.0 + sigma) == 2.0 * u - (1.0 - sigma) * before - push
    ensures (next - 2.0 * u + before) + sigma * (next - before) == -push
  {
  }

  lemma LossPerStep(n: real, x: real, y: real, theta: real)
    requires y > 0.0 && theta > 0.0
    ensures n * (x / y) / theta * theta * y == n * x
  {
    Divided(n * (x / y), theta);
    Divided(x, y);
    Associate(n, x / y, y);
  }

  /** How far the pressure falls from a node to its wall: not at all at a rigid wall, by 1 - R at an
      impedance wall, and by all the auxiliary variables of the node at a filtered one. */
  ghost predicate FallsBy(bc: WallBC, aux: AuxState, i: nat, u: real, drop: real) {
    match bc
    case Rigid => drop == 0.0
    case Impedance(r) => drop == (1.0 - r) * u
    case ADE(_) => if i in aux then Totals(aux[i], drop) else drop == 0.0
  }

  ghost predicate Totals(s: seq<real>, total: real) {
    if s == [] then total == 0.0 else Totals(s[1..], total - s[0])
  }

  lemma {:induction false} SumTotals(s: seq<real>, total: real)
    requires Totals(s, total)
    ensures total == Sum(s)
    decreases |s|
  {
    if s != [] {
      SumTotals(s[1..], total - s[0]);
      SumFromFront(s);
    }
  }

  lemma {:induction false} SumFromFront(s: seq<real>)
    requires s != []
    ensures Sum(s) == s[0] + Sum(s[1..])
    decreases |s|
  {
    if |s| > 1 {
      SumFromFront(s[..|s| - 1]);
      assert s[..|s| - 1][1..] == s[1..][..|s| - 2];
    }
  }

  lemma GhostFalls(bc: WallBC, aux: AuxState, i: nat, u: real, drop: real)
    requires FallsBy(bc, aux, i, u, drop)
    ensures GhostValue(bc, aux, u, i) == u - drop
  {
    if bc.ADE? && i in aux {
      SumTotals(aux[i], drop);
    }
  }

  /** The share of one side in the curvature along its axis: nothing where a neighbour is. */
  function SideShare(own: real, other: real): real
    requires own >= 0.0 && other >= 0.0
  {
    var a, b := if own > 0.0 then own else 1.0, if other > 0.0 then other else 1.0;
    if own > 0.0 then 1.0 / Product(a, a + b) else 0.0
  }

  function Product(x: real, y: real): (r: real)
    requires x > 0.0 && y > 0.0
    ensures r > 0.0
  {
    PosProduct(x, y);
    x * y
  }

  lemma ShareOfDrop(u: real, drop: real, y: real)
    requires y > 0.0
    ensures (u - drop) / y == u / y - drop * (1.0 / y)
  {
    var i := 1.0 / y;
    assert i * y == 1.0;
    Divided(u, y);
    assert ((u / y) - drop * i) * y == u - drop;
    Divided(u - drop, y);
    SameQuotient((u - drop) / y, (u / y) - drop * i, y);
  }

  lemma SameQuotient(p: real, q: real, y: real)
    requires y > 0.0 && p * y == q * y
    ensures p == q
  {
    assert (p - q) * y == 0.0;
  }

  /** Along one axis, a flat field that falls by `lo` behind and by `hi` ahead. */
  lemma AxisLoss(u: real, x: AxisRead, lo: real, hi: real)
    requires x.alpha > 0.0 && x.beta > 0.0 && x.neg == u - lo && x.pos == u - hi
    ensures AxisTerm(u, x) == lo * (1.0 / Product(x.alpha, x.alpha + x.beta)) + hi * (1.0 / Product(x.beta, x.alpha + x.beta))
  {
    FlatAxis(u, x.(neg := u, pos := u));
    ShareOfDrop(u, lo, Product(x.alpha, x.alpha + x.beta));
    ShareOfDrop(u, hi, Product(x.beta, x.alpha + x.beta));
  }

  /** What the two sides of an axis add to the curvature of a flat field, per unit of fall. */
  function AxisShare(ref: BoundaryRef, a: nat): real
    requires |ref.info.frac| == 6 && a < 3 && ref.info.frac[2 * a] >= 0.0 && ref.info.frac[2 * a + 1] >= 0.0
  {
    SideShare(ref.info.frac[2 * a], ref.info.frac[2 * a + 1]) + SideShare(ref.info.frac[2 * a + 1], ref.info.frac[2 * a])
  }

  lemma FlatValue(g: Layout, bc: WallBC, aux: AuxState, p: seq<real>, ref: BoundaryRef, u: real, drop: real, a: nat, d: nat)
    requires BoundaryOk(g, ref) && Uniform(g, p, u) && FallsBy(bc, aux, ref.idx, u, drop) && a < 3 && d < 2
    ensures ref.info.frac[2 * a + d] >= 0.0
    ensures ValueFull(g, bc, aux, p, ref, a, d) == u - if ref.info.frac[2 * a + d] > 0.0 then drop else 0.0
  {
    assert FractionOk(g, ref, a, d);
    GhostFalls(bc, aux, ref.idx, u, drop);
    hide GhostValue, FallsBy, Delta, Extent, Coordinate;
  }

  function TwicePerSquare(h: real): real
    requires h > 0.0
  {
    PosProduct(h, h);
    2.0 / (h * h)
  }

  function Times(x: real, y: real): real {
    x * y
  }

  lemma FlatRead(g: Layout, bc: WallBC, aux: AuxState, p: seq<real>, ref: BoundaryRef, u: real, drop: real, a: nat)
    requires BoundaryOk(g, ref) && Uniform(g, p, u) && FallsBy(bc, aux, ref.idx, u, drop) && a < 3
    ensures ref.info.frac[2 * a] >= 0.0 && ref.info.frac[2 * a + 1] >= 0.0
    ensures AxisTerm(u, ReadFull(g, bc, aux, p, ref, a)) == Times(drop, AxisShare(ref, a))
  {
    hide AxisTerm, ValueFull, FallsBy, Product;
    FlatValue(g, bc, aux, p, ref, u, drop, a, 0);
    FlatValue(g, bc, aux, p, ref, u, drop, a, 1);
    var x := ReadFull(g, bc, aux, p, ref, a);
    var m, n := ref.info.frac[2 * a], ref.info.frac[2 * a + 1];
    AxisLoss(u, x, if m > 0.0 then drop else 0.0, if n > 0.0 then drop else 0.0);
  }

  /** A flat field is curved at a node only by what it falls by at the walls, side by side. */
  lemma FlatFieldAtWall(g: Layout, bc: WallBC, aux: AuxState, p: seq<real>, ref: BoundaryRef, u: real, drop: real)
    requires g.h > 0.0 && BoundaryOk(g, ref) && Uniform(g, p, u) && FallsBy(bc, aux, ref.idx, u, drop)
    ensures var f := ref.info.frac; f[0] >= 0.0 && f[1] >= 0.0 && f[2] >= 0.0 && f[3] >= 0.0 && f[4] >= 0.0 && f[5] >= 0.0
    ensures BoundaryLap(g, bc, aux, p, ref) == Times(TwicePerSquare(g.h), Times(drop, AxisShare(ref, 0) + AxisShare(ref, 1) + AxisShare(ref, 2)))
  {
    hide AxisTerm, ReadFull, FallsBy, AxisShare, BoundaryTerm, Times, TwicePerSquare, FractionOk;
    FlatRead(g, bc, aux, p, ref, u, drop, 0);
    FlatRead(g, bc, aux, p, ref, u, drop, 1);
    FlatRead(g, bc, aux, p, ref, u, drop, 2);
    var x, y, z := AxisShare(ref, 0), AxisShare(ref, 1), AxisShare(ref, 2);
    SumOfTerms(g.h, u, ReadFull(g, bc, aux, p, ref, 0), ReadFull(g, bc, aux, p, ref, 1), ReadFull(g, bc, aux, p, ref, 2), drop, x, y, z);
  }

  lemma SumOfTerms(h: real, u: real, a: AxisRead, b: AxisRead, c: AxisRead, drop: real, x: real, y: real, z: real)
    requires h > 0.0 && a.alpha > 0.0 && a.beta > 0.0 && b.alpha > 0.0 && b.beta > 0.0 && c.alpha > 0.0 && c.beta > 0.0
    requires AxisTerm(u, a) == Times(drop, x) && AxisTerm(u, b) == Times(drop, y) && AxisTerm(u, c) == Times(drop, z)
    ensures BoundaryTerm(h, u, a, b, c) == Times(TwicePerSquare(h), Times(drop, x + y + z))
  {
    hide AxisTerm;
    PosProduct(h, h);
    var w := 2.0 * (1.0 / (h * h));
    assert w == TwicePerSquare(h);
    Collected(w, drop, x, y, z);
  }

  lemma Collected(w: real, drop: real, x: real, y: real, z: real)
    ensures w * (drop * x) + w * (drop * y) + w * (drop * z) == w * (drop * (x + y + z))
  {
  }

  // ---------- The auxiliary variables over a run ----------

  function Power(x: real, n: nat): real {
    if n == 0 then 1.0 else Power(x, n - 1) * x
  }

  ghost predicate AuxRun(g: Layout, bc: WallBC, pr: StepParams, ref: BoundaryRef, u: real, phi: seq<seq<real>>)
    requires ValidParams(g, bc, pr) && bc.ADE?
  {
    && (forall i | 0 <= i < |phi| :: |phi[i]| == |bc.residues|)
    && forall i | 0 <= i < |phi| - 1 :: NextIs(g, bc, pr, ref, u, phi[i], phi[i + 1])
  }

  ghost predicate NextIs(g: Layout, bc: WallBC, pr: StepParams, ref: BoundaryRef, u: real, phi: seq<real>, next: seq<real>)
    requires ValidParams(g, bc, pr) && bc.ADE?
  {
    |phi| == |bc.residues| && next == NextAux(g, bc, pr, ref, u, phi)
  }

  lemma Recurrence(d: real, power: real, start: real, drive: real, reach: real, now: real, next: real, push: real)
    requires next == now * d + push && push * reach == -drive
    requires (1.0 - d) * now * reach == (1.0 - d) * start * reach * power - drive * (1.0 - power)
    ensures (1.0 - d) * next * reach == (1.0 - d) * start * reach * (power * d) - drive * (1.0 - power * d)
  {
    assert next * reach == (now * reach) * d + push * reach;
    assert (1.0 - d) * next * reach == ((1.0 - d) * now * reach) * d - (1.0 - d) * drive;
  }

  lemma Push(residue: real, u: real, dt: real, reach: real)
    requires reach > 0.0
    ensures residue * (-u / reach) * dt * reach == -(residue * u * dt)
  {
    Divided(-u, reach);
    assert residue * (-u / reach) * dt * reach == residue * dt * ((-u / reach) * reach);
  }

  /** One step of one variable: it decays, and the pressure drives it. */
  lemma OneStep(g: Layout, bc: WallBC, pr: StepParams, ref: BoundaryRef, u: real, phi: seq<real>, next: seq<real>, k: nat, reach: real,
                drive: real)
    requires ValidParams(g, bc, pr) && bc.ADE? && NextIs(g, bc, pr, ref, u, phi, next) && k < |bc.residues|
    requires Walls(ref.info.frac) > 0 && reach == NearestWall(ref.info.frac) * g.h && drive == bc.residues[k] * u * pr.dt
    ensures |next| == |phi| && Driven(phi[k], next[k], pr.decay[k], reach, drive)
  {
    hide Walls, NearestWall, Driven;
    PosProduct(NearestWall(ref.info.frac), g.h);
    DrivenBy(phi[k], next[k], pr.decay[k], bc.residues[k], u, -u / reach, pr.dt, reach, drive);
  }

  lemma DrivenBy(now: real, next: real, d: real, residue: real, u: real, slope: real, dt: real, reach: real,
                  drive: real)
    requires reach > 0.0 && slope == -u / reach && next == now * d + residue * slope * dt && drive == residue * u * dt
    ensures Driven(now, next, d, reach, drive)
  {
    Push(residue, u, dt, reach);
    assert Pushes(now, next, d, reach, drive, residue * slope * dt);
  }

  ghost predicate Driven(now: real, next: real, d: real, reach: real, drive: real) {
    exists push :: Pushes(now, next, d, reach, drive, push)
  }

  ghost predicate Pushes(now: real, next: real, d: real, reach: real, drive: real, push: real) {
    next == now * d + push && push * reach == -drive
  }

  lemma {:induction false} Series(x: seq<real>, d: real, reach: real, drive: real, n: nat)
    requires n < |x| && forall i | 0 <= i < |x| - 1 :: Driven(x[i], x[i + 1], d, reach, drive)
    ensures SeriesHolds(d, x[0], x[n], n, reach, drive)
    decreases n
  {
    if n == 0 {
      FirstOfSeries((1.0 - d) * x[0] * reach, drive);
    } else {
      Series(x, d, reach, drive, n - 1);
      assert Driven(x[n - 1], x[n - 1 + 1], d, reach, drive);
      var push :| Pushes(x[n - 1], x[n], d, reach, drive, push);
      Recurrence(d, Power(d, n - 1), x[0], drive, reach, x[n - 1], x[n], push);
    }
  }

  /** At constant pressure each variable follows a geometric series, driven by the pressure over the
      distance of the closest wall. */
  lemma AuxSeries(g: Layout, bc: WallBC, pr: StepParams, ref: BoundaryRef, u: real, phi: seq<seq<real>>, n: nat, k: nat, theta: real,
                  reach: real, drive: real)
    requires ValidParams(g, bc, pr) && bc.ADE? && AuxRun(g, bc, pr, ref, u, phi) && n < |phi| && k < |bc.residues|
    requires IsClosestWall(ref.info.frac, theta) && reach == theta * g.h && drive == bc.residues[k] * u * pr.dt
    ensures SeriesHolds(pr.decay[k], phi[0][k], phi[n][k], n, reach, drive)
  {
    hide Driven, Power, NextIs, Walls, NearestWall, SeriesHolds;
    NearestWallIsClosest(ref.info.frac);
    var x := seq(|phi|, i requires 0 <= i < |phi| => phi[i][k]);
    forall i | 0 <= i < |x| - 1
      ensures Driven(x[i], x[i + 1], pr.decay[k], reach, drive)
    {
      assert NextIs(g, bc, pr, ref, u, phi[i], phi[i + 1]);
      OneStep(g, bc, pr, ref, u, phi[i], phi[i + 1], k, reach, drive);
    }
    Series(x, pr.decay[k], reach, drive, n);
  }

  /** The n-th member of the series, cleared of its denominators. */
  ghost predicate SeriesHolds(d: real, first: real, now: real, n: nat, reach: real, drive: real) {
    (1.0 - d) * now * reach == (1.0 - d) * first * reach * Power(d, n) - drive * (1.0 - Power(d, n))
  }

  lemma FirstOfSeries(x: real, drive: real)
    ensures x == x * 1.0 - drive * (1.0 - 1.0)
  {
  }

  /** Away from walls a variable only decays. */
  lemma {:induction false} AuxDecays(g: Layout, bc: WallBC, pr: StepParams, ref: BoundaryRef, u: real, phi: seq<seq<real>>, n: nat, k: nat)
    requires ValidParams(g, bc, pr) && bc.ADE? && AuxRun(g, bc, pr, ref, u, phi) && n < |phi| && k < |bc.residues|
    requires forall j | 0 <= j < |ref.info.frac| :: ref.info.frac[j] <= 0.0
    ensures phi[n][k] == phi[0][k] * Power(pr.decay[k], n)
    decreases n
  {
    if n > 0 {
      AuxDecays(g, bc, pr, ref, u, phi, n - 1, k);
      assert NextIs(g, bc, pr, ref, u, phi[n - 1], phi[n - 1 + 1]);
      NearestWallIsClosest(ref.info.frac);
    }
  }

  // ---------- One step of a run ----------

  /** Second difference in time plus damping, against the Laplacian. */
  ghost predicate WaveEquation(pr: StepParams, sigma: real, before: real, now: real, next: real, laplacian: real) {
    (next - 2.0 * now + before) + sigma * (next - before) == pr.c * pr.c * pr.dt * pr.dt * laplacian
  }

  /** Where the field around an interior node is quadratic, a step obeys the wave equation exactly. */
  lemma InteriorObeysWaves(g: Layout, bc: WallBC, pr: StepParams, f: Field, f': Field, k: nat, q: Quadratic)
    requires FullStep(g, bc, pr, f, f') && k < |g.interiorIdx| && InteriorOk(g, g.interiorIdx[k])
    requires SampledInside(g, f.cur, g.interiorIdx[k], q)
    ensures var i := g.interiorIdx[k]; WaveEquation(pr, 0.0, f.prev[i], f.cur[i], f'.cur[i], q.Laplacian())
  {
    hide InteriorLap, Quadratic.Laplacian, SampledInside, Undamped, WaveEquation;
    var i := g.interiorIdx[k];
    assert InteriorStep(g, pr, f.cur, f.prev, f'.cur, i);
    InteriorLapIsExact(g, f.cur, i, q);
    UndampedWave(pr, f.prev[i], f.cur[i], q.Laplacian());
  }

  lemma UndampedWave(pr: StepParams, before: real, now: real, laplacian: real)
    ensures WaveEquation(pr, 0.0, before, now, Undamped(pr, now, before, -laplacian), laplacian)
  {
    Opposed(pr.c * pr.c * pr.dt * pr.dt, laplacian);
  }

  lemma Opposed(x: real, y: real)
    ensures x * -y == -(x * y)
  {
  }

  /** So it does at a boundary node, damped at an absorbing impedance wall and undamped elsewhere. */
  lemma BoundaryObeysWaves(g: Layout, bc: WallBC, pr: StepParams, f: Field, f': Field, k: nat, q: Quadratic, n: nat, theta: real) returns (sigma: real)
    requires FullStep(g, bc, pr, f, f') && k < |g.boundaryIdx| && BoundaryOk(g, g.boundaryIdx[k])
    requires SampledAtWall(g, bc, f.aux, f.cur, g.boundaryIdx[k], q)
    requires CountsWalls(g.boundaryIdx[k].info.frac, n) && IsClosest(g.boundaryIdx[k].info.frac, 1.0, theta)
    ensures var i := g.boundaryIdx[k].idx; WaveEquation(pr, sigma, f.prev[i], f.cur[i], f'.cur[i], q.Laplacian())
    ensures if bc.Impedance? && bc.r < 1.0
            then sigma >= 0.0 && sigma * theta * ((1.0 + bc.r) * g.h) == n as real * ((1.0 - bc.r) * pr.c * pr.dt)
            else sigma == 0.0
  {
    hide BoundaryLap, Quadratic.Laplacian, SampledAtWall, CountsWalls, IsClosest, BoundaryUpdate;
    var ref := g.boundaryIdx[k];
    assert BoundaryStep(g, bc, pr, f.cur, f.prev, f.aux, f'.cur, ref);
    BoundaryLapIsExact(g, bc, f.aux, f.cur, ref, q);
    Opposed(pr.c * pr.c * pr.dt * pr.dt, q.Laplacian());
    if bc.Impedance? && bc.r < 1.0 {
      sigma := DampedWave(g, bc.r, pr, ref, f.cur[ref.idx], f.prev[ref.idx], -q.Laplacian(), n, theta);
    } else {
      sigma := 0.0;
      UndampedWave(pr, f.prev[ref.idx], f.cur[ref.idx], q.Laplacian());
      NotDamped(g, bc, pr, ref, f.cur[ref.idx], f.prev[ref.idx], -q.Laplacian());
    }
  }

  lemma NotDamped(g: Layout, bc: WallBC, pr: StepParams, ref: BoundaryRef, u: real, before: real, lap: real)
    requires ValidParams(g, bc, pr) && !(bc.Impedance? && bc.r < 1.0)
    ensures BoundaryUpdate(g, bc, pr, ref, u, before, lap) == Undamped(pr, u, before, lap)
  {
  }
}
