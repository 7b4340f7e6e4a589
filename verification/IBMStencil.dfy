/** The finite-difference time stepping on an immersed-boundary grid, on full and on compressed
    pressure fields (pde/ibm_stencil.go). */
module IBMStencil {
  import opened IBMGrid

  /** The wall model. The auxiliary differential equation has one variable per pole. */
  datatype WallBC = Rigid | Impedance(r: real) | ADE(residues: seq<real>)

  /** Sound speed, time step, and the per-pole decay over one time step. */
  datatype StepParams = StepParams(c: real, dt: real, decay: seq<real>)

  /** Auxiliary variables per boundary node, by flat index. */
  type AuxState = map<nat, seq<real>>

  function Sum(s: seq<real>): real {
    if s == [] then 0.0 else Sum(s[..|s| - 1]) + s[|s| - 1]
  }

  // ---------- Boundary stencil on one axis ----------

  function GhostValue(bc: WallBC, aux: AuxState, u: real, i: nat): real {
    match bc
    case Rigid => u
    case Impedance(r) => r * u
    case ADE(_) => if i in aux && |aux[i]| > 0 then u - Sum(aux[i]) else u
  }

  function Theta(ref: BoundaryRef, a: nat, d: nat): real
    requires |ref.info.frac| == 6 && a < 3 && d < 2
  {
    ref.info.frac[2 * a + d]
  }

  function Distance(ref: BoundaryRef, a: nat, d: nat): (r: real)
    requires |ref.info.frac| == 6 && a < 3 && d < 2
    ensures r > 0.0
  {
    if Theta(ref, a, d) > 0.0 then Theta(ref, a, d) else 1.0
  }

  /** What the boundary stencil reads along one axis: the distances to the two values, in
      cells, and the values. */
  datatype AxisRead = AxisRead(alpha: real, beta: real, neg: real, pos: real)

  /** The non-uniform second difference along one axis, negated. */
  function AxisTerm(u: real, x: AxisRead): real
    requires x.alpha > 0.0 && x.beta > 0.0
  {
    u / (x.alpha * x.beta) - x.neg / (x.alpha * (x.alpha + x.beta)) - x.pos / (x.beta * (x.alpha + x.beta))
  }

  /** The negated Laplacian of a boundary node from what was read along the three axes. */
  function BoundaryTerm(h: real, u: real, x: AxisRead, y: AxisRead, z: AxisRead): real
    requires h > 0.0 && x.alpha > 0.0 && x.beta > 0.0 && y.alpha > 0.0 && y.beta > 0.0 && z.alpha > 0.0 && z.beta > 0.0
  {
    var w := 2.0 * (1.0 / (h * h));
    w * AxisTerm(u, x) + w * AxisTerm(u, y) + w * AxisTerm(u, z)
  }

  /** The standard seven-point negated Laplacian. */
  function InteriorTerm(h: real, u: real, xm: real, xp: real, ym: real, yp: real, zm: real, zp: real): real
    requires h > 0.0
  {
    (6.0 * u - xm - xp - ym - yp - zm - zp) * (1.0 / (h * h))
  }

  // ---------- Full fields ----------

  function NeighborFull(g: Layout, p: seq<real>, ref: BoundaryRef, a: nat, d: nat): real
    requires |p| == |g.class_|
  {
    var n := ref.idx + Delta(g, a, d);
    if OnGrid(g, ref, a, d) && Active(g, n) then p[n] else 0.0
  }

  function ValueFull(g: Layout, bc: WallBC, aux: AuxState, p: seq<real>, ref: BoundaryRef, a: nat, d: nat): real
    requires |p| == |g.class_| && ref.idx < |p| && |ref.info.frac| == 6 && a < 3 && d < 2
  {
    if Theta(ref, a, d) > 0.0 then GhostValue(bc, aux, p[ref.idx], ref.idx) else NeighborFull(g, p, ref, a, d)
  }

  function ReadFull(g: Layout, bc: WallBC, aux: AuxState, p: seq<real>, ref: BoundaryRef, a: nat): (r: AxisRead)
    requires |p| == |g.class_| && ref.idx < |p| && |ref.info.frac| == 6 && a < 3
    ensures r.alpha > 0.0 && r.beta > 0.0
  {
    AxisRead(Distance(ref, a, 0), Distance(ref, a, 1),
             ValueFull(g, bc, aux, p, ref, a, 0), ValueFull(g, bc, aux, p, ref, a, 1))
  }

  function BoundaryLap(g: Layout, bc: WallBC, aux: AuxState, p: seq<real>, ref: BoundaryRef): real
    requires |p| == |g.class_| && ref.idx < |p| && |ref.info.frac| == 6 && g.h > 0.0
  {
    BoundaryTerm(g.h, p[ref.idx], ReadFull(g, bc, aux, p, ref, 0), ReadFull(g, bc, aux, p, ref, 1), ReadFull(g, bc, aux, p, ref, 2))
  }

  /** A neighbour of an interior node, which is always active. */
  function Neighbor(g: Layout, i: nat, a: nat, d: nat): (n: nat)
    requires InteriorOk(g, i) && a < 3 && d < 2
    ensures Active(g, n)
  {
    assert Active(g, i + Delta(g, a, d));
    i + Delta(g, a, d)
  }

  function InteriorLap(g: Layout, p: seq<real>, i: nat): real
    requires |p| == |g.class_| && g.h > 0.0 && InteriorOk(g, i)
  {
    InteriorTerm(g.h, p[i], p[Neighbor(g, i, 0, 0)], p[Neighbor(g, i, 0, 1)], p[Neighbor(g, i, 1, 0)],
                 p[Neighbor(g, i, 1, 1)], p[Neighbor(g, i, 2, 0)], p[Neighbor(g, i, 2, 1)])
  }

  // ---------- Compressed fields ----------

  function NeighborCompact(g: Layout, cm: seq<int>, p: seq<real>, ref: BoundaryRef, a: nat, d: nat): real
    requires CompactOk(g, cm) && |p| == ActiveCount(g)
  {
    var n := ref.idx + Delta(g, a, d);
    if OnGrid(g, ref, a, d) && 0 <= n < |cm| && cm[n] >= 0 then p[cm[n]] else 0.0
  }

  function ValueCompact(g: Layout, bc: WallBC, aux: AuxState, cm: seq<int>, p: seq<real>, ref: BoundaryRef, a: nat, d: nat): real
    requires CompactOk(g, cm) && |p| == ActiveCount(g) && Active(g, ref.idx) && |ref.info.frac| == 6 && a < 3 && d < 2
  {
    if Theta(ref, a, d) > 0.0 then GhostValue(bc, aux, p[cm[ref.idx]], ref.idx) else NeighborCompact(g, cm, p, ref, a, d)
  }

  function ReadCompact(g: Layout, bc: WallBC, aux: AuxState, cm: seq<int>, p: seq<real>, ref: BoundaryRef, a: nat): (r: AxisRead)
    requires CompactOk(g, cm) && |p| == ActiveCount(g) && Active(g, ref.idx) && |ref.info.frac| == 6 && a < 3
    ensures r.alpha > 0.0 && r.beta > 0.0
  {
    AxisRead(Distance(ref, a, 0), Distance(ref, a, 1),
             ValueCompact(g, bc, aux, cm, p, ref, a, 0), ValueCompact(g, bc, aux, cm, p, ref, a, 1))
  }

  function BoundaryLapCompact(g: Layout, bc: WallBC, aux: AuxState, cm: seq<int>, p: seq<real>, ref: BoundaryRef): real
    requires CompactOk(g, cm) && |p| == ActiveCount(g) && Active(g, ref.idx) && |ref.info.frac| == 6 && g.h > 0.0
  {
    BoundaryTerm(g.h, p[cm[ref.idx]], ReadCompact(g, bc, aux, cm, p, ref, 0), ReadCompact(g, bc, aux, cm, p, ref, 1),
                 ReadCompact(g, bc, aux, cm, p, ref, 2))
  }

  function InteriorLapCompact(g: Layout, cm: seq<int>, p: seq<real>, i: nat): real
    requires CompactOk(g, cm) && |p| == ActiveCount(g) && g.h > 0.0 && InteriorOk(g, i)
  {
    InteriorTerm(g.h, p[cm[i]], p[cm[Neighbor(g, i, 0, 0)]], p[cm[Neighbor(g, i, 0, 1)]], p[cm[Neighbor(g, i, 1, 0)]],
                 p[cm[Neighbor(g, i, 1, 1)]], p[cm[Neighbor(g, i, 2, 0)]], p[cm[Neighbor(g, i, 2, 1)]])
  }

  // ---------- One time step at one node ----------

  function Walls(frac: seq<real>): nat {
    if frac == [] then 0 else Walls(frac[..|frac| - 1]) + if frac[|frac| - 1] > 0.0 then 1 else 0
  }

  /** The smallest positive fraction below `cap`, or `cap`. */
  function Nearest(frac: seq<real>, cap: real): (r: real)
    requires cap > 0.0
    ensures 0.0 < r <= cap
  {
    if frac == [] then cap
    else
      var r, f := Nearest(frac[..|frac| - 1], cap), frac[|frac| - 1];
      if 0.0 < f < r then f else r
  }

  ghost predicate ValidParams(g: Layout, bc: WallBC, pr: StepParams) {
    && g.h > 0.0 && pr.c >= 0.0 && pr.dt >= 0.0
    && (bc.Impedance? ==> bc.r > -1.0)
    && (bc.ADE? ==> |pr.decay| == |bc.residues|)
  }

  function Undamped(pr: StepParams, u: real, before: real, lap: real): real {
    2.0 * u - before - pr.c * pr.c * pr.dt * pr.dt * lap
  }

  function Sigma(g: Layout, r: real, pr: StepParams, frac: seq<real>): (s: real)
    requires g.h > 0.0 && -1.0 < r < 1.0 && pr.c >= 0.0 && pr.dt >= 0.0
    ensures s >= 0.0
  {
    var walls, nearest := Walls(frac) as real, Nearest(frac, 1.0);
    SigmaIsLoss(1.0 - r, 1.0 + r, pr.c, pr.dt, g.h, walls, nearest);
    walls * ((1.0 - r) * pr.c * pr.dt / ((1.0 + r) * g.h)) / nearest
  }

  lemma SigmaIsLoss(lost: real, kept: real, c: real, dt: real, h: real, walls: real, nearest: real)
    requires lost > 0.0 && kept > 0.0 && c >= 0.0 && dt >= 0.0 && h > 0.0 && walls >= 0.0 && nearest > 0.0
    ensures kept * h > 0.0 && walls * (lost * c * dt / (kept * h)) / nearest >= 0.0
  {
    NonNegProduct(lost, c);
    NonNegProduct(lost * c, dt);
    PosProduct(kept, h);
    NonNegQuotient(lost * c * dt, kept * h);
    NonNegProduct(walls, lost * c * dt / (kept * h));
    NonNegQuotient(walls * (lost * c * dt / (kept * h)), nearest);
  }

  lemma NonNegProduct(x: real, y: real)
    requires x >= 0.0 && y >= 0.0
    ensures x * y >= 0.0
  {
  }

  lemma PosProduct(x: real, y: real)
    requires x > 0.0 && y > 0.0
    ensures x * y > 0.0
  {
  }

  lemma NonNegQuotient(x: real, y: real)
    requires x >= 0.0 && y > 0.0
    ensures x / y >= 0.0
  {
  }

  function BoundaryUpdate(g: Layout, bc: WallBC, pr: StepParams, ref: BoundaryRef, u: real, before: real, lap: real): real
    requires ValidParams(g, bc, pr)
  {
    if bc.Impedance? && bc.r < 1.0 then
      var sigma := Sigma(g, bc.r, pr, ref.info.frac);
      (2.0 * u - (1.0 - sigma) * before - pr.c * pr.c * pr.dt * pr.dt * lap) / (1.0 + sigma)
    else Undamped(pr, u, before, lap)
  }

  /** The auxiliary variables of one boundary node after a time step. */
  function NextAux(g: Layout, bc: WallBC, pr: StepParams, ref: BoundaryRef, u: real, phi: seq<real>): seq<real>
    requires ValidParams(g, bc, pr) && bc.ADE? && |phi| == |bc.residues|
  {
    var slope := if Walls(ref.info.frac) == 0 then 0.0 else -u / (NearestWall(ref.info.frac) * g.h);
    seq(|phi|, k requires 0 <= k < |phi| => phi[k] * pr.decay[k] + bc.residues[k] * slope * pr.dt)
  }

  function NearestWall(frac: seq<real>): (r: real)
    ensures r > 0.0
  {
    if frac == [] then 1.0
    else
      var f := frac[|frac| - 1];
      if Walls(frac[..|frac| - 1]) == 0 then (if f > 0.0 then f else 1.0) else Nearest([f], NearestWall(frac[..|frac| - 1]))
  }

  // ---------- Agreement of fields ----------

  ghost predicate AgreeOnActive(g: Layout, p: seq<real>, q: seq<real>) {
    |p| == |q| == |g.class_| && forall i | 0 <= i < |p| && Active(g, i) :: p[i] == q[i]
  }

  /** The full field a compressed one stands for, with silence outside the room. */
  ghost function Expand(g: Layout, cm: seq<int>, p: seq<real>): (r: seq<real>)
    requires CompactOk(g, cm) && |p| == ActiveCount(g)
    ensures |r| == |g.class_|
  {
    seq(|cm|, i requires 0 <= i < |cm| => if cm[i] >= 0 then p[cm[i]] else 0.0)
  }

  lemma InteriorReadsActive(g: Layout, p: seq<real>, q: seq<real>, i: nat)
    requires g.h > 0.0 && InteriorOk(g, i) && AgreeOnActive(g, p, q)
    ensures InteriorLap(g, p, i) == InteriorLap(g, q, i)
  {
  }

  lemma BoundaryReadsActive(g: Layout, bc: WallBC, aux: AuxState, p: seq<real>, q: seq<real>, ref: BoundaryRef)
    requires g.h > 0.0 && BoundaryOk(g, ref) && AgreeOnActive(g, p, q)
    ensures BoundaryLap(g, bc, aux, p, ref) == BoundaryLap(g, bc, aux, q, ref)
  {
    assert ReadFull(g, bc, aux, p, ref, 0) == ReadFull(g, bc, aux, q, ref, 0);
    assert ReadFull(g, bc, aux, p, ref, 1) == ReadFull(g, bc, aux, q, ref, 1);
    assert ReadFull(g, bc, aux, p, ref, 2) == ReadFull(g, bc, aux, q, ref, 2);
  }

  lemma InteriorExpands(g: Layout, cm: seq<int>, p: seq<real>, i: nat)
    requires g.h > 0.0 && InteriorOk(g, i) && CompactOk(g, cm) && |p| == ActiveCount(g)
    ensures InteriorLapCompact(g, cm, p, i) == InteriorLap(g, Expand(g, cm, p), i)
  {
  }

  lemma BoundaryExpands(g: Layout, bc: WallBC, aux: AuxState, cm: seq<int>, p: seq<real>, ref: BoundaryRef)
    requires g.h > 0.0 && BoundaryOk(g, ref) && CompactOk(g, cm) && |p| == ActiveCount(g)
    ensures BoundaryLapCompact(g, bc, aux, cm, p, ref) == BoundaryLap(g, bc, aux, Expand(g, cm, p), ref)
  {
    var q := Expand(g, cm, p);
    assert ReadCompact(g, bc, aux, cm, p, ref, 0) == ReadFull(g, bc, aux, q, ref, 0);
    assert ReadCompact(g, bc, aux, cm, p, ref, 1) == ReadFull(g, bc, aux, q, ref, 1);
    assert ReadCompact(g, bc, aux, cm, p, ref, 2) == ReadFull(g, bc, aux, q, ref, 2);
  }

  // ---------- Time steps as relations ----------

  datatype Field = Field(cur: seq<real>, prev: seq<real>, aux: AuxState)

  ghost predicate ValidAux(g: Layout, bc: WallBC, aux: AuxState) {
    && (bc.ADE? ==> forall i | i in aux :: |aux[i]| == |bc.residues|)
    && (forall i | i in aux :: exists k :: RefAt(g, k, i))
  }

  ghost predicate AuxStep(g: Layout, bc: WallBC, pr: StepParams, at: seq<real>, aux: AuxState, aux': AuxState)
    requires ValidParams(g, bc, pr) && ValidAux(g, bc, aux) && |at| == |g.class_|
  {
    if !bc.ADE? then aux' == aux
    else
      && aux'.Keys == aux.Keys
      && (forall k | 0 <= k < |g.boundaryIdx| && g.boundaryIdx[k].idx in aux :: AuxStepAt(g, bc, pr, at, aux, aux', g.boundaryIdx[k]))
  }

  ghost predicate AuxStepAt(g: Layout, bc: WallBC, pr: StepParams, at: seq<real>, aux: AuxState, aux': AuxState, ref: BoundaryRef)
    requires ValidParams(g, bc, pr) && bc.ADE?
  {
    && ref.idx in aux && ref.idx in aux' && ref.idx < |at| && |aux[ref.idx]| == |bc.residues|
    && aux'[ref.idx] == NextAux(g, bc, pr, ref, at[ref.idx], aux[ref.idx])
  }

  /** One step on full fields. What it leaves in exterior samples is not specified. */
  ghost predicate FullStep(g: Layout, bc: WallBC, pr: StepParams, f: Field, f': Field) {
    && ValidLayout(g) && ValidParams(g, bc, pr) && ValidAux(g, bc, f.aux)
    && |f.cur| == |f.prev| == |f'.cur| == |g.class_| && f'.prev == f.cur
    && (forall k | 0 <= k < |g.interiorIdx| :: InteriorStep(g, pr, f.cur, f.prev, f'.cur, g.interiorIdx[k]))
    && (forall k | 0 <= k < |g.boundaryIdx| :: BoundaryStep(g, bc, pr, f.cur, f.prev, f.aux, f'.cur, g.boundaryIdx[k]))
    && AuxStep(g, bc, pr, f.cur, f.aux, f'.aux)
  }

  ghost predicate InteriorStep(g: Layout, pr: StepParams, cur: seq<real>, prev: seq<real>, next: seq<real>, i: nat)
    requires |cur| == |prev| == |next| == |g.class_| && g.h > 0.0
  {
    InteriorOk(g, i) && next[i] == Undamped(pr, cur[i], prev[i], InteriorLap(g, cur, i))
  }

  ghost predicate BoundaryStep(g: Layout, bc: WallBC, pr: StepParams, cur: seq<real>, prev: seq<real>, aux: AuxState,
                               next: seq<real>, ref: BoundaryRef)
    requires |cur| == |prev| == |next| == |g.class_| && ValidParams(g, bc, pr)
  {
    && BoundaryOk(g, ref)
    && next[ref.idx] == BoundaryUpdate(g, bc, pr, ref, cur[ref.idx], prev[ref.idx], BoundaryLap(g, bc, aux, cur, ref))
  }

  /** One step on compressed fields, through the compact map. */
  ghost predicate CompactStep(g: Layout, bc: WallBC, cm: seq<int>, pr: StepParams, f: Field, f': Field) {
    && ValidLayout(g) && CompactOk(g, cm) && ValidParams(g, bc, pr) && ValidAux(g, bc, f.aux)
    && |f.cur| == |f.prev| == |f'.cur| == ActiveCount(g) && f'.prev == f.cur
    && (forall k | 0 <= k < |g.interiorIdx| :: InteriorStepCompact(g, cm, pr, f.cur, f.prev, f'.cur, g.interiorIdx[k]))
    && (forall k | 0 <= k < |g.boundaryIdx| :: BoundaryStepCompact(g, bc, cm, pr, f.cur, f.prev, f.aux, f'.cur, g.boundaryIdx[k]))
    && AuxStep(g, bc, pr, Expand(g, cm, f.cur), f.aux, f'.aux)
  }

  ghost predicate InteriorStepCompact(g: Layout, cm: seq<int>, pr: StepParams, cur: seq<real>, prev: seq<real>, next: seq<real>, i: nat)
    requires CompactOk(g, cm) && |cur| == |prev| == |next| == ActiveCount(g) && g.h > 0.0
  {
    InteriorOk(g, i) && next[cm[i]] == Undamped(pr, cur[cm[i]], prev[cm[i]], InteriorLapCompact(g, cm, cur, i))
  }

  ghost predicate BoundaryStepCompact(g: Layout, bc: WallBC, cm: seq<int>, pr: StepParams, cur: seq<real>, prev: seq<real>, aux: AuxState,
                                      next: seq<real>, ref: BoundaryRef)
    requires CompactOk(g, cm) && |cur| == |prev| == |next| == ActiveCount(g) && ValidParams(g, bc, pr)
  {
    && BoundaryOk(g, ref)
    && var s := cm[ref.idx];
       next[s] == BoundaryUpdate(g, bc, pr, ref, cur[s], prev[s], BoundaryLapCompact(g, bc, aux, cm, cur, ref))
  }

  // ---------- The refinement ----------

  /** Full and compressed runs hold the same pressures at active nodes and the same auxiliary state. */
  ghost predicate Coupled(g: Layout, cm: seq<int>, full: Field, compact: Field) {
    && CompactOk(g, cm) && |compact.cur| == |compact.prev| == ActiveCount(g)
    && AgreeOnActive(g, full.cur, Expand(g, cm, compact.cur))
    && AgreeOnActive(g, full.prev, Expand(g, cm, compact.prev))
    && full.aux == compact.aux
  }

  lemma CoupledInterior(g: Layout, cm: seq<int>, pr: StepParams, cur: seq<real>, prev: seq<real>, next: seq<real>,
                        cur': seq<real>, prev': seq<real>, next': seq<real>, i: nat)
    requires g.h > 0.0 && CompactOk(g, cm) && |next| == |g.class_| && |cur'| == |prev'| == |next'| == ActiveCount(g)
    requires AgreeOnActive(g, cur, Expand(g, cm, cur')) && AgreeOnActive(g, prev, Expand(g, cm, prev'))
    requires InteriorStep(g, pr, cur, prev, next, i) && InteriorStepCompact(g, cm, pr, cur', prev', next', i)
    ensures next[i] == next'[cm[i]]
  {
    InteriorReadsActive(g, cur, Expand(g, cm, cur'), i);
    InteriorExpands(g, cm, cur', i);
  }

  lemma CoupledBoundary(g: Layout, bc: WallBC, cm: seq<int>, pr: StepParams, aux: AuxState, cur: seq<real>, prev: seq<real>, next: seq<real>,
                        cur': seq<real>, prev': seq<real>, next': seq<real>, ref: BoundaryRef)
    requires ValidParams(g, bc, pr) && CompactOk(g, cm) && |next| == |g.class_| && |cur'| == |prev'| == |next'| == ActiveCount(g)
    requires AgreeOnActive(g, cur, Expand(g, cm, cur')) && AgreeOnActive(g, prev, Expand(g, cm, prev'))
    requires BoundaryStep(g, bc, pr, cur, prev, aux, next, ref) && BoundaryStepCompact(g, bc, cm, pr, cur', prev', aux, next', ref)
    ensures next[ref.idx] == next'[cm[ref.idx]]
  {
    BoundaryReadsActive(g, bc, aux, cur, Expand(g, cm, cur'), ref);
    BoundaryExpands(g, bc, aux, cm, cur', ref);
  }

  lemma CoupledNext(g: Layout, bc: WallBC, cm: seq<int>, pr: StepParams, full: Field, full': Field, compact: Field, compact': Field)
    requires Coupled(g, cm, full, compact)
    requires FullStep(g, bc, pr, full, full') && CompactStep(g, bc, cm, pr, compact, compact')
    ensures AgreeOnActive(g, full'.cur, Expand(g, cm, compact'.cur))
  {
    forall i: nat | i < |g.class_| && Active(g, i)
      ensures full'.cur[i] == compact'.cur[cm[i]]
    {
      if g.class_[i].Interior? {
        assert i in g.interiorIdx;
        CoupledInterior(g, cm, pr, full.cur, full.prev, full'.cur, compact.cur, compact.prev, compact'.cur, i);
      } else {
        var k: nat :| RefAt(g, k, i);
        CoupledBoundary(g, bc, cm, pr, full.aux, full.cur, full.prev, full'.cur, compact.cur, compact.prev, compact'.cur, g.boundaryIdx[k]);
      }
    }
  }

  lemma AuxNodeIsDetermined(g: Layout, bc: WallBC, pr: StepParams, at: seq<real>, at': seq<real>, aux: AuxState, a: AuxState, b: AuxState, k: nat)
    requires bc.ADE? && ValidParams(g, bc, pr) && ValidAux(g, bc, aux) && AgreeOnActive(g, at, at')
    requires k < |g.boundaryIdx| && BoundaryOk(g, g.boundaryIdx[k]) && g.boundaryIdx[k].idx in aux
    requires AuxStep(g, bc, pr, at, aux, a) && AuxStep(g, bc, pr, at', aux, b)
    ensures var i := g.boundaryIdx[k].idx; i in a && i in b && a[i] == b[i] && |a[i]| == |bc.residues|
  {
    assert AuxStepAt(g, bc, pr, at, aux, a, g.boundaryIdx[k]) && AuxStepAt(g, bc, pr, at', aux, b, g.boundaryIdx[k]);
  }

  lemma AuxIsDetermined(g: Layout, bc: WallBC, pr: StepParams, at: seq<real>, at': seq<real>, aux: AuxState, a: AuxState, b: AuxState)
    requires (forall k | 0 <= k < |g.boundaryIdx| :: BoundaryOk(g, g.boundaryIdx[k]))
    requires ValidParams(g, bc, pr) && ValidAux(g, bc, aux) && AgreeOnActive(g, at, at')
    requires AuxStep(g, bc, pr, at, aux, a) && AuxStep(g, bc, pr, at', aux, b)
    ensures a == b
  {
    if bc.ADE? {
      forall i | i in aux
        ensures i in a && i in b && a[i] == b[i]
      {
        var k: nat :| RefAt(g, k, i);
        AuxNodeIsDetermined(g, bc, pr, at, at', aux, a, b, k);
      }
      SameMaps(aux.Keys, a, b);
    }
  }

  lemma SameMaps(keys: set<nat>, a: AuxState, b: AuxState)
    requires a.Keys == keys == b.Keys && forall i | i in keys :: a[i] == b[i]
    ensures a == b
  {
  }

  /** One step keeps the two runs coupled. */
  lemma StepKeepsCoupling(g: Layout, bc: WallBC, cm: seq<int>, pr: StepParams, full: Field, full': Field, compact: Field, compact': Field)
    requires Coupled(g, cm, full, compact)
    requires FullStep(g, bc, pr, full, full') && CompactStep(g, bc, cm, pr, compact, compact')
    ensures Coupled(g, cm, full', compact')
  {
    CoupledNext(g, bc, cm, pr, full, full', compact, compact');
    AuxIsDetermined(g, bc, pr, full.cur, Expand(g, cm, compact.cur), full.aux, full'.aux, compact'.aux);
  }

  /** Runs of any length, with any parameters from step to step, stay coupled. */
  lemma {:induction false} CompressionIsExact(g: Layout, bc: WallBC, cm: seq<int>, prs: seq<StepParams>, full: seq<Field>, compact: seq<Field>, n: nat)
    requires |full| == |compact| == |prs| + 1 && n < |full|
    requires Coupled(g, cm, full[0], compact[0])
    requires forall k | 0 <= k < |prs| :: FullStep(g, bc, prs[k], full[k], full[k + 1])
    requires forall k | 0 <= k < |prs| :: CompactStep(g, bc, cm, prs[k], compact[k], compact[k + 1])
    ensures Coupled(g, cm, full[n], compact[n])
  {
    if n > 0 {
      CompressionIsExact(g, bc, cm, prs, full, compact, n - 1);
      assert FullStep(g, bc, prs[n - 1], full[n - 1], full[n - 1 + 1]);
      assert CompactStep(g, bc, cm, prs[n - 1], compact[n - 1], compact[n - 1 + 1]);
      StepKeepsCoupling(g, bc, cm, prs[n - 1], full[n - 1], full[n], compact[n - 1], compact[n]);
    }
  }

  // ---------- Uniform pressure ----------

  lemma TimesBack(u: real, y: real, k: real)
    requires y != 0.0
    ensures (u / y) * (y * k) == u * k
  {
    var q := u / y;
    assert q * y == u;
    Associate(q, y, k);
  }

  lemma Associate(x: real, y: real, z: real)
    ensures x * (y * z) == (x * y) * z
  {
  }

  lemma Reorder(a: real, b: real, s: real)
    ensures (a * s) * b == (a * b) * s && (b * s) * a == (a * b) * s
  {
  }

  /** If p, q and r, scaled by d, are u(a + b), ub and ua, then p = q + r. */
  lemma Cancel(p: real, q: real, r: real, d: real, u: real, a: real, b: real)
    requires d != 0.0 && p * d == u * (a + b) && q * d == u * b && r * d == u * a
    ensures p - q - r == 0.0
  {
    assert (p - q - r) * d == p * d - q * d - r * d;
    assert u * (a + b) == u * a + u * b;
  }

  lemma FlatAxis(u: real, x: AxisRead)
    requires x.alpha > 0.0 && x.beta > 0.0 && x.neg == u && x.pos == u
    ensures AxisTerm(u, x) == 0.0
  {
    var a, b, s := x.alpha, x.beta, x.alpha + x.beta;
    var ab, as', bs := a * b, a * s, b * s;
    PosProduct(a, b);
    PosProduct(a, s);
    PosProduct(b, s);
    PosProduct(ab, s);
    TimesBack(u, ab, s);
    TimesBack(u, as', b);
    TimesBack(u, bs, a);
    Reorder(a, b, s);
    Cancel(u / ab, u / as', u / bs, ab * s, u, a, b);
  }

  ghost predicate Uniform(g: Layout, p: seq<real>, u: real) {
    |p| == |g.class_| && forall i | 0 <= i < |p| && Active(g, i) :: p[i] == u
  }

  lemma FlatBoundary(g: Layout, aux: AuxState, p: seq<real>, ref: BoundaryRef, u: real)
    requires g.h > 0.0 && BoundaryOk(g, ref) && Uniform(g, p, u)
    ensures BoundaryLap(g, Rigid, aux, p, ref) == 0.0
  {
    forall a: nat, d: nat | a < 3 && d < 2
      ensures ValueFull(g, Rigid, aux, p, ref, a, d) == u
    {
      assert FractionOk(g, ref, a, d);
    }
    var x, y, z := ReadFull(g, Rigid, aux, p, ref, 0), ReadFull(g, Rigid, aux, p, ref, 1), ReadFull(g, Rigid, aux, p, ref, 2);
    FlatAxis(u, x);
    FlatAxis(u, y);
    FlatAxis(u, z);
    ZeroWeights(2.0 * (1.0 / (g.h * g.h)));
  }

  lemma ZeroWeights(w: real)
    ensures w * 0.0 + w * 0.0 + w * 0.0 == 0.0
  {
  }

  lemma FlatInterior(g: Layout, p: seq<real>, i: nat, u: real)
    requires g.h > 0.0 && InteriorOk(g, i) && Uniform(g, p, u)
    ensures InteriorLap(g, p, i) == 0.0
  {
  }

  lemma ZeroLap(pr: StepParams, u: real)
    ensures Undamped(pr, u, u, 0.0) == u
  {
  }

  /** With rigid walls a uniform pressure is a fixed point of every step. */
  lemma UniformPressureStays(g: Layout, pr: StepParams, f: Field, f': Field, u: real)
    requires FullStep(g, Rigid, pr, f, f') && Uniform(g, f.cur, u) && Uniform(g, f.prev, u)
    ensures Uniform(g, f'.cur, u)
  {
    ZeroLap(pr, u);
    forall i: nat | i < |g.class_| && Active(g, i)
      ensures f'.cur[i] == u
    {
      if g.class_[i].Interior? {
        assert i in g.interiorIdx && InteriorStep(g, pr, f.cur, f.prev, f'.cur, i);
        FlatInterior(g, f.cur, i, u);
      } else {
        var k: nat :| RefAt(g, k, i);
        assert BoundaryStep(g, Rigid, pr, f.cur, f.prev, f.aux, f'.cur, g.boundaryIdx[k]);
        FlatBoundary(g, f.aux, f.cur, g.boundaryIdx[k], u);
      }
    }
  }

  // ---------- The exterior ----------

  /** The fields differ at most in their exterior samples. */
  ghost predicate SameRoom(g: Layout, f: Field, e: Field) {
    AgreeOnActive(g, f.cur, e.cur) && AgreeOnActive(g, f.prev, e.prev) && f.aux == e.aux
  }

  lemma SamePressures(g: Layout, bc: WallBC, pr: StepParams, f: Field, f': Field, e: Field, e': Field)
    requires FullStep(g, bc, pr, f, f') && FullStep(g, bc, pr, e, e') && SameRoom(g, f, e)
    ensures AgreeOnActive(g, f'.cur, e'.cur)
  {
    forall i: nat | i < |g.class_| && Active(g, i)
      ensures f'.cur[i] == e'.cur[i]
    {
      if g.class_[i].Interior? {
        assert i in g.interiorIdx;
        assert InteriorStep(g, pr, f.cur, f.prev, f'.cur, i) && InteriorStep(g, pr, e.cur, e.prev, e'.cur, i);
        InteriorReadsActive(g, f.cur, e.cur, i);
      } else {
        var k: nat :| RefAt(g, k, i);
        assert BoundaryStep(g, bc, pr, f.cur, f.prev, f.aux, f'.cur, g.boundaryIdx[k]);
        assert BoundaryStep(g, bc, pr, e.cur, e.prev, e.aux, e'.cur, g.boundaryIdx[k]);
        BoundaryReadsActive(g, bc, f.aux, f.cur, e.cur, g.boundaryIdx[k]);
      }
    }
  }

  /** Whatever the exterior samples of a full field hold, and whatever each step leaves in them, runs
      of any length have the same pressures at active nodes and the same auxiliary state. */
  lemma {:induction false} ExteriorNeverLeaksIn(g: Layout, bc: WallBC, prs: seq<StepParams>, f: seq<Field>, e: seq<Field>, n: nat)
    requires |f| == |e| == |prs| + 1 && n < |f| && SameRoom(g, f[0], e[0])
    requires forall k | 0 <= k < |prs| :: FullStep(g, bc, prs[k], f[k], f[k + 1])
    requires forall k | 0 <= k < |prs| :: FullStep(g, bc, prs[k], e[k], e[k + 1])
    ensures SameRoom(g, f[n], e[n])
  {
    if n > 0 {
      var m := n - 1;
      ExteriorNeverLeaksIn(g, bc, prs, f, e, m);
      assert FullStep(g, bc, prs[m], f[m], f[m + 1]) && FullStep(g, bc, prs[m], e[m], e[m + 1]);
      SamePressures(g, bc, prs[m], f[m], f[n], e[m], e[n]);
      AuxIsDetermined(g, bc, prs[m], f[m].cur, e[m].cur, f[m].aux, f[n].aux, e[n].aux);
    }
  }
}
