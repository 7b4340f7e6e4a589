/** The time-stepping loops, writing pressure arrays in place (pde/ibm_stencil.go). */
module FDTDStep {
  import opened IBMGrid
  import opened IBMStencil

  // ---------- Where a node is stored ----------

  /** The array slot of an active node: its flat index, or its compact index. */
  function Slot(cm: seq<int>, compressed: bool, i: nat): int {
    if compressed && i < |cm| then cm[i] else i
  }

  ghost predicate StorageOk(g: Layout, cm: seq<int>, compressed: bool, length: nat) {
    && ValidLayout(g) && (compressed ==> CompactOk(g, cm))
    && length == if compressed then ActiveCount(g) else |g.class_|
  }

  lemma SlotOfActive(g: Layout, cm: seq<int>, compressed: bool, length: nat, i: nat)
    requires StorageOk(g, cm, compressed, length) && Active(g, i)
    ensures 0 <= Slot(cm, compressed, i) < length
  {
  }

  lemma SlotsDiffer(g: Layout, cm: seq<int>, compressed: bool, length: nat, i: nat, j: nat)
    requires StorageOk(g, cm, compressed, length) && Active(g, i) && Active(g, j) && i != j
    ensures Slot(cm, compressed, i) != Slot(cm, compressed, j)
  {
  }

  // ---------- What the loops compute ----------

  ghost function LapInterior(g: Layout, cm: seq<int>, compressed: bool, p: seq<real>, i: nat): real
    requires StorageOk(g, cm, compressed, |p|) && InteriorOk(g, i)
  {
    if compressed then InteriorLapCompact(g, cm, p, i) else InteriorLap(g, p, i)
  }

  ghost function LapBoundary(g: Layout, bc: WallBC, aux: AuxState, cm: seq<int>, compressed: bool, p: seq<real>, ref: BoundaryRef): real
    requires StorageOk(g, cm, compressed, |p|) && BoundaryOk(g, ref)
  {
    if compressed then BoundaryLapCompact(g, bc, aux, cm, p, ref) else BoundaryLap(g, bc, aux, p, ref)
  }

  ghost predicate At(dst: seq<real>, s: int, value: real) {
    0 <= s < |dst| && dst[s] == value
  }

  /** The array holds `inner[k]` at the k-th interior node and `outer[k]` at the k-th boundary node. */
  ghost predicate Holds(g: Layout, cm: seq<int>, compressed: bool, dst: seq<real>, inner: seq<real>, outer: seq<real>) {
    && |inner| == |g.interiorIdx| && |outer| == |g.boundaryIdx|
    && (forall k | 0 <= k < |inner| :: At(dst, Slot(cm, compressed, g.interiorIdx[k]), inner[k]))
    && (forall k | 0 <= k < |outer| :: At(dst, Slot(cm, compressed, g.boundaryIdx[k].idx), outer[k]))
  }

  lemma SlotOfInterior(g: Layout, cm: seq<int>, compressed: bool, length: nat, k: nat)
    requires StorageOk(g, cm, compressed, length) && k < |g.interiorIdx|
    ensures InteriorOk(g, g.interiorIdx[k]) && 0 <= Slot(cm, compressed, g.interiorIdx[k]) < length
    ensures forall j | 0 <= j < |g.interiorIdx| && j != k :: Slot(cm, compressed, g.interiorIdx[j]) != Slot(cm, compressed, g.interiorIdx[k])
    ensures forall j | 0 <= j < |g.boundaryIdx| :: Slot(cm, compressed, g.boundaryIdx[j].idx) != Slot(cm, compressed, g.interiorIdx[k])
  {
    assert InteriorOk(g, g.interiorIdx[k]);
    SlotOfActive(g, cm, compressed, length, g.interiorIdx[k]);
    forall j | 0 <= j < |g.interiorIdx| && j != k
      ensures Slot(cm, compressed, g.interiorIdx[j]) != Slot(cm, compressed, g.interiorIdx[k])
    {
      assert InteriorOk(g, g.interiorIdx[j]);
      SlotsDiffer(g, cm, compressed, length, g.interiorIdx[j], g.interiorIdx[k]);
    }
    forall j | 0 <= j < |g.boundaryIdx|
      ensures Slot(cm, compressed, g.boundaryIdx[j].idx) != Slot(cm, compressed, g.interiorIdx[k])
    {
      assert BoundaryOk(g, g.boundaryIdx[j]);
      SlotsDiffer(g, cm, compressed, length, g.boundaryIdx[j].idx, g.interiorIdx[k]);
    }
  }

  lemma SlotOfBoundary(g: Layout, cm: seq<int>, compressed: bool, length: nat, k: nat)
    requires StorageOk(g, cm, compressed, length) && k < |g.boundaryIdx|
    ensures BoundaryOk(g, g.boundaryIdx[k]) && 0 <= Slot(cm, compressed, g.boundaryIdx[k].idx) < length
    ensures forall j | 0 <= j < |g.boundaryIdx| && j != k ::
              Slot(cm, compressed, g.boundaryIdx[j].idx) != Slot(cm, compressed, g.boundaryIdx[k].idx)
    ensures forall j | 0 <= j < |g.interiorIdx| :: Slot(cm, compressed, g.interiorIdx[j]) != Slot(cm, compressed, g.boundaryIdx[k].idx)
  {
    assert BoundaryOk(g, g.boundaryIdx[k]);
    SlotOfActive(g, cm, compressed, length, g.boundaryIdx[k].idx);
    forall j | 0 <= j < |g.boundaryIdx| && j != k
      ensures Slot(cm, compressed, g.boundaryIdx[j].idx) != Slot(cm, compressed, g.boundaryIdx[k].idx)
    {
      assert BoundaryOk(g, g.boundaryIdx[j]);
      SlotsDiffer(g, cm, compressed, length, g.boundaryIdx[j].idx, g.boundaryIdx[k].idx);
    }
    forall j | 0 <= j < |g.interiorIdx|
      ensures Slot(cm, compressed, g.interiorIdx[j]) != Slot(cm, compressed, g.boundaryIdx[k].idx)
    {
      assert InteriorOk(g, g.interiorIdx[j]);
      SlotsDiffer(g, cm, compressed, length, g.interiorIdx[j], g.boundaryIdx[k].idx);
    }
  }

  /** What an array holds at the start, whatever it is. */
  lemma HoldsSomething(g: Layout, cm: seq<int>, compressed: bool, dst: seq<real>) returns (inner: seq<real>, outer: seq<real>)
    requires StorageOk(g, cm, compressed, |dst|)
    ensures Holds(g, cm, compressed, dst, inner, outer)
  {
    inner, outer := [], [];
    for k := 0 to |g.interiorIdx|
      invariant |inner| == k && forall j | 0 <= j < k :: At(dst, Slot(cm, compressed, g.interiorIdx[j]), inner[j])
    {
      SlotOfInterior(g, cm, compressed, |dst|, k);
      inner := inner + [dst[Slot(cm, compressed, g.interiorIdx[k])]];
    }
    for k := 0 to |g.boundaryIdx|
      invariant |outer| == k && forall j | 0 <= j < k :: At(dst, Slot(cm, compressed, g.boundaryIdx[j].idx), outer[j])
    {
      SlotOfBoundary(g, cm, compressed, |dst|, k);
      outer := outer + [dst[Slot(cm, compressed, g.boundaryIdx[k].idx)]];
    }
  }

  /** Writing one interior node changes what is held there and nowhere else. */
  lemma WriteInterior(g: Layout, cm: seq<int>, compressed: bool, dst: seq<real>, inner: seq<real>, outer: seq<real>, k: nat, value: real)
    requires StorageOk(g, cm, compressed, |dst|) && Holds(g, cm, compressed, dst, inner, outer) && k < |inner|
    ensures 0 <= Slot(cm, compressed, g.interiorIdx[k]) < |dst|
    ensures Holds(g, cm, compressed, dst[Slot(cm, compressed, g.interiorIdx[k]) := value], inner[k := value], outer)
  {
    SlotOfInterior(g, cm, compressed, |dst|, k);
  }

  lemma WriteBoundary(g: Layout, cm: seq<int>, compressed: bool, dst: seq<real>, inner: seq<real>, outer: seq<real>, k: nat, value: real)
    requires StorageOk(g, cm, compressed, |dst|) && Holds(g, cm, compressed, dst, inner, outer) && k < |outer|
    ensures 0 <= Slot(cm, compressed, g.boundaryIdx[k].idx) < |dst|
    ensures Holds(g, cm, compressed, dst[Slot(cm, compressed, g.boundaryIdx[k].idx) := value], inner, outer[k := value])
  {
    SlotOfBoundary(g, cm, compressed, |dst|, k);
  }

  /** The Laplacians of the nodes, in list order. */
  ghost predicate IsLaplacian(g: Layout, bc: WallBC, aux: AuxState, cm: seq<int>, compressed: bool, p: seq<real>,
                              inner: seq<real>, outer: seq<real>, n: nat, m: nat)
    requires StorageOk(g, cm, compressed, |p|) && n <= |inner| == |g.interiorIdx| && m <= |outer| == |g.boundaryIdx|
  {
    && (forall k | 0 <= k < n :: InteriorOk(g, g.interiorIdx[k]) && inner[k] == LapInterior(g, cm, compressed, p, g.interiorIdx[k]))
    && (forall k | 0 <= k < m :: BoundaryOk(g, g.boundaryIdx[k]) && outer[k] == LapBoundary(g, bc, aux, cm, compressed, p, g.boundaryIdx[k]))
  }

  method LaplaceInterior(g: Layout, bc: WallBC, ghost aux: AuxState, cm: seq<int>, compressed: bool, dst: array<real>, src: array<real>)
    returns (ghost inner: seq<real>, ghost outer: seq<real>)
    requires StorageOk(g, cm, compressed, src.Length) && dst.Length == src.Length && dst != src
    modifies dst
    ensures Holds(g, cm, compressed, dst[..], inner, outer)
    ensures IsLaplacian(g, bc, aux, cm, compressed, src[..], inner, outer, |g.interiorIdx|, 0)
  {
    inner, outer := HoldsSomething(g, cm, compressed, dst[..]);
    for k := 0 to |g.interiorIdx|
      invariant Holds(g, cm, compressed, dst[..], inner, outer) && src[..] == old(src[..])
      invariant IsLaplacian(g, bc, aux, cm, compressed, src[..], inner, outer, k, 0)
    {
      var i := g.interiorIdx[k];
      SlotOfInterior(g, cm, compressed, dst.Length, k);
      var value := if compressed then InteriorLapCompact(g, cm, src[..], i) else InteriorLap(g, src[..], i);
      WriteInterior(g, cm, compressed, dst[..], inner, outer, k, value);
      ghost var before := dst[..];
      dst[Slot(cm, compressed, i)] := value;
      assert dst[..] == before[Slot(cm, compressed, i) := value];
      inner := inner[k := value];
    }
  }

  /** Computes the negated Laplacian of `src` into `dst`, over the sparse node lists. */
  method ApplyLaplacian(g: Layout, bc: WallBC, aux: AuxState, cm: seq<int>, compressed: bool, dst: array<real>, src: array<real>)
    returns (ghost inner: seq<real>, ghost outer: seq<real>)
    requires StorageOk(g, cm, compressed, src.Length) && dst.Length == src.Length && dst != src
    modifies dst
    ensures Holds(g, cm, compressed, dst[..], inner, outer)
    ensures IsLaplacian(g, bc, aux, cm, compressed, src[..], inner, outer, |g.interiorIdx|, |g.boundaryIdx|)
  {
    inner, outer := LaplaceInterior(g, bc, aux, cm, compressed, dst, src);
    for k := 0 to |g.boundaryIdx|
      invariant Holds(g, cm, compressed, dst[..], inner, outer) && src[..] == old(src[..])
      invariant IsLaplacian(g, bc, aux, cm, compressed, src[..], inner, outer, |g.interiorIdx|, k)
    {
      var ref := g.boundaryIdx[k];
      SlotOfBoundary(g, cm, compressed, dst.Length, k);
      var value := if compressed then BoundaryLapCompact(g, bc, aux, cm, src[..], ref) else BoundaryLap(g, bc, aux, src[..], ref);
      WriteBoundary(g, cm, compressed, dst[..], inner, outer, k, value);
      ghost var before := dst[..];
      dst[Slot(cm, compressed, ref.idx)] := value;
      assert dst[..] == before[Slot(cm, compressed, ref.idx) := value];
      outer := outer[k := value];
    }
  }

  // ---------- The leapfrog update, in place ----------

  ghost predicate UndampedAt(pr: StepParams, cur: seq<real>, prev: seq<real>, s: int, lap: real, value: real) {
    0 <= s < |cur| && s < |prev| && value == Undamped(pr, cur[s], prev[s], lap)
  }

  ghost predicate UpdatedAt(g: Layout, bc: WallBC, pr: StepParams, ref: BoundaryRef, cur: seq<real>, prev: seq<real>, s: int, lap: real, value: real)
    requires ValidParams(g, bc, pr)
  {
    0 <= s < |cur| && s < |prev| && value == BoundaryUpdate(g, bc, pr, ref, cur[s], prev[s], lap)
  }

  /** Overwrites the Laplacians of the interior nodes by their next pressures. */
  method UpdateInterior(g: Layout, pr: StepParams, cm: seq<int>, compressed: bool, next: array<real>, cur: array<real>, prev: array<real>,
                        ghost lap: seq<real>, ghost outer: seq<real>) returns (ghost inner: seq<real>)
    requires StorageOk(g, cm, compressed, next.Length) && cur.Length == prev.Length == next.Length && next != cur && next != prev
    requires Holds(g, cm, compressed, next[..], lap, outer)
    modifies next
    ensures Holds(g, cm, compressed, next[..], inner, outer)
    ensures forall k | 0 <= k < |inner| :: UndampedAt(pr, cur[..], prev[..], Slot(cm, compressed, g.interiorIdx[k]), lap[k], inner[k])
  {
    inner := lap;
    for k := 0 to |g.interiorIdx|
      invariant Holds(g, cm, compressed, next[..], inner, outer)
      invariant forall j | k <= j < |inner| :: inner[j] == lap[j]
      invariant forall j | 0 <= j < k :: UndampedAt(pr, cur[..], prev[..], Slot(cm, compressed, g.interiorIdx[j]), lap[j], inner[j])
    {
      SlotOfInterior(g, cm, compressed, next.Length, k);
      var s := Slot(cm, compressed, g.interiorIdx[k]);
      assert At(next[..], s, inner[k]);
      var value := Undamped(pr, cur[s], prev[s], next[s]);
      WriteInterior(g, cm, compressed, next[..], inner, outer, k, value);
      ghost var before := next[..];
      next[s] := value;
      assert next[..] == before[s := value];
      inner := inner[k := value];
    }
  }

  /** Overwrites the Laplacians of the boundary nodes by their next pressures, with impedance damping. */
  method UpdateBoundary(g: Layout, bc: WallBC, pr: StepParams, cm: seq<int>, compressed: bool, next: array<real>, cur: array<real>,
                        prev: array<real>, ghost inner: seq<real>, ghost lap: seq<real>) returns (ghost outer: seq<real>)
    requires StorageOk(g, cm, compressed, next.Length) && cur.Length == prev.Length == next.Length && next != cur && next != prev
    requires ValidParams(g, bc, pr) && Holds(g, cm, compressed, next[..], inner, lap)
    modifies next
    ensures Holds(g, cm, compressed, next[..], inner, outer)
    ensures forall k | 0 <= k < |outer| ::
              UpdatedAt(g, bc, pr, g.boundaryIdx[k], cur[..], prev[..], Slot(cm, compressed, g.boundaryIdx[k].idx), lap[k], outer[k])
  {
    outer := lap;
    for k := 0 to |g.boundaryIdx|
      invariant Holds(g, cm, compressed, next[..], inner, outer)
      invariant forall j | k <= j < |outer| :: outer[j] == lap[j]
      invariant forall j | 0 <= j < k ::
                  UpdatedAt(g, bc, pr, g.boundaryIdx[j], cur[..], prev[..], Slot(cm, compressed, g.boundaryIdx[j].idx), lap[j], outer[j])
    {
      SlotOfBoundary(g, cm, compressed, next.Length, k);
      var s := Slot(cm, compressed, g.boundaryIdx[k].idx);
      assert At(next[..], s, outer[k]);
      var value := BoundaryUpdate(g, bc, pr, g.boundaryIdx[k], cur[s], prev[s], next[s]);
      WriteBoundary(g, cm, compressed, next[..], inner, outer, k, value);
      ghost var before := next[..];
      next[s] := value;
      assert next[..] == before[s := value];
      outer := outer[k := value];
    }
  }

  // ---------- The auxiliary equation ----------

  ghost predicate AuxDone(g: Layout, bc: WallBC, pr: StepParams, cm: seq<int>, compressed: bool, at: seq<real>, aux: AuxState, aux': AuxState, k: nat)
    requires ValidParams(g, bc, pr) && bc.ADE? && k < |g.boundaryIdx|
  {
    var ref := g.boundaryIdx[k];
    var s := Slot(cm, compressed, ref.idx);
    && ref.idx in aux && ref.idx in aux' && 0 <= s < |at| && |aux[ref.idx]| == |bc.residues|
    && aux'[ref.idx] == NextAux(g, bc, pr, ref, at[s], aux[ref.idx])
  }

  /** The first `k` boundary nodes have been advanced, the others not. */
  ghost predicate AuxProgress(g: Layout, bc: WallBC, pr: StepParams, cm: seq<int>, compressed: bool, at: seq<real>, aux: AuxState, aux': AuxState, k: nat)
    requires ValidParams(g, bc, pr) && bc.ADE? && k <= |g.boundaryIdx|
  {
    && aux'.Keys == aux.Keys
    && (forall j: nat | j < k && g.boundaryIdx[j].idx in aux :: AuxDone(g, bc, pr, cm, compressed, at, aux, aux', j))
    && (forall j: nat | k <= j < |g.boundaryIdx| && g.boundaryIdx[j].idx in aux :: aux'[g.boundaryIdx[j].idx] == aux[g.boundaryIdx[j].idx])
  }

  lemma AuxAdvances(g: Layout, bc: WallBC, pr: StepParams, cm: seq<int>, compressed: bool, at: seq<real>, aux: AuxState, aux': AuxState, k: nat)
    requires ValidParams(g, bc, pr) && bc.ADE? && k < |g.boundaryIdx|
    requires forall i, j | 0 <= i < j < |g.boundaryIdx| :: g.boundaryIdx[i].idx != g.boundaryIdx[j].idx
    requires AuxProgress(g, bc, pr, cm, compressed, at, aux, aux', k)
    requires g.boundaryIdx[k].idx in aux && |aux[g.boundaryIdx[k].idx]| == |bc.residues| && 0 <= Slot(cm, compressed, g.boundaryIdx[k].idx) < |at|
    ensures aux'[g.boundaryIdx[k].idx] == aux[g.boundaryIdx[k].idx]
    ensures AuxProgress(g, bc, pr, cm, compressed, at, aux, aux'[g.boundaryIdx[k].idx := NextAux(g, bc, pr, g.boundaryIdx[k],
                          at[Slot(cm, compressed, g.boundaryIdx[k].idx)], aux[g.boundaryIdx[k].idx])], k + 1)
  {
    var i := g.boundaryIdx[k].idx;
    var result := aux'[i := NextAux(g, bc, pr, g.boundaryIdx[k], at[Slot(cm, compressed, i)], aux[i])];
    forall j: nat | j < k + 1 && g.boundaryIdx[j].idx in aux
      ensures AuxDone(g, bc, pr, cm, compressed, at, aux, result, j)
    {
      if j < k {
        assert AuxDone(g, bc, pr, cm, compressed, at, aux, aux', j) && g.boundaryIdx[j].idx != i;
      }
    }
  }

  lemma AuxSkips(g: Layout, bc: WallBC, pr: StepParams, cm: seq<int>, compressed: bool, at: seq<real>, aux: AuxState, aux': AuxState, k: nat)
    requires ValidParams(g, bc, pr) && bc.ADE? && k < |g.boundaryIdx| && g.boundaryIdx[k].idx !in aux
    requires AuxProgress(g, bc, pr, cm, compressed, at, aux, aux', k)
    ensures AuxProgress(g, bc, pr, cm, compressed, at, aux, aux', k + 1)
  {
  }

  /** Advances the auxiliary variables of every boundary node that has some. */
  method UpdateADE(g: Layout, bc: WallBC, pr: StepParams, cm: seq<int>, compressed: bool, cur: array<real>, aux: AuxState) returns (aux': AuxState)
    requires StorageOk(g, cm, compressed, cur.Length) && ValidParams(g, bc, pr) && ValidAux(g, bc, aux) && bc.ADE?
    ensures AuxProgress(g, bc, pr, cm, compressed, cur[..], aux, aux', |g.boundaryIdx|)
  {
    aux' := aux;
    for k := 0 to |g.boundaryIdx|
      invariant AuxProgress(g, bc, pr, cm, compressed, cur[..], aux, aux', k)
    {
      var ref := g.boundaryIdx[k];
      if ref.idx in aux' {
        SlotOfBoundary(g, cm, compressed, cur.Length, k);
        AuxAdvances(g, bc, pr, cm, compressed, cur[..], aux, aux', k);
        aux' := aux'[ref.idx := NextAux(g, bc, pr, ref, cur[..][Slot(cm, compressed, ref.idx)], aux'[ref.idx])];
      } else {
        AuxSkips(g, bc, pr, cm, compressed, cur[..], aux, aux', k);
      }
    }
  }

  // ---------- One step ----------

  lemma InteriorStepsFull(g: Layout, bc: WallBC, pr: StepParams, aux: AuxState, cm: seq<int>, cur: seq<real>, prev: seq<real>, next: seq<real>,
                          lap: seq<real>, outerLap: seq<real>, inner: seq<real>, outer: seq<real>, k: nat)
    requires StorageOk(g, cm, false, |cur|) && |cur| == |prev| == |next| && Holds(g, cm, false, next, inner, outer)
    requires |lap| == |g.interiorIdx| && |outerLap| == |g.boundaryIdx|
    requires IsLaplacian(g, bc, aux, cm, false, cur, lap, outerLap, |lap|, |outerLap|) && k < |inner|
    requires UndampedAt(pr, cur, prev, Slot(cm, false, g.interiorIdx[k]), lap[k], inner[k])
    ensures InteriorStep(g, pr, cur, prev, next, g.interiorIdx[k])
  {
    assert At(next, Slot(cm, false, g.interiorIdx[k]), inner[k]);
  }

  lemma InteriorStepsCompact(g: Layout, bc: WallBC, pr: StepParams, aux: AuxState, cm: seq<int>, cur: seq<real>, prev: seq<real>, next: seq<real>,
                             lap: seq<real>, outerLap: seq<real>, inner: seq<real>, outer: seq<real>, k: nat)
    requires StorageOk(g, cm, true, |cur|) && |cur| == |prev| == |next| && Holds(g, cm, true, next, inner, outer)
    requires |lap| == |g.interiorIdx| && |outerLap| == |g.boundaryIdx|
    requires IsLaplacian(g, bc, aux, cm, true, cur, lap, outerLap, |lap|, |outerLap|) && k < |inner|
    requires UndampedAt(pr, cur, prev, Slot(cm, true, g.interiorIdx[k]), lap[k], inner[k])
    ensures InteriorStepCompact(g, cm, pr, cur, prev, next, g.interiorIdx[k])
  {
    assert At(next, Slot(cm, true, g.interiorIdx[k]), inner[k]);
  }

  lemma BoundaryStepsFull(g: Layout, bc: WallBC, pr: StepParams, aux: AuxState, cm: seq<int>, cur: seq<real>, prev: seq<real>, next: seq<real>,
                          innerLap: seq<real>, lap: seq<real>, inner: seq<real>, outer: seq<real>, k: nat)
    requires StorageOk(g, cm, false, |cur|) && |cur| == |prev| == |next| && Holds(g, cm, false, next, inner, outer) && ValidParams(g, bc, pr)
    requires |innerLap| == |g.interiorIdx| && |lap| == |g.boundaryIdx|
    requires IsLaplacian(g, bc, aux, cm, false, cur, innerLap, lap, |innerLap|, |lap|) && k < |outer|
    requires UpdatedAt(g, bc, pr, g.boundaryIdx[k], cur, prev, Slot(cm, false, g.boundaryIdx[k].idx), lap[k], outer[k])
    ensures BoundaryStep(g, bc, pr, cur, prev, aux, next, g.boundaryIdx[k])
  {
    assert At(next, Slot(cm, false, g.boundaryIdx[k].idx), outer[k]);
  }

  lemma BoundaryStepsCompact(g: Layout, bc: WallBC, pr: StepParams, aux: AuxState, cm: seq<int>, cur: seq<real>, prev: seq<real>, next: seq<real>,
                             innerLap: seq<real>, lap: seq<real>, inner: seq<real>, outer: seq<real>, k: nat)
    requires StorageOk(g, cm, true, |cur|) && |cur| == |prev| == |next| && Holds(g, cm, true, next, inner, outer) && ValidParams(g, bc, pr)
    requires |innerLap| == |g.interiorIdx| && |lap| == |g.boundaryIdx|
    requires IsLaplacian(g, bc, aux, cm, true, cur, innerLap, lap, |innerLap|, |lap|) && k < |outer|
    requires UpdatedAt(g, bc, pr, g.boundaryIdx[k], cur, prev, Slot(cm, true, g.boundaryIdx[k].idx), lap[k], outer[k])
    ensures BoundaryStepCompact(g, bc, cm, pr, cur, prev, aux, next, g.boundaryIdx[k])
  {
    assert At(next, Slot(cm, true, g.boundaryIdx[k].idx), outer[k]);
  }

  /** The pressure part of a step, on either storage. */
  ghost predicate PressureStep(g: Layout, bc: WallBC, pr: StepParams, aux: AuxState, cm: seq<int>, compressed: bool,
                               cur: seq<real>, prev: seq<real>, next: seq<real>)
    requires StorageOk(g, cm, compressed, |cur|) && |cur| == |prev| == |next| && ValidParams(g, bc, pr)
  {
    if compressed then
      && (forall k | 0 <= k < |g.interiorIdx| :: InteriorStepCompact(g, cm, pr, cur, prev, next, g.interiorIdx[k]))
      && (forall k | 0 <= k < |g.boundaryIdx| :: BoundaryStepCompact(g, bc, cm, pr, cur, prev, aux, next, g.boundaryIdx[k]))
    else
      && (forall k | 0 <= k < |g.interiorIdx| :: InteriorStep(g, pr, cur, prev, next, g.interiorIdx[k]))
      && (forall k | 0 <= k < |g.boundaryIdx| :: BoundaryStep(g, bc, pr, cur, prev, aux, next, g.boundaryIdx[k]))
  }

  lemma PressuresStep(g: Layout, bc: WallBC, pr: StepParams, aux: AuxState, cm: seq<int>, compressed: bool, cur: seq<real>, prev: seq<real>,
                      next: seq<real>, innerLap: seq<real>, outerLap: seq<real>, inner: seq<real>, outer: seq<real>)
    requires StorageOk(g, cm, compressed, |cur|) && |cur| == |prev| == |next| && ValidParams(g, bc, pr)
    requires Holds(g, cm, compressed, next, inner, outer) && |innerLap| == |inner| && |outerLap| == |outer|
    requires IsLaplacian(g, bc, aux, cm, compressed, cur, innerLap, outerLap, |innerLap|, |outerLap|)
    requires forall k | 0 <= k < |inner| :: UndampedAt(pr, cur, prev, Slot(cm, compressed, g.interiorIdx[k]), innerLap[k], inner[k])
    requires forall k | 0 <= k < |outer| ::
               UpdatedAt(g, bc, pr, g.boundaryIdx[k], cur, prev, Slot(cm, compressed, g.boundaryIdx[k].idx), outerLap[k], outer[k])
    ensures PressureStep(g, bc, pr, aux, cm, compressed, cur, prev, next)
  {
    if compressed {
      forall k: nat | k < |inner| ensures InteriorStepCompact(g, cm, pr, cur, prev, next, g.interiorIdx[k]) {
        InteriorStepsCompact(g, bc, pr, aux, cm, cur, prev, next, innerLap, outerLap, inner, outer, k);
      }
      forall k: nat | k < |outer| ensures BoundaryStepCompact(g, bc, cm, pr, cur, prev, aux, next, g.boundaryIdx[k]) {
        BoundaryStepsCompact(g, bc, pr, aux, cm, cur, prev, next, innerLap, outerLap, inner, outer, k);
      }
    } else {
      forall k: nat | k < |inner| ensures InteriorStep(g, pr, cur, prev, next, g.interiorIdx[k]) {
        InteriorStepsFull(g, bc, pr, aux, cm, cur, prev, next, innerLap, outerLap, inner, outer, k);
      }
      forall k: nat | k < |outer| ensures BoundaryStep(g, bc, pr, cur, prev, aux, next, g.boundaryIdx[k]) {
        BoundaryStepsFull(g, bc, pr, aux, cm, cur, prev, next, innerLap, outerLap, inner, outer, k);
      }
    }
  }

  lemma AuxSteps(g: Layout, bc: WallBC, pr: StepParams, cm: seq<int>, compressed: bool, cur: seq<real>, aux: AuxState, aux': AuxState)
    requires StorageOk(g, cm, compressed, |cur|) && ValidParams(g, bc, pr) && ValidAux(g, bc, aux)
    requires if !bc.ADE? then aux' == aux else
               AuxProgress(g, bc, pr, cm, compressed, cur, aux, aux', |g.boundaryIdx|)
    ensures AuxStep(g, bc, pr, if compressed then Expand(g, cm, cur) else cur, aux, aux')
    ensures ValidAux(g, bc, aux')
  {
    if bc.ADE? {
      var at := if compressed then Expand(g, cm, cur) else cur;
      forall k: nat | k < |g.boundaryIdx| && g.boundaryIdx[k].idx in aux
        ensures AuxStepAt(g, bc, pr, at, aux, aux', g.boundaryIdx[k])
      {
        assert BoundaryOk(g, g.boundaryIdx[k]) && AuxDone(g, bc, pr, cm, compressed, cur, aux, aux', k);
      }
      forall i | i in aux'
        ensures |aux'[i]| == |bc.residues|
      {
        var k: nat :| RefAt(g, k, i);
        assert AuxStepAt(g, bc, pr, at, aux, aux', g.boundaryIdx[k]);
      }
    }
  }

  /** A stencil operator bound to a grid, with its auxiliary boundary state. */
  class Stencil {
    const g: Layout
    const bc: WallBC
    const cm: seq<int>
    const compressed: bool
    var aux: AuxState

    ghost predicate Valid()
      reads this
    {
      && ValidLayout(g) && (compressed ==> CompactOk(g, cm)) && ValidAux(g, bc, aux)
    }

    function FieldSize(): nat {
      if compressed then ActiveCount(g) else |g.class_|
    }

    /** Starts the auxiliary variables of every boundary node at rest. */
    constructor (g: Layout, bc: WallBC, cm: seq<int>, compressed: bool)
      requires ValidLayout(g) && (compressed ==> CompactOk(g, cm))
      ensures Valid() && this.g == g && this.bc == bc && this.cm == cm && this.compressed == compressed
      ensures bc.ADE? && bc.residues != [] ==> forall k | 0 <= k < |g.boundaryIdx| :: g.boundaryIdx[k].idx in aux
      ensures forall i | i in aux :: forall j | 0 <= j < |aux[i]| :: aux[i][j] == 0.0
    {
      this.g, this.bc, this.cm, this.compressed := g, bc, cm, compressed;
      aux := map[];
      new;
      if bc.ADE? && bc.residues != [] {
        for k := 0 to |g.boundaryIdx|
          invariant Valid()
          invariant forall j | 0 <= j < k :: g.boundaryIdx[j].idx in aux
          invariant forall i | i in aux :: forall j | 0 <= j < |aux[i]| :: aux[i][j] == 0.0
        {
          assert RefAt(g, k, g.boundaryIdx[k].idx);
          aux := aux[g.boundaryIdx[k].idx := seq(|bc.residues|, _ => 0.0)];
        }
      }
    }

    /** One time step: `next` receives the new pressures, being used for the Laplacian first. */
    method FDTDStep(next: array<real>, cur: array<real>, prev: array<real>, pr: StepParams)
      requires Valid() && ValidParams(g, bc, pr)
      requires next.Length == cur.Length == prev.Length == FieldSize() && next != cur && next != prev
      modifies this, next
      ensures Valid()
      ensures compressed ==> CompactStep(g, bc, cm, pr, Field(cur[..], prev[..], old(aux)), Field(next[..], cur[..], aux))
      ensures !compressed ==> FullStep(g, bc, pr, Field(cur[..], prev[..], old(aux)), Field(next[..], cur[..], aux))
    {
      ghost var innerLap, outerLap := ApplyLaplacian(g, bc, aux, cm, compressed, next, cur);
      ghost var inner := UpdateInterior(g, pr, cm, compressed, next, cur, prev, innerLap, outerLap);
      ghost var outer := UpdateBoundary(g, bc, pr, cm, compressed, next, cur, prev, inner, outerLap);
      PressuresStep(g, bc, pr, aux, cm, compressed, cur[..], prev[..], next[..], innerLap, outerLap, inner, outer);
      ghost var before := aux;
      if bc.ADE? {
        aux := UpdateADE(g, bc, pr, cm, compressed, cur, aux);
      }
      AuxSteps(g, bc, pr, cm, compressed, cur[..], before, aux);
    }
  }
}
