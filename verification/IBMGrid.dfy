/** The immersed-boundary grid: node classes, sub-cell wall fractions, sparse node lists and
    compressed storage (pde/ibm_grid.go). */
module IBMGrid {
  import opened Finite

  datatype NodeClass = Exterior | Interior | Boundary

  /** `frac[2 * axis + dir]` is 0 when the neighbour that way is active, and otherwise the
      distance to the wall in cells. */
  datatype BoundaryInfo = BoundaryInfo(frac: seq<real>, wall: int)

  datatype BoundaryRef = BoundaryRef(idx: nat, ix: nat, iy: nat, iz: nat, info: BoundaryInfo)

  datatype Layout = Layout(nx: nat, ny: nat, nz: nat, h: real, class_: seq<NodeClass>,
                           interiorIdx: seq<nat>, boundaryIdx: seq<BoundaryRef>)

  function Size(g: Layout): nat {
    g.nx * g.ny * g.nz
  }

  /** The flat-index offset of the neighbour along `axis`; `dir` 0 is the negative side. */
  function Delta(g: Layout, axis: nat, dir: nat): int {
    var step := if axis == 0 then g.ny * g.nz else if axis == 1 then g.nz else 1;
    if dir == 0 then -step else step
  }

  function Coordinate(ref: BoundaryRef, axis: nat): int {
    if axis == 0 then ref.ix else if axis == 1 then ref.iy else ref.iz
  }

  function Extent(g: Layout, axis: nat): int {
    if axis == 0 then g.nx else if axis == 1 then g.ny else g.nz
  }

  /** Whether the neighbour's coordinate stays on the grid. */
  predicate OnGrid(g: Layout, ref: BoundaryRef, axis: nat, dir: nat) {
    var c := if dir == 0 then Coordinate(ref, axis) - 1 else Coordinate(ref, axis) + 1;
    0 <= c < Extent(g, axis)
  }

  predicate Active(g: Layout, i: int) {
    0 <= i < |g.class_| && !g.class_[i].Exterior?
  }

  /** All six neighbours of an interior node are active. */
  ghost predicate InteriorOk(g: Layout, i: nat) {
    && i < |g.class_| && g.class_[i].Interior?
    && (forall a: nat, d: nat | a < 3 && d < 2 :: Active(g, i + Delta(g, a, d)))
  }

  /** A boundary fraction is 0 exactly where the neighbour is active, and in (0, 1] elsewhere. */
  ghost predicate BoundaryOk(g: Layout, ref: BoundaryRef) {
    && ref.idx < |g.class_| && g.class_[ref.idx].Boundary? && |ref.info.frac| == 6
    && (forall a: nat, d: nat | a < 3 && d < 2 :: FractionOk(g, ref, a, d))
  }

  ghost predicate FractionOk(g: Layout, ref: BoundaryRef, a: nat, d: nat)
    requires |ref.info.frac| == 6 && a < 3 && d < 2
  {
    var f := ref.info.frac[2 * a + d];
    && 0.0 <= f <= 1.0
    && (f == 0.0 <==> OnGrid(g, ref, a, d) && Active(g, ref.idx + Delta(g, a, d)))
  }

  /** The node lists name every active node once, with correct neighbourhood data. */
  ghost predicate ValidLayout(g: Layout) {
    && g.h > 0.0 && |g.class_| == Size(g)
    && (forall k | 0 <= k < |g.interiorIdx| :: InteriorOk(g, g.interiorIdx[k]))
    && (forall k | 0 <= k < |g.boundaryIdx| :: BoundaryOk(g, g.boundaryIdx[k]))
    && NoRepeats(g.interiorIdx)
    && (forall j, k | 0 <= j < k < |g.boundaryIdx| :: g.boundaryIdx[j].idx != g.boundaryIdx[k].idx)
    && (forall i | 0 <= i < |g.class_| && g.class_[i].Interior? :: i in g.interiorIdx)
    && (forall i | 0 <= i < |g.class_| && g.class_[i].Boundary? :: exists k :: RefAt(g, k, i))
  }

  ghost predicate RefAt(g: Layout, k: nat, i: nat) {
    k < |g.boundaryIdx| && g.boundaryIdx[k].idx == i
  }

  // ---------- Compressed storage ----------

  function ActiveCount(g: Layout): nat {
    |g.interiorIdx| + |g.boundaryIdx|
  }

  /** The active node stored in slot `s`: interior nodes first, then boundary nodes. */
  function NodeInSlot(g: Layout, s: nat): nat
    requires s < ActiveCount(g)
  {
    if s < |g.interiorIdx| then g.interiorIdx[s] else g.boundaryIdx[s - |g.interiorIdx|].idx
  }

  /** `map_` sends the active nodes one-to-one onto the slots and marks every other node -1. */
  ghost predicate CompactOk(g: Layout, map_: seq<int>) {
    && |map_| == |g.class_|
    && (forall i | 0 <= i < |map_| :: if Active(g, i) then 0 <= map_[i] < ActiveCount(g) else map_[i] == -1)
    && (forall s: nat | s < ActiveCount(g) :: NodeInSlot(g, s) < |map_| && map_[NodeInSlot(g, s)] == s)
    && (forall i | 0 <= i < |map_| && Active(g, i) :: NodeInSlot(g, map_[i]) == i)
  }

  lemma SlotsAreDistinct(g: Layout, s: nat, t: nat)
    requires ValidLayout(g) && s < t < ActiveCount(g)
    ensures NodeInSlot(g, s) != NodeInSlot(g, t)
    ensures Active(g, NodeInSlot(g, s)) && Active(g, NodeInSlot(g, t))
  {
    if s < |g.interiorIdx| {
      assert InteriorOk(g, g.interiorIdx[s]);
    } else {
      assert BoundaryOk(g, g.boundaryIdx[s - |g.interiorIdx|]);
    }
    if t < |g.interiorIdx| {
      assert InteriorOk(g, g.interiorIdx[t]);
    } else {
      assert BoundaryOk(g, g.boundaryIdx[t - |g.interiorIdx|]);
    }
  }

  lemma NodeHasSlot(g: Layout, i: nat)
    requires ValidLayout(g) && Active(g, i)
    ensures exists s: nat :: s < ActiveCount(g) && NodeInSlot(g, s) == i
  {
    if g.class_[i].Interior? {
      var s :| 0 <= s < |g.interiorIdx| && g.interiorIdx[s] == i;
      assert NodeInSlot(g, s) == i;
    } else {
      var k: nat :| RefAt(g, k, i);
      assert NodeInSlot(g, k + |g.interiorIdx|) == i;
    }
  }

  /** Fills the compact map slot by slot. */
  method BuildCompactMap(g: Layout) returns (map_: seq<int>)
    requires ValidLayout(g)
    ensures CompactOk(g, map_)
  {
    map_ := seq(|g.class_|, _ => -1);
    for s := 0 to ActiveCount(g)
      invariant |map_| == |g.class_|
      invariant forall t: nat | t < s :: NodeInSlot(g, t) < |map_| && map_[NodeInSlot(g, t)] == t
      invariant forall i | 0 <= i < |map_| :: map_[i] == -1 || (0 <= map_[i] < s && NodeInSlot(g, map_[i]) == i)
    {
      forall t: nat | t < ActiveCount(g) && t != s
        ensures NodeInSlot(g, t) != NodeInSlot(g, s) && Active(g, NodeInSlot(g, t))
      {
        if t < s {
          SlotsAreDistinct(g, t, s);
        } else {
          SlotsAreDistinct(g, s, t);
        }
      }
      SlotIsActive(g, s);
      map_ := map_[NodeInSlot(g, s) := s];
    }
    forall i: nat | i < |map_|
      ensures if Active(g, i) then 0 <= map_[i] < ActiveCount(g) && NodeInSlot(g, map_[i]) == i else map_[i] == -1
    {
      if Active(g, i) {
        NodeHasSlot(g, i);
      } else if map_[i] != -1 {
        SlotIsActive(g, map_[i]);
      }
    }
  }

  lemma SlotIsActive(g: Layout, s: nat)
    requires ValidLayout(g) && s < ActiveCount(g)
    ensures Active(g, NodeInSlot(g, s))
  {
    if s < |g.interiorIdx| {
      assert InteriorOk(g, g.interiorIdx[s]);
    } else {
      assert BoundaryOk(g, g.boundaryIdx[s - |g.interiorIdx|]);
    }
  }

  /** There are as many slots as active nodes. */
  lemma SlotsAreCounted(g: Layout)
    requires ValidLayout(g)
    ensures |set i: nat | i < |g.class_| && !g.class_[i].Exterior?| == ActiveCount(g)
  {
    hide ValidLayout;
    var nodes := seq(ActiveCount(g), s requires 0 <= s < ActiveCount(g) => NodeInSlot(g, s));
    forall s, t | 0 <= s < t < |nodes|
      ensures nodes[s] != nodes[t]
    {
      SlotsAreDistinct(g, s, t);
    }
    ElementCount(nodes);
    var active := set i: nat | i < |g.class_| && !g.class_[i].Exterior?;
    forall i: nat
      ensures i in Elements(nodes) <==> i in active
    {
      if i in nodes {
        var s :| 0 <= s < |nodes| && nodes[s] == i;
        SlotIsActive(g, s);
      }
      if i in active {
        NodeHasSlot(g, i);
        var s: nat :| s < ActiveCount(g) && NodeInSlot(g, s) == i;
        assert nodes[s] == i;
      }
    }
    assert Elements(nodes) == active;
  }

  class Grid {
    const layout: Layout
    var compressed: bool
    var compactMap: seq<int>

    ghost predicate Valid()
      reads this
    {
      ValidLayout(layout) && (compressed ==> CompactOk(layout, compactMap))
    }

    constructor (layout: Layout)
      requires ValidLayout(layout)
      ensures Valid() && !compressed && this.layout == layout
    {
      this.layout, compressed, compactMap := layout, false, [];
    }

    /** Switches to compressed storage; a second call changes nothing. */
    method EnableCompression()
      requires Valid()
      modifies this
      ensures Valid() && compressed
      ensures old(compressed) ==> compactMap == old(compactMap)
    {
      if compressed {
        return;
      }
      compactMap := BuildCompactMap(layout);
      compressed := true;
    }

    /** The length of a pressure field: all nodes, or the active ones. */
    function FieldSize(): (n: nat)
      requires Valid()
      reads this
      ensures n == if compressed then |set i: nat | i < |layout.class_| && !layout.class_[i].Exterior?| else |layout.class_|
    {
      SlotsAreCounted(layout);
      if compressed then ActiveCount(layout) else Size(layout)
    }
  }
}
