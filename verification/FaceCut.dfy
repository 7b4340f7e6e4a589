/** Cutting rectangular holes out of a rectangular face (geometry/face_cut.go, geometry/plane_frame.go),
    in the face's own plane. */
module FaceCut {
  import opened Sorting
  import opened Wrappers

  datatype Vec2 = Vec2(u: real, v: real)

  datatype Rect2 = Rect2(uMin: real, vMin: real, uMax: real, vMax: real) {
    predicate Valid(eps: real) {
      uMax - uMin > eps && vMax - vMin > eps
    }

    predicate Contains(other: Rect2, eps: real) {
      other.uMin >= uMin - eps && other.uMax <= uMax + eps && other.vMin >= vMin - eps && other.vMax <= vMax + eps
    }

    predicate Overlaps(other: Rect2, eps: real) {
      && Min(uMax, other.uMax) - Max(uMin, other.uMin) > eps
      && Min(vMax, other.vMax) - Max(vMin, other.vMin) > eps
    }

    predicate ContainsPoint(p: Vec2, eps: real) {
      p.u >= uMin - eps && p.u <= uMax + eps && p.v >= vMin - eps && p.v <= vMax + eps
    }

    function Area(): real {
      (uMax - uMin) * (vMax - vMin)
    }
  }

  function Min(a: real, b: real): real {
    if a < b then a else b
  }

  function Max(a: real, b: real): real {
    if a > b then a else b
  }

  // ---------- What the tests mean ----------

  /** The point is in the rectangle, outline included. */
  ghost predicate Holds(r: Rect2, p: Vec2) {
    r.uMin <= p.u <= r.uMax && r.vMin <= p.v <= r.vMax
  }

  ghost predicate CloseTo(p: Vec2, q: Vec2, eps: real) {
    -eps <= p.u - q.u <= eps && -eps <= p.v - q.v <= eps
  }

  ghost predicate Nearby(r: Rect2, p: Vec2, eps: real) {
    exists q :: Holds(r, q) && CloseTo(p, q, eps)
  }

  /** A point passes the test if and only if some point of the rectangle is within the tolerance. */
  lemma ContainsPointIsNearby(r: Rect2, p: Vec2, eps: real)
    requires eps >= 0.0 && r.uMin <= r.uMax && r.vMin <= r.vMax
    ensures r.ContainsPoint(p, eps) <==> Nearby(r, p, eps)
  {
    var q := Vec2(Min(Max(p.u, r.uMin), r.uMax), Min(Max(p.v, r.vMin), r.vMax));
    if r.ContainsPoint(p, eps) {
      assert Holds(r, q) && CloseTo(p, q, eps);
    }
  }

  /** A rectangle passes the test if and only if all its points are within the tolerance of the other. */
  lemma ContainsIsNearby(r: Rect2, other: Rect2, eps: real)
    requires eps >= 0.0 && r.uMin <= r.uMax && r.vMin <= r.vMax && other.uMin <= other.uMax && other.vMin <= other.vMax
    ensures r.Contains(other, eps) <==> forall p | Holds(other, p) :: Nearby(r, p, eps)
  {
    if r.Contains(other, eps) {
      forall p | Holds(other, p)
        ensures Nearby(r, p, eps)
      {
        ContainsPointIsNearby(r, p, eps);
      }
    }
    if forall p | Holds(other, p) :: Nearby(r, p, eps) {
      var low, high := Vec2(other.uMin, other.vMin), Vec2(other.uMax, other.vMax);
      assert Holds(other, low) && Holds(other, high);
      ContainsPointIsNearby(r, low, eps);
      ContainsPointIsNearby(r, high, eps);
    }
  }

  ghost predicate Shares(a: Rect2, b: Rect2, r: Rect2, eps: real) {
    && r.uMax - r.uMin > eps && r.vMax - r.vMin > eps
    && Holds(a, Vec2(r.uMin, r.vMin)) && Holds(a, Vec2(r.uMax, r.vMax)) && Holds(b, Vec2(r.uMin, r.vMin)) && Holds(b, Vec2(r.uMax, r.vMax))
  }

  /** Two rectangles overlap if and only if some rectangle wider and higher than the tolerance is in both. */
  lemma OverlapIsShared(a: Rect2, b: Rect2, eps: real)
    requires eps >= 0.0
    ensures a.Overlaps(b, eps) <==> exists r :: Shares(a, b, r, eps)
  {
    var r := Rect2(Max(a.uMin, b.uMin), Max(a.vMin, b.vMin), Min(a.uMax, b.uMax), Min(a.vMax, b.vMax));
    if a.Overlaps(b, eps) {
      assert Shares(a, b, r, eps);
    }
  }

  // ---------- Cut lines along one axis ----------

  datatype Span = Span(lo: real, hi: real)

  ghost predicate NearIsEqual(x: real, y: real, eps: real) {
    x == y || x - y > eps || y - x > eps
  }

  ghost predicate ListsBound(spans: seq<Span>, x: real) {
    exists k :: 0 <= k < |spans| && (x == spans[k].lo || x == spans[k].hi)
  }

  /** Bounds along an axis are equal or more than the tolerance apart. */
  ghost predicate Separated(spans: seq<Span>, eps: real) {
    forall x, y | ListsBound(spans, x) && ListsBound(spans, y) :: NearIsEqual(x, y, eps)
  }

  ghost predicate Ascending(cuts: seq<real>) {
    forall i, j | 0 <= i < j < |cuts| :: cuts[i] < cuts[j]
  }

  /** The cut lines of an axis: strictly ascending, from one face bound to the other, through every
      bound of every hole. */
  ghost predicate CutsThrough(cuts: seq<real>, face: Span, holes: seq<Span>, eps: real) {
    && |cuts| >= 2 && Ascending(cuts) && cuts[0] == face.lo && cuts[|cuts| - 1] == face.hi
    && (forall k | 0 <= k < |holes| :: holes[k].lo in cuts && holes[k].hi in cuts)
    && Spaced(cuts, eps)
  }

  function Clamped(face: Span, holes: seq<Span>): (r: seq<real>)
    ensures |r| == 2 * |holes|
  {
    if holes == [] then []
    else
      var h := holes[|holes| - 1];
      Clamped(face, holes[..|holes| - 1]) + [Min(Max(h.lo, face.lo), face.hi), Min(Max(h.hi, face.lo), face.hi)]
  }

  ghost predicate Within(face: Span, holes: seq<Span>) {
    forall k | 0 <= k < |holes| :: face.lo <= holes[k].lo <= holes[k].hi <= face.hi
  }

  lemma {:induction false} ClampedBounds(face: Span, holes: seq<Span>, x: real)
    requires Within(face, holes)
    ensures x in Clamped(face, holes) <==> ListsBound(holes, x)
    decreases |holes|
  {
    if holes != [] {
      var n := |holes| - 1;
      ClampedBounds(face, holes[..n], x);
      BoundOfLast(holes, x);
      hide ListsBound;
    }
  }

  lemma BoundOfLast(spans: seq<Span>, x: real)
    requires spans != []
    ensures ListsBound(spans, x) <==>
              ListsBound(spans[..|spans| - 1], x) || x == spans[|spans| - 1].lo || x == spans[|spans| - 1].hi
  {
    var n := |spans| - 1;
    if ListsBound(spans[..n], x) {
      var k :| 0 <= k < n && (x == spans[..n][k].lo || x == spans[..n][k].hi);
      assert x == spans[k].lo || x == spans[k].hi;
    }
    if ListsBound(spans, x) {
      var k :| 0 <= k < |spans| && (x == spans[k].lo || x == spans[k].hi);
      assert k < n ==> spans[..n][k] == spans[k];
    }
  }

  predicate NotAbove(a: real, b: real) {
    a <= b
  }

  ghost predicate AllNear(sorted: seq<real>, eps: real) {
    forall i, j | 0 <= i < j < |sorted| :: NearIsEqual(sorted[i], sorted[j], eps)
  }

  ghost predicate Spaced(cuts: seq<real>, eps: real) {
    forall i | 0 <= i < |cuts| - 1 :: cuts[i + 1] - cuts[i] > eps
  }

  lemma NextValue(sorted: seq<real>, eps: real, n: nat)
    requires SortedBy(NotAbove, sorted) && 0 < n < |sorted|
    ensures AllNear(sorted, eps) ==> sorted[n] == sorted[n - 1] || sorted[n] - sorted[n - 1] > eps
  {
    assert NotAbove(sorted[n - 1], sorted[n]);
    assert AllNear(sorted, eps) ==> NearIsEqual(sorted[n - 1], sorted[n], eps);
  }

  /** Drops values too near to the last one kept. If values are equal or far apart, only repetitions go. */
  method Deduplicate(sorted: seq<real>, eps: real) returns (unique: seq<real>)
    requires sorted != [] && eps >= 0.0 && SortedBy(NotAbove, sorted)
    ensures unique != [] && Ascending(unique) && Spaced(unique, eps) && unique[0] == sorted[0]
    ensures AllNear(sorted, eps) ==> (forall x :: x in unique <==> x in sorted) && unique[|unique| - 1] == sorted[|sorted| - 1]
  {
    hide SortedBy, AllNear;
    unique := [sorted[0]];
    for n := 1 to |sorted|
      invariant unique != [] && Ascending(unique) && Spaced(unique, eps) && unique[0] == sorted[0]
      invariant AllNear(sorted, eps) ==> unique[|unique| - 1] == sorted[n - 1] && forall k | 0 <= k < n :: sorted[k] in unique
      invariant forall x | x in unique :: x in sorted
    {
      NextValue(sorted, eps, n);
      if sorted[n] - unique[|unique| - 1] > eps {
        unique := unique + [sorted[n]];
      }
    }
  }

  lemma ValueIsBound(face: Span, holes: seq<Span>, values: seq<real>, x: real)
    requires face.lo <= face.hi && Within(face, holes) && values == [face.lo, face.hi] + Clamped(face, holes) && x in values
    ensures ListsBound([face] + holes, x) && face.lo <= x <= face.hi
  {
    var all := [face] + holes;
    hide Clamped;
    if x == face.lo || x == face.hi {
      assert all[0] == face;
    } else {
      ClampedBounds(face, holes, x);
      var k :| 0 <= k < |holes| && (x == holes[k].lo || x == holes[k].hi);
      assert all[k + 1] == holes[k];
    }
  }

  lemma ValuesAreBounds(face: Span, holes: seq<Span>, values: seq<real>)
    requires face.lo <= face.hi && Within(face, holes) && values == [face.lo, face.hi] + Clamped(face, holes)
    ensures forall x | x in values :: ListsBound([face] + holes, x) && face.lo <= x <= face.hi
    ensures forall k | 0 <= k < |holes| :: holes[k].lo in values && holes[k].hi in values
  {
    hide Clamped, Within;
    forall x | x in values
      ensures ListsBound([face] + holes, x) && face.lo <= x <= face.hi
    {
      ValueIsBound(face, holes, values, x);
    }
    forall k | 0 <= k < |holes|
      ensures holes[k].lo in values && holes[k].hi in values
    {
      assert ListsBound(holes, holes[k].lo) && ListsBound(holes, holes[k].hi);
      ClampedBounds(face, holes, holes[k].lo);
      ClampedBounds(face, holes, holes[k].hi);
    }
  }

  lemma SortedEnds(values: seq<real>, sorted: seq<real>, face: Span)
    requires sorted == SortBy(NotAbove, values) && face.lo in values && face.hi in values
    requires forall x | x in values :: face.lo <= x <= face.hi
    ensures sorted != [] && SortedBy(NotAbove, sorted) && sorted[0] == face.lo && sorted[|sorted| - 1] == face.hi
    ensures forall x :: x in sorted <==> x in values
  {
    hide SortBy, TotalPreorder;
    NumbersAreOrdered();
    SortByIsSorted(NotAbove, values);
    SameElements(sorted, values);
    hide SortedBy;
    LowestFirst(sorted, face);
  }

  lemma LowestFirst(sorted: seq<real>, face: Span)
    requires SortedBy(NotAbove, sorted) && face.lo in sorted && face.hi in sorted
    requires forall x | x in sorted :: face.lo <= x <= face.hi
    ensures sorted != [] && sorted[0] == face.lo && sorted[|sorted| - 1] == face.hi
  {
    var i :| 0 <= i < |sorted| && sorted[i] == face.lo;
    var j :| 0 <= j < |sorted| && sorted[j] == face.hi;
    assert i == 0 || NotAbove(sorted[0], sorted[i]);
    assert j == |sorted| - 1 || NotAbove(sorted[j], sorted[|sorted| - 1]);
    assert sorted[0] in sorted && sorted[|sorted| - 1] in sorted;
  }

  method CollectBounds(face: Span, holes: seq<Span>) returns (values: seq<real>)
    ensures values == [face.lo, face.hi] + Clamped(face, holes)
  {
    values := [face.lo, face.hi];
    for k := 0 to |holes|
      invariant values == [face.lo, face.hi] + Clamped(face, holes[..k])
    {
      assert holes[..k + 1][..k] == holes[..k];
      values := values + [Min(Max(holes[k].lo, face.lo), face.hi), Min(Max(holes[k].hi, face.lo), face.hi)];
    }
    assert holes[..|holes|] == holes;
  }

  lemma SortedAreNear(all: seq<Span>, sorted: seq<real>, eps: real)
    requires Separated(all, eps) && forall x | x in sorted :: ListsBound(all, x)
    ensures AllNear(sorted, eps)
  {
    hide ListsBound, NearIsEqual;
    forall i, j | 0 <= i < j < |sorted|
      ensures NearIsEqual(sorted[i], sorted[j], eps)
    {
      assert sorted[i] in sorted && sorted[j] in sorted;
    }
  }

  /** Collects, sorts and deduplicates the grid lines of one axis: exactly the bounds of the face and
      of the holes, if they are separated. */
  method CutLines(face: Span, holes: seq<Span>, eps: real) returns (cuts: seq<real>)
    requires eps >= 0.0 && face.hi - face.lo > eps
    ensures cuts != [] && Ascending(cuts) && Spaced(cuts, eps)
    ensures Within(face, holes) && Separated([face] + holes, eps) ==> CutsThrough(cuts, face, holes, eps)
    ensures Within(face, holes) && Separated([face] + holes, eps) ==> forall x :: x in cuts <==> ListsBound([face] + holes, x)
  {
    hide Clamped, Within, SortBy, Separated, SortedBy, NearIsEqual, ListsBound, AllNear, TotalPreorder;
    var values := CollectBounds(face, holes);
    assert values[0] == face.lo && values[1] == face.hi;
    var sorted := SortBy(NotAbove, values);
    NumbersAreOrdered();
    SortByIsSorted(NotAbove, values);
    cuts := Deduplicate(sorted, eps);
    if Within(face, holes) && Separated([face] + holes, eps) {
      ValuesAreBounds(face, holes, values);
      SortedEnds(values, sorted, face);
      SortedAreNear([face] + holes, sorted, eps);
      assert |cuts| >= 2;
      forall x
        ensures x in cuts <==> ListsBound([face] + holes, x)
      {
        if ListsBound([face] + holes, x) {
          BoundIsValue(face, holes, values, x);
        }
      }
    }
  }

  lemma BoundIsValue(face: Span, holes: seq<Span>, values: seq<real>, x: real)
    requires Within(face, holes) && values == [face.lo, face.hi] + Clamped(face, holes) && ListsBound([face] + holes, x)
    ensures x in values
  {
    hide Clamped;
    var all := [face] + holes;
    var k :| 0 <= k < |all| && (x == all[k].lo || x == all[k].hi);
    if k == 0 {
      assert values[0] == face.lo && values[1] == face.hi;
    } else {
      assert all[k] == holes[k - 1] && ListsBound(holes, x);
      ClampedBounds(face, holes, x);
    }
  }

  lemma NumbersAreOrdered()
    ensures TotalPreorder(NotAbove)
  {
  }

  // ---------- Grid cells ----------

  function USpan(r: Rect2): Span {
    Span(r.uMin, r.uMax)
  }

  function VSpan(r: Rect2): Span {
    Span(r.vMin, r.vMax)
  }

  function Spans(rects: seq<Rect2>, along: Rect2 -> Span): (r: seq<Span>)
    ensures |r| == |rects| && forall k | 0 <= k < |r| :: r[k] == along(rects[k])
  {
    seq(|rects|, k requires 0 <= k < |rects| => along(rects[k]))
  }

  /** The midpoint of a grid interval lies in the span. */
  predicate MidIn(cuts: seq<real>, i: nat, s: Span)
    requires i + 1 < |cuts|
  {
    s.lo <= (cuts[i] + cuts[i + 1]) * 0.5 <= s.hi
  }

  /** With its bounds among the cuts, a span holds a grid interval whole or not at all. */
  lemma MidDecides(cuts: seq<real>, i: nat, s: Span, x: real)
    requires i + 1 < |cuts| && Ascending(cuts) && s.lo in cuts && s.hi in cuts && cuts[i] < x < cuts[i + 1]
    ensures MidIn(cuts, i, s) <==> s.lo <= x <= s.hi
    ensures MidIn(cuts, i, s) <==> s.lo <= cuts[i] && cuts[i + 1] <= s.hi
  {
    var a :| 0 <= a < |cuts| && cuts[a] == s.lo;
    var b :| 0 <= b < |cuts| && cuts[b] == s.hi;
    assert a <= i ==> cuts[a] <= cuts[i];
    assert a > i ==> cuts[a] >= cuts[i + 1];
    assert b <= i ==> cuts[b] <= cuts[i];
    assert b > i ==> cuts[b] >= cuts[i + 1];
  }

  function Cell(us: seq<real>, vs: seq<real>, i: nat, j: nat): Rect2
    requires i + 1 < |us| && j + 1 < |vs|
  {
    Rect2(us[i], vs[j], us[i + 1], vs[j + 1])
  }

  predicate CenterIn(cell: Rect2, hole: Rect2) {
    hole.ContainsPoint(Vec2((cell.uMin + cell.uMax) * 0.5, (cell.vMin + cell.vMax) * 0.5), 0.0)
  }

  ghost predicate InsideSome(cell: Rect2, holes: seq<Rect2>) {
    exists k :: 0 <= k < |holes| && CenterIn(cell, holes[k])
  }

  method CellIsInsideAnyHole(cell: Rect2, holes: seq<Rect2>) returns (r: bool)
    ensures r <==> InsideSome(cell, holes)
  {
    for k := 0 to |holes|
      invariant forall j | 0 <= j < k :: !CenterIn(cell, holes[j])
    {
      if CenterIn(cell, holes[k]) {
        return true;
      }
    }
    return false;
  }

  // ---------- What is checked of the holes ----------

  ghost predicate HolesOk(face: Rect2, holes: seq<Rect2>, eps: real) {
    && (forall k | 0 <= k < |holes| :: holes[k].Valid(eps) && face.Contains(holes[k], eps))
    && (forall j, k | 0 <= j < k < |holes| :: !holes[j].Overlaps(holes[k], eps))
  }

  method ValidateHoles(face: Rect2, holes: seq<Rect2>, eps: real) returns (ok: bool)
    ensures ok <==> HolesOk(face, holes, eps)
  {
    for n := 0 to |holes|
      invariant forall k | 0 <= k < n :: holes[k].Valid(eps) && face.Contains(holes[k], eps)
      invariant forall j, k | 0 <= j < n && j < k < |holes| :: !holes[j].Overlaps(holes[k], eps)
    {
      if !holes[n].Valid(eps) || !face.Contains(holes[n], eps) {
        return false;
      }
      for m := n + 1 to |holes|
        invariant forall k | n < k < m :: !holes[n].Overlaps(holes[k], eps)
      {
        if holes[n].Overlaps(holes[m], eps) {
          return false;
        }
      }
    }
    return true;
  }

  /** Along both axes the bounds are equal or more than the tolerance apart. */
  ghost predicate WellSpaced(face: Rect2, holes: seq<Rect2>, eps: real) {
    Separated([USpan(face)] + Spans(holes, USpan), eps) && Separated([VSpan(face)] + Spans(holes, VSpan), eps)
  }

  lemma BoundsAreNear(spans: seq<Span>, eps: real, j: nat, k: nat)
    requires Separated(spans, eps) && j < |spans| && k < |spans|
    ensures NearIsEqual(spans[j].lo, spans[k].lo, eps) && NearIsEqual(spans[j].lo, spans[k].hi, eps)
    ensures NearIsEqual(spans[j].hi, spans[k].lo, eps) && NearIsEqual(spans[j].hi, spans[k].hi, eps)
  {
    assert ListsBound(spans, spans[j].lo) && ListsBound(spans, spans[j].hi) && ListsBound(spans, spans[k].lo) && ListsBound(spans, spans[k].hi);
  }

  /** Well spaced holes that pass the tolerant checks lie exactly within the face. */
  lemma HolesLieWithin(face: Rect2, holes: seq<Rect2>, eps: real)
    requires eps >= 0.0 && HolesOk(face, holes, eps) && WellSpaced(face, holes, eps)
    ensures Within(USpan(face), Spans(holes, USpan)) && Within(VSpan(face), Spans(holes, VSpan))
  {
    hide Separated;
    forall k | 0 <= k < |holes|
      ensures face.uMin <= holes[k].uMin <= holes[k].uMax <= face.uMax && face.vMin <= holes[k].vMin <= holes[k].vMax <= face.vMax
    {
      assert holes[k].Valid(eps) && face.Contains(holes[k], eps);
      BoundsAreNear([USpan(face)] + Spans(holes, USpan), eps, 0, k + 1);
      BoundsAreNear([VSpan(face)] + Spans(holes, VSpan), eps, 0, k + 1);
    }
  }

  /** Their interiors do not meet: along one axis one ends where, or before, the other begins. */
  lemma HolesAreDisjoint(face: Rect2, holes: seq<Rect2>, eps: real, j: nat, k: nat)
    requires eps >= 0.0 && HolesOk(face, holes, eps) && WellSpaced(face, holes, eps) && j < k < |holes|
    ensures || Min(holes[j].uMax, holes[k].uMax) <= Max(holes[j].uMin, holes[k].uMin)
            || Min(holes[j].vMax, holes[k].vMax) <= Max(holes[j].vMin, holes[k].vMin)
  {
    hide NearIsEqual, Min, Max, Separated;
    assert !holes[j].Overlaps(holes[k], eps) && holes[j].Valid(eps) && holes[k].Valid(eps);
    var us, vs := [USpan(face)] + Spans(holes, USpan), [VSpan(face)] + Spans(holes, VSpan);
    BoundsAreNear(us, eps, j + 1, k + 1);
    BoundsAreNear(vs, eps, j + 1, k + 1);
    AxisDisjoint(us[j + 1], us[k + 1], eps);
    AxisDisjoint(vs[j + 1], vs[k + 1], eps);
  }

  lemma AxisDisjoint(a: Span, b: Span, eps: real)
    requires eps >= 0.0 && NearIsEqual(a.hi, b.lo, eps) && NearIsEqual(a.lo, b.hi, eps) && a.hi - a.lo > eps && b.hi - b.lo > eps
    ensures Min(a.hi, b.hi) - Max(a.lo, b.lo) <= eps ==> Min(a.hi, b.hi) <= Max(a.lo, b.lo)
  {
  }

  // ---------- Emission ----------

  ghost predicate Emits(us: seq<real>, vs: seq<real>, holes: seq<Rect2>, eps: real, i: nat, j: nat)
    requires i + 1 < |us| && j + 1 < |vs|
  {
    Cell(us, vs, i, j).Valid(eps) && !InsideSome(Cell(us, vs, i, j), holes)
  }

  /** The cells emitted for column `i`, below row `m`. */
  ghost function RowCells(us: seq<real>, vs: seq<real>, holes: seq<Rect2>, eps: real, i: nat, m: nat): seq<Rect2>
    requires i + 1 < |us| && m < |vs|
  {
    if m == 0 then []
    else RowCells(us, vs, holes, eps, i, m - 1) + if Emits(us, vs, holes, eps, i, m - 1) then [Cell(us, vs, i, m - 1)] else []
  }

  ghost function GridCells(us: seq<real>, vs: seq<real>, holes: seq<Rect2>, eps: real, n: nat): seq<Rect2>
    requires n < |us| && vs != []
  {
    if n == 0 then [] else GridCells(us, vs, holes, eps, n - 1) + RowCells(us, vs, holes, eps, n - 1, |vs| - 1)
  }

  method EmitCells(us: seq<real>, vs: seq<real>, holes: seq<Rect2>, eps: real) returns (cells: seq<Rect2>)
    requires us != [] && vs != []
    ensures cells == GridCells(us, vs, holes, eps, |us| - 1)
  {
    cells := [];
    for i := 0 to |us| - 1
      invariant cells == GridCells(us, vs, holes, eps, i)
    {
      ghost var before := cells;
      for j := 0 to |vs| - 1
        invariant cells == before + RowCells(us, vs, holes, eps, i, j)
      {
        hide InsideSome;
        var cell := Cell(us, vs, i, j);
        var inside := CellIsInsideAnyHole(cell, holes);
        if cell.Valid(eps) && !inside {
          cells := cells + [cell];
        }
      }
    }
  }

  /** Everything the tiling theorems need of the grid. */
  ghost predicate GridOf(us: seq<real>, vs: seq<real>, face: Rect2, holes: seq<Rect2>, eps: real) {
    CutsThrough(us, USpan(face), Spans(holes, USpan), eps) && CutsThrough(vs, VSpan(face), Spans(holes, VSpan), eps)
  }

  // ---------- Every point is covered once or not at all ----------

  function Count(cells: seq<Rect2>, p: Vec2): nat {
    if cells == [] then 0 else Count(cells[..|cells| - 1], p) + if cells[|cells| - 1].ContainsPoint(p, 0.0) then 1 else 0
  }

  lemma {:induction false} CountOfConcat(a: seq<Rect2>, b: seq<Rect2>, p: Vec2)
    ensures Count(a + b, p) == Count(a, p) + Count(b, p)
    decreases |b|
  {
    if b == [] {
      assert a + b == a;
    } else {
      assert (a + b)[..|a + b| - 1] == a + b[..|b| - 1];
      CountOfConcat(a, b[..|b| - 1], p);
    }
  }

  lemma OnlyOneInterval(cuts: seq<real>, a: nat, i: nat, x: real)
    requires Ascending(cuts) && a + 1 < |cuts| && i + 1 < |cuts| && cuts[a] < x < cuts[a + 1]
    ensures cuts[i] <= x <= cuts[i + 1] <==> i == a
  {
    if i < a {
      assert i + 1 == a || cuts[i + 1] < cuts[a];
    } else if i > a {
      assert a + 1 == i || cuts[a + 1] < cuts[i];
    }
  }

  lemma {:induction false} RowCount(us: seq<real>, vs: seq<real>, holes: seq<Rect2>, eps: real, p: Vec2, a: nat, b: nat, i: nat, m: nat)
    requires Ascending(us) && Ascending(vs) && a + 1 < |us| && b + 1 < |vs| && us[a] < p.u < us[a + 1] && vs[b] < p.v < vs[b + 1]
    requires i + 1 < |us| && m < |vs|
    ensures Count(RowCells(us, vs, holes, eps, i, m), p) == if i == a && b < m && Emits(us, vs, holes, eps, a, b) then 1 else 0
    decreases m
  {
    hide Emits, Ascending;
    if m > 0 {
      RowCount(us, vs, holes, eps, p, a, b, i, m - 1);
      OnlyOneInterval(us, a, i, p.u);
      OnlyOneInterval(vs, b, m - 1, p.v);
      var row := RowCells(us, vs, holes, eps, i, m);
      if Emits(us, vs, holes, eps, i, m - 1) {
        assert row[..|row| - 1] == RowCells(us, vs, holes, eps, i, m - 1);
      } else {
        assert row == RowCells(us, vs, holes, eps, i, m - 1);
      }
    }
  }

  lemma {:induction false} GridCount(us: seq<real>, vs: seq<real>, holes: seq<Rect2>, eps: real, p: Vec2, a: nat, b: nat, n: nat)
    requires Ascending(us) && Ascending(vs) && a + 1 < |us| && b + 1 < |vs| && us[a] < p.u < us[a + 1] && vs[b] < p.v < vs[b + 1]
    requires n < |us|
    ensures Count(GridCells(us, vs, holes, eps, n), p) == if a < n && Emits(us, vs, holes, eps, a, b) then 1 else 0
    decreases n
  {
    hide Emits, Ascending, RowCells;
    if n > 0 {
      GridCount(us, vs, holes, eps, p, a, b, n - 1);
      CountOfConcat(GridCells(us, vs, holes, eps, n - 1), RowCells(us, vs, holes, eps, n - 1, |vs| - 1), p);
      RowCount(us, vs, holes, eps, p, a, b, n - 1, |vs| - 1);
    }
  }

  lemma {:induction false} Bracket(cuts: seq<real>, x: real, n: nat) returns (i: nat)
    requires Ascending(cuts) && 0 < n < |cuts| && cuts[0] < x < cuts[n] && x !in cuts
    ensures i < n && cuts[i] < x < cuts[i + 1]
    decreases n
  {
    if cuts[n - 1] < x {
      i := n - 1;
    } else {
      assert cuts[n - 1] != x;
      i := Bracket(cuts, x, n - 1);
    }
  }

  /** A cell belongs to a hole exactly when any of its inner points does. */
  lemma CellFollowsPoint(us: seq<real>, vs: seq<real>, face: Rect2, holes: seq<Rect2>, eps: real, p: Vec2, a: nat, b: nat)
    requires GridOf(us, vs, face, holes, eps) && a + 1 < |us| && b + 1 < |vs| && us[a] < p.u < us[a + 1] && vs[b] < p.v < vs[b + 1]
    ensures InsideSome(Cell(us, vs, a, b), holes) <==> InHole(holes, p)
  {
    forall k | 0 <= k < |holes|
      ensures CenterIn(Cell(us, vs, a, b), holes[k]) <==> holes[k].ContainsPoint(p, 0.0)
    {
      assert Spans(holes, USpan)[k] == USpan(holes[k]) && Spans(holes, VSpan)[k] == VSpan(holes[k]);
      MidDecides(us, a, USpan(holes[k]), p.u);
      MidDecides(vs, b, VSpan(holes[k]), p.v);
    }
  }

  ghost predicate InHole(holes: seq<Rect2>, p: Vec2) {
    exists k :: 0 <= k < |holes| && holes[k].ContainsPoint(p, 0.0)
  }

  ghost predicate StrictlyIn(r: Rect2, p: Vec2) {
    r.uMin < p.u < r.uMax && r.vMin < p.v < r.vMax
  }

  /** Off the grid lines, the emitted cells cover every point of the face outside the holes once,
      and no other point of the face. */
  lemma CellsTile(us: seq<real>, vs: seq<real>, face: Rect2, holes: seq<Rect2>, eps: real, p: Vec2)
    requires eps >= 0.0 && GridOf(us, vs, face, holes, eps) && StrictlyIn(face, p) && p.u !in us && p.v !in vs
    ensures Count(GridCells(us, vs, holes, eps, |us| - 1), p) == if InHole(holes, p) then 0 else 1
  {
    GridFacts(us, vs, face, holes, eps);
    hide InsideSome, InHole, GridCells, Count, Ascending, GridOf, Spaced;
    var a := Bracket(us, p.u, |us| - 1);
    var b := Bracket(vs, p.v, |vs| - 1);
    GridCount(us, vs, holes, eps, p, a, b, |us| - 1);
    CellFollowsPoint(us, vs, face, holes, eps, p, a, b);
    CellIsValid(us, vs, eps, a, b);
  }

  lemma GridFacts(us: seq<real>, vs: seq<real>, face: Rect2, holes: seq<Rect2>, eps: real)
    requires GridOf(us, vs, face, holes, eps)
    ensures |us| >= 2 && Ascending(us) && Spaced(us, eps) && us[0] == face.uMin && us[|us| - 1] == face.uMax
    ensures |vs| >= 2 && Ascending(vs) && Spaced(vs, eps) && vs[0] == face.vMin && vs[|vs| - 1] == face.vMax
  {
  }

  lemma CellIsValid(us: seq<real>, vs: seq<real>, eps: real, a: nat, b: nat)
    requires Spaced(us, eps) && Spaced(vs, eps) && a + 1 < |us| && b + 1 < |vs|
    ensures Cell(us, vs, a, b).Valid(eps)
  {
    assert us[a + 1] - us[a] > eps && vs[b + 1] - vs[b] > eps;
  }

  /** No emitted cell reaches beyond the face. */
  lemma {:induction false} CellsStayInside(us: seq<real>, vs: seq<real>, face: Rect2, holes: seq<Rect2>, eps: real, n: nat, k: nat)
    requires vs != [] && GridOf(us, vs, face, holes, eps) && n < |us| && k < |GridCells(us, vs, holes, eps, n)|
    ensures face.Contains(GridCells(us, vs, holes, eps, n)[k], 0.0)
    decreases n
  {
    hide GridOf, RowCells, Rect2.Contains;
    var before := GridCells(us, vs, holes, eps, n - 1);
    if k < |before| {
      CellsStayInside(us, vs, face, holes, eps, n - 1, k);
    } else {
      RowStaysInside(us, vs, face, holes, eps, n - 1, |vs| - 1, k - |before|);
    }
  }

  lemma {:induction false} RowStaysInside(us: seq<real>, vs: seq<real>, face: Rect2, holes: seq<Rect2>, eps: real, i: nat, m: nat, k: nat)
    requires GridOf(us, vs, face, holes, eps) && i + 1 < |us| && m < |vs| && k < |RowCells(us, vs, holes, eps, i, m)|
    ensures face.Contains(RowCells(us, vs, holes, eps, i, m)[k], 0.0)
    decreases m
  {
    hide Emits;
    if k < |RowCells(us, vs, holes, eps, i, m - 1)| {
      RowStaysInside(us, vs, face, holes, eps, i, m - 1, k);
    } else {
      InRange(us, i);
      InRange(vs, m - 1);
    }
  }

  lemma InRange(cuts: seq<real>, i: nat)
    requires Ascending(cuts) && i + 1 < |cuts|
    ensures cuts[0] <= cuts[i] && cuts[i + 1] <= cuts[|cuts| - 1]
  {
    assert i == 0 || cuts[0] < cuts[i];
    assert i + 1 == |cuts| - 1 || cuts[i + 1] < cuts[|cuts| - 1];
  }

  // ---------- Areas ----------

  function AreaSum(cells: seq<Rect2>): real {
    if cells == [] then 0.0 else AreaSum(cells[..|cells| - 1]) + cells[|cells| - 1].Area()
  }

  lemma {:induction false} AreaOfConcat(a: seq<Rect2>, b: seq<Rect2>)
    ensures AreaSum(a + b) == AreaSum(a) + AreaSum(b)
    decreases |b|
  {
    hide Rect2.Area;
    if b == [] {
      assert a + b == a;
    } else {
      assert (a + b)[..|a + b| - 1] == a + b[..|b| - 1];
      AreaOfConcat(a, b[..|b| - 1]);
    }
  }

  /** The width of a grid interval if the span holds it, else nothing. */
  function Part(cuts: seq<real>, i: nat, s: Span): real
    requires i + 1 < |cuts|
  {
    if MidIn(cuts, i, s) then cuts[i + 1] - cuts[i] else 0.0
  }

  function Parts(cuts: seq<real>, n: nat, s: Span): real
    requires n < |cuts|
  {
    if n == 0 then 0.0 else Parts(cuts, n - 1, s) + Part(cuts, n - 1, s)
  }

  lemma {:induction false} PartsBelow(cuts: seq<real>, n: nat, s: Span, a: nat, b: nat)
    requires Ascending(cuts) && n < |cuts| && a <= b < |cuts| && cuts[a] == s.lo && cuts[b] == s.hi
    ensures Parts(cuts, n, s) == if n <= a then 0.0 else if n <= b then cuts[n] - cuts[a] else cuts[b] - cuts[a]
    decreases n
  {
    if n > 0 {
      PartsBelow(cuts, n - 1, s, a, b);
      MidDecides(cuts, n - 1, s, (cuts[n - 1] + cuts[n]) * 0.5);
      hide MidIn;
      assert a < n - 1 ==> cuts[a] < cuts[n - 1];
      assert n - 1 < a ==> cuts[n - 1] < cuts[a];
      assert n < b ==> cuts[n] < cuts[b];
      assert b < n ==> cuts[b] < cuts[n];
    }
  }

  /** The intervals a span holds add up to its length. */
  lemma PartsAreTheSpan(cuts: seq<real>, s: Span)
    requires Ascending(cuts) && cuts != [] && s.lo in cuts && s.hi in cuts && s.lo <= s.hi
    ensures Parts(cuts, |cuts| - 1, s) == s.hi - s.lo
  {
    var a :| 0 <= a < |cuts| && cuts[a] == s.lo;
    var b :| 0 <= b < |cuts| && cuts[b] == s.hi;
    assert a <= b;
    PartsBelow(cuts, |cuts| - 1, s, a, b);
  }

  /** The part of a grid cell that belongs to a rectangle: all of it or nothing. */
  function Overlay(us: seq<real>, vs: seq<real>, i: nat, j: nat, r: Rect2): real
    requires i + 1 < |us| && j + 1 < |vs|
  {
    Part(us, i, USpan(r)) * Part(vs, j, VSpan(r))
  }

  function OverlayRow(us: seq<real>, vs: seq<real>, i: nat, m: nat, r: Rect2): real
    requires i + 1 < |us| && m < |vs|
  {
    if m == 0 then 0.0 else OverlayRow(us, vs, i, m - 1, r) + Overlay(us, vs, i, m - 1, r)
  }

  function OverlayGrid(us: seq<real>, vs: seq<real>, n: nat, r: Rect2): real
    requires n < |us| && vs != []
  {
    if n == 0 then 0.0 else OverlayGrid(us, vs, n - 1, r) + OverlayRow(us, vs, n - 1, |vs| - 1, r)
  }

  lemma Distribute(x: real, y: real, z: real)
    ensures x * (y + z) == x * y + x * z && (y + z) * x == y * x + z * x
  {
  }

  lemma {:induction false} RowIsProduct(us: seq<real>, vs: seq<real>, i: nat, m: nat, r: Rect2)
    requires i + 1 < |us| && m < |vs|
    ensures OverlayRow(us, vs, i, m, r) == Part(us, i, USpan(r)) * Parts(vs, m, VSpan(r))
    decreases m
  {
    hide Part;
    if m > 0 {
      RowIsProduct(us, vs, i, m - 1, r);
      Distribute(Part(us, i, USpan(r)), Parts(vs, m - 1, VSpan(r)), Part(vs, m - 1, VSpan(r)));
    }
  }

  lemma {:induction false} GridIsProduct(us: seq<real>, vs: seq<real>, n: nat, r: Rect2)
    requires n < |us| && vs != []
    ensures OverlayGrid(us, vs, n, r) == Parts(us, n, USpan(r)) * Parts(vs, |vs| - 1, VSpan(r))
    decreases n
  {
    hide Part, OverlayRow;
    if n > 0 {
      GridIsProduct(us, vs, n - 1, r);
      RowIsProduct(us, vs, n - 1, |vs| - 1, r);
      Distribute(Parts(vs, |vs| - 1, VSpan(r)), Parts(us, n - 1, USpan(r)), Part(us, n - 1, USpan(r)));
    }
  }

  /** The cells of a rectangle whose sides are grid lines add up to its area. */
  lemma RectangleIsItsCells(us: seq<real>, vs: seq<real>, r: Rect2)
    requires us != [] && vs != [] && Ascending(us) && Ascending(vs) && r.uMin <= r.uMax && r.vMin <= r.vMax
    requires r.uMin in us && r.uMax in us && r.vMin in vs && r.vMax in vs
    ensures OverlayGrid(us, vs, |us| - 1, r) == r.Area()
  {
    GridIsProduct(us, vs, |us| - 1, r);
    PartsAreTheSpan(us, USpan(r));
    PartsAreTheSpan(vs, VSpan(r));
    hide Parts, OverlayGrid;
  }

  /** What the holes take of a cell. */
  function Taken(us: seq<real>, vs: seq<real>, i: nat, j: nat, holes: seq<Rect2>): real
    requires i + 1 < |us| && j + 1 < |vs|
  {
    if holes == [] then 0.0 else Taken(us, vs, i, j, holes[..|holes| - 1]) + Overlay(us, vs, i, j, holes[|holes| - 1])
  }

  function TakenRow(us: seq<real>, vs: seq<real>, i: nat, m: nat, holes: seq<Rect2>): real
    requires i + 1 < |us| && m < |vs|
  {
    if m == 0 then 0.0 else TakenRow(us, vs, i, m - 1, holes) + Taken(us, vs, i, m - 1, holes)
  }

  function TakenGrid(us: seq<real>, vs: seq<real>, n: nat, holes: seq<Rect2>): real
    requires n < |us| && vs != []
  {
    if n == 0 then 0.0 else TakenGrid(us, vs, n - 1, holes) + TakenRow(us, vs, n - 1, |vs| - 1, holes)
  }

  lemma {:induction false} TakenRowStep(us: seq<real>, vs: seq<real>, i: nat, m: nat, holes: seq<Rect2>)
    requires i + 1 < |us| && m < |vs| && holes != []
    ensures TakenRow(us, vs, i, m, holes) == TakenRow(us, vs, i, m, holes[..|holes| - 1]) + OverlayRow(us, vs, i, m, holes[|holes| - 1])
    decreases m
  {
    hide Overlay;
    if m > 0 {
      TakenRowStep(us, vs, i, m - 1, holes);
    }
  }

  lemma {:induction false} TakenGridStep(us: seq<real>, vs: seq<real>, n: nat, holes: seq<Rect2>)
    requires n < |us| && vs != [] && holes != []
    ensures TakenGrid(us, vs, n, holes) == TakenGrid(us, vs, n, holes[..|holes| - 1]) + OverlayGrid(us, vs, n, holes[|holes| - 1])
    decreases n
  {
    hide TakenRow, OverlayRow;
    if n > 0 {
      TakenGridStep(us, vs, n - 1, holes);
      TakenRowStep(us, vs, n - 1, |vs| - 1, holes);
    }
  }

  lemma {:induction false} NothingTaken(us: seq<real>, vs: seq<real>, n: nat)
    requires n < |us| && vs != []
    ensures TakenGrid(us, vs, n, []) == 0.0
    decreases n
  {
    if n > 0 {
      NothingTaken(us, vs, n - 1);
      NothingTakenRow(us, vs, n - 1, |vs| - 1);
    }
  }

  lemma {:induction false} NothingTakenRow(us: seq<real>, vs: seq<real>, i: nat, m: nat)
    requires i + 1 < |us| && m < |vs|
    ensures TakenRow(us, vs, i, m, []) == 0.0
    decreases m
  {
    if m > 0 {
      NothingTakenRow(us, vs, i, m - 1);
    }
  }

  ghost predicate OnGrid(us: seq<real>, vs: seq<real>, r: Rect2) {
    r.uMin <= r.uMax && r.vMin <= r.vMax && r.uMin in us && r.uMax in us && r.vMin in vs && r.vMax in vs
  }

  lemma {:induction false} HolesTakeTheirAreas(us: seq<real>, vs: seq<real>, holes: seq<Rect2>)
    requires us != [] && vs != [] && Ascending(us) && Ascending(vs) && forall k | 0 <= k < |holes| :: OnGrid(us, vs, holes[k])
    ensures TakenGrid(us, vs, |us| - 1, holes) == AreaSum(holes)
    decreases |holes|
  {
    hide OverlayGrid, TakenGrid, Rect2.Area;
    if holes == [] {
      NothingTaken(us, vs, |us| - 1);
    } else {
      var n := |holes| - 1;
      HolesTakeTheirAreas(us, vs, holes[..n]);
      TakenGridStep(us, vs, |us| - 1, holes);
      assert OnGrid(us, vs, holes[n]);
      RectangleIsItsCells(us, vs, holes[n]);
    }
  }

  /** Two holes with a common cell overlap. */
  ghost predicate ApartOnGrid(us: seq<real>, vs: seq<real>, holes: seq<Rect2>) {
    forall j, k, a: nat, b: nat | 0 <= j < k < |holes| && a + 1 < |us| && b + 1 < |vs| ::
      !(CenterIn(Cell(us, vs, a, b), holes[j]) && CenterIn(Cell(us, vs, a, b), holes[k]))
  }

  lemma OverlayIsCell(us: seq<real>, vs: seq<real>, i: nat, j: nat, r: Rect2)
    requires i + 1 < |us| && j + 1 < |vs|
    ensures Overlay(us, vs, i, j, r) == if CenterIn(Cell(us, vs, i, j), r) then Cell(us, vs, i, j).Area() else 0.0
  {
    var x, y := Part(us, i, USpan(r)), Part(vs, j, VSpan(r));
    if !CenterIn(Cell(us, vs, i, j), r) {
      assert x == 0.0 || y == 0.0;
      ZeroProduct(x, y);
    }
  }

  lemma ZeroProduct(x: real, y: real)
    requires x == 0.0 || y == 0.0
    ensures x * y == 0.0
  {
  }

  /** At most one hole takes a cell, and then it takes all of it. */
  lemma {:induction false} TakenIsAllOrNothing(us: seq<real>, vs: seq<real>, i: nat, j: nat, holes: seq<Rect2>)
    requires i + 1 < |us| && j + 1 < |vs| && ApartOnGrid(us, vs, holes)
    ensures Taken(us, vs, i, j, holes) == if InsideSome(Cell(us, vs, i, j), holes) then Cell(us, vs, i, j).Area() else 0.0
    decreases |holes|
  {
    if holes != [] {
      var n := |holes| - 1;
      var front, cell := holes[..n], Cell(us, vs, i, j);
      OverlayIsCell(us, vs, i, j, holes[n]);
      hide Overlay, CenterIn, Rect2.Area;
      FrontApart(us, vs, holes);
      TakenIsAllOrNothing(us, vs, i, j, front);
      if InsideSome(cell, front) {
        var k :| 0 <= k < n && CenterIn(cell, front[k]);
        assert CenterIn(cell, holes[k]);
      }
      if InsideSome(cell, holes) && !CenterIn(cell, holes[n]) {
        var k :| 0 <= k < |holes| && CenterIn(cell, holes[k]);
        assert CenterIn(cell, front[k]);
      }
    }
  }

  lemma FrontApart(us: seq<real>, vs: seq<real>, holes: seq<Rect2>)
    requires ApartOnGrid(us, vs, holes) && holes != []
    ensures ApartOnGrid(us, vs, holes[..|holes| - 1])
  {
    hide CenterIn;
  }

  lemma {:induction false} RowArea(us: seq<real>, vs: seq<real>, face: Rect2, holes: seq<Rect2>, eps: real, i: nat, m: nat)
    requires eps >= 0.0 && GridOf(us, vs, face, holes, eps) && ApartOnGrid(us, vs, holes) && i + 1 < |us| && m < |vs|
    ensures AreaSum(RowCells(us, vs, holes, eps, i, m)) == OverlayRow(us, vs, i, m, face) - TakenRow(us, vs, i, m, holes)
    decreases m
  {
    if m > 0 {
      RowArea(us, vs, face, holes, eps, i, m - 1);
      TakenIsAllOrNothing(us, vs, i, m - 1, holes);
      OverlayIsCell(us, vs, i, m - 1, face);
      InRange(us, i);
      InRange(vs, m - 1);
      assert us[i + 1] - us[i] > eps && vs[m - 1 + 1] - vs[m - 1] > eps;
      hide Overlay, Taken, Rect2.Area, InsideSome;
      var row := RowCells(us, vs, holes, eps, i, m);
      if Emits(us, vs, holes, eps, i, m - 1) {
        assert row[..|row| - 1] == RowCells(us, vs, holes, eps, i, m - 1);
      } else {
        assert row == RowCells(us, vs, holes, eps, i, m - 1);
      }
    }
  }

  lemma {:induction false} GridArea(us: seq<real>, vs: seq<real>, face: Rect2, holes: seq<Rect2>, eps: real, n: nat)
    requires eps >= 0.0 && GridOf(us, vs, face, holes, eps) && ApartOnGrid(us, vs, holes) && n < |us|
    ensures AreaSum(GridCells(us, vs, holes, eps, n)) == OverlayGrid(us, vs, n, face) - TakenGrid(us, vs, n, holes)
    decreases n
  {
    hide OverlayRow, TakenRow, RowCells, ApartOnGrid;
    if n > 0 {
      GridArea(us, vs, face, holes, eps, n - 1);
      RowArea(us, vs, face, holes, eps, n - 1, |vs| - 1);
      AreaOfConcat(GridCells(us, vs, holes, eps, n - 1), RowCells(us, vs, holes, eps, n - 1, |vs| - 1));
    }
  }

  lemma DisjointHolesAreApart(us: seq<real>, vs: seq<real>, face: Rect2, holes: seq<Rect2>, eps: real, j: nat, k: nat, a: nat, b: nat)
    requires eps >= 0.0 && GridOf(us, vs, face, holes, eps) && HolesOk(face, holes, eps) && WellSpaced(face, holes, eps)
    requires j < k < |holes| && a + 1 < |us| && b + 1 < |vs|
    ensures !(CenterIn(Cell(us, vs, a, b), holes[j]) && CenterIn(Cell(us, vs, a, b), holes[k]))
  {
    HolesAreDisjoint(face, holes, eps, j, k);
    assert Spans(holes, USpan)[j] == USpan(holes[j]) && Spans(holes, USpan)[k] == USpan(holes[k]);
    assert Spans(holes, VSpan)[j] == VSpan(holes[j]) && Spans(holes, VSpan)[k] == VSpan(holes[k]);
    var mu, mv := (us[a] + us[a + 1]) * 0.5, (vs[b] + vs[b + 1]) * 0.5;
    MidDecides(us, a, USpan(holes[j]), mu);
    MidDecides(us, a, USpan(holes[k]), mu);
    MidDecides(vs, b, VSpan(holes[j]), mv);
    MidDecides(vs, b, VSpan(holes[k]), mv);
  }

  lemma HolesAreApart(us: seq<real>, vs: seq<real>, face: Rect2, holes: seq<Rect2>, eps: real)
    requires eps >= 0.0 && GridOf(us, vs, face, holes, eps) && HolesOk(face, holes, eps) && WellSpaced(face, holes, eps)
    ensures ApartOnGrid(us, vs, holes)
  {
    hide CenterIn, Cell, HolesOk, WellSpaced, GridOf;
    forall j, k, a: nat, b: nat | 0 <= j < k < |holes| && a + 1 < |us| && b + 1 < |vs|
      ensures !(CenterIn(Cell(us, vs, a, b), holes[j]) && CenterIn(Cell(us, vs, a, b), holes[k]))
    {
      DisjointHolesAreApart(us, vs, face, holes, eps, j, k, a, b);
    }
  }

  lemma HolesAreTheirCells(us: seq<real>, vs: seq<real>, face: Rect2, holes: seq<Rect2>, eps: real)
    requires eps >= 0.0 && GridOf(us, vs, face, holes, eps) && HolesOk(face, holes, eps)
    ensures us != [] && vs != [] && TakenGrid(us, vs, |us| - 1, holes) == AreaSum(holes)
  {
    hide TakenGrid, AreaSum;
    forall k | 0 <= k < |holes|
      ensures OnGrid(us, vs, holes[k])
    {
      assert holes[k].Valid(eps);
      assert Spans(holes, USpan)[k] == USpan(holes[k]) && Spans(holes, VSpan)[k] == VSpan(holes[k]);
    }
    HolesTakeTheirAreas(us, vs, holes);
  }

  lemma FaceIsItsCells(us: seq<real>, vs: seq<real>, face: Rect2, holes: seq<Rect2>, eps: real)
    requires eps >= 0.0 && face.Valid(eps) && GridOf(us, vs, face, holes, eps)
    ensures us != [] && vs != [] && OverlayGrid(us, vs, |us| - 1, face) == face.Area()
  {
    hide OverlayGrid, Rect2.Area;
    RectangleIsItsCells(us, vs, face);
  }

  /** The emitted cells have the area of the face minus the areas of the holes. */
  lemma CellAreasAddUp(us: seq<real>, vs: seq<real>, face: Rect2, holes: seq<Rect2>, eps: real)
    requires eps >= 0.0 && face.Valid(eps) && GridOf(us, vs, face, holes, eps) && HolesOk(face, holes, eps) && WellSpaced(face, holes, eps)
    ensures AreaSum(GridCells(us, vs, holes, eps, |us| - 1)) == face.Area() - AreaSum(holes)
  {
    hide WellSpaced, Rect2.Area, Rect2.Valid, OverlayGrid, TakenGrid, GridCells, AreaSum, HolesOk, ApartOnGrid, GridOf;
    FaceIsItsCells(us, vs, face, holes, eps);
    HolesAreTheirCells(us, vs, face, holes, eps);
    HolesAreApart(us, vs, face, holes, eps);
    GridArea(us, vs, face, holes, eps, |us| - 1);
  }

  // ---------- The operation ----------

  ghost predicate Tiles(cells: seq<Rect2>, face: Rect2, holes: seq<Rect2>, us: seq<real>, vs: seq<real>) {
    forall p: Vec2 | StrictlyIn(face, p) && p.u !in us && p.v !in vs :: Count(cells, p) == if InHole(holes, p) then 0 else 1
  }

  /** Cuts the holes out of the face. The cells tile what is left, and their areas add up. */
  method CutRectangularHoles(face: Rect2, holes: seq<Rect2>, eps: real) returns (r: Result<seq<Rect2>>, us: seq<real>, vs: seq<real>)
    requires eps >= 0.0
    ensures r.Ok? <==> face.Valid(eps) && HolesOk(face, holes, eps)
    ensures r.Ok? && WellSpaced(face, holes, eps) ==> Tiles(r.value, face, holes, us, vs) && AreaSum(r.value) == face.Area() - AreaSum(holes)
    ensures r.Ok? && WellSpaced(face, holes, eps) ==> forall k | 0 <= k < |r.value| :: face.Contains(r.value[k], 0.0)
    ensures r.Ok? && WellSpaced(face, holes, eps) ==> GridOf(us, vs, face, holes, eps)
  {
    hide WellSpaced, HolesOk, Within, Rect2.Area, GridCells, Count, InHole;
    if !face.Valid(eps) {
      return Err("face rectangle is degenerate"), [], [];
    }
    var valid := ValidateHoles(face, holes, eps);
    if !valid {
      return Err("holes do not fit"), [], [];
    }
    us := CutLines(USpan(face), Spans(holes, USpan), eps);
    vs := CutLines(VSpan(face), Spans(holes, VSpan), eps);
    var cells := EmitCells(us, vs, holes, eps);
    if WellSpaced(face, holes, eps) {
      GridFits(face, holes, eps, us, vs);
      CellAreasAddUp(us, vs, face, holes, eps);
      forall p: Vec2 | StrictlyIn(face, p) && p.u !in us && p.v !in vs
        ensures Count(cells, p) == if InHole(holes, p) then 0 else 1
      {
        CellsTile(us, vs, face, holes, eps, p);
      }
      forall k | 0 <= k < |cells|
        ensures face.Contains(cells[k], 0.0)
      {
        CellsStayInside(us, vs, face, holes, eps, |us| - 1, k);
      }
    }
    r := Ok(cells);
  }

  lemma GridFits(face: Rect2, holes: seq<Rect2>, eps: real, us: seq<real>, vs: seq<real>)
    requires eps >= 0.0 && HolesOk(face, holes, eps) && WellSpaced(face, holes, eps)
    requires Within(USpan(face), Spans(holes, USpan)) && Separated([USpan(face)] + Spans(holes, USpan), eps)
             ==> CutsThrough(us, USpan(face), Spans(holes, USpan), eps)
    requires Within(VSpan(face), Spans(holes, VSpan)) && Separated([VSpan(face)] + Spans(holes, VSpan), eps)
             ==> CutsThrough(vs, VSpan(face), Spans(holes, VSpan), eps)
    ensures GridOf(us, vs, face, holes, eps)
  {
    HolesLieWithin(face, holes, eps);
  }
}
