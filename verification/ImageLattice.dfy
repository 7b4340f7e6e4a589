/** Image sources of a shoebox room and their reflection paths (ism/image.go, ism/audibility.go). */
module ImageLattice {
  import opened Finite
  import opened ImageAxis
  import opened Sorting
  import V = Vectors

  type Vec3 = V.Vec3

  datatype Orders = Orders(x: int, y: int, z: int) {
    function Axis(i: nat): int {
      if i == 1 then y else if i == 2 then z else x
    }

    function Total(): nat {
      AbsInt(x) + AbsInt(y) + AbsInt(z)
    }
  }

  datatype ImageSource = ImageSource(position: Vec3, order: nat, mask: seq<bool>, orders: Orders, dims: Vec3)

  // ---------- Enumeration ----------

  /** Which of an axis's walls a path of this order meets. */
  function MaskOf(order: int): seq<bool> {
    [order < 0 || order > 1, order > 0 || order < -1]
  }

  function ImageOf(src: Vec3, dims: Vec3, o: Orders): ImageSource {
    ImageSource(V.Vec3(ImageCoordinate(o.x, src.x, dims.x), ImageCoordinate(o.y, src.y, dims.y), ImageCoordinate(o.z, src.z, dims.z)),
                o.Total(), MaskOf(o.x) + MaskOf(o.y) + MaskOf(o.z), o, dims)
  }

  /** The mask of an axis has a wall's bit exactly when its hit count is positive. */
  lemma MaskShowsHits(order: int, negative: nat, positive: nat)
    requires negative + positive == AbsInt(order)
    requires (order >= 0 ==> positive == (order + 1) / 2) && (order <= 0 ==> negative == (1 - order) / 2)
    ensures MaskOf(order) == [negative > 0, positive > 0]
  {
  }

  predicate Before(a: Orders, b: Orders) {
    a.x < b.x || (a.x == b.x && (a.y < b.y || (a.y == b.y && a.z < b.z)))
  }

  ghost predicate InCube(o: Orders, max: nat) {
    -(max as int) <= o.x <= max && -(max as int) <= o.y <= max && -(max as int) <= o.z <= max
  }

  /** The list holds one image for every order triple before `next` that is within the total order. */
  ghost predicate ListsBefore(sources: seq<ImageSource>, src: Vec3, dims: Vec3, max: nat, next: Orders) {
    && (forall k | 0 <= k < |sources| :: sources[k] == ImageOf(src, dims, sources[k].orders) && sources[k].order <= max && Before(sources[k].orders, next))
    && (forall j, k | 0 <= j < k < |sources| :: Before(sources[j].orders, sources[k].orders))
    && (forall o: Orders | InCube(o, max) && o.Total() <= max && Before(o, next) :: ImageOf(src, dims, o) in sources)
  }

  lemma ListNext(sources: seq<ImageSource>, src: Vec3, dims: Vec3, max: nat, o: Orders, sources': seq<ImageSource>)
    requires ListsBefore(sources, src, dims, max, o) && InCube(o, max)
    requires sources' == if o.Total() <= max then sources + [ImageOf(src, dims, o)] else sources
    ensures ListsBefore(sources', src, dims, max, Orders(o.x, o.y, o.z + 1))
  {
    hide ImageCoordinate, MaskOf, AbsInt;
    forall p: Orders | InCube(p, max) && p.Total() <= max && Before(p, Orders(o.x, o.y, o.z + 1))
      ensures ImageOf(src, dims, p) in sources'
    {
      if p == o {
        assert sources'[|sources|] == ImageOf(src, dims, o);
      } else {
        assert Before(p, o);
      }
    }
  }

  lemma RowEnds(sources: seq<ImageSource>, src: Vec3, dims: Vec3, max: nat, x: int, y: int)
    requires ListsBefore(sources, src, dims, max, Orders(x, y, max + 1))
    ensures ListsBefore(sources, src, dims, max, Orders(x, y + 1, -(max as int)))
  {
    hide ImageOf, Orders.Total;
  }

  lemma LayerEnds(sources: seq<ImageSource>, src: Vec3, dims: Vec3, max: nat, x: int)
    requires ListsBefore(sources, src, dims, max, Orders(x, max + 1, -(max as int)))
    ensures ListsBefore(sources, src, dims, max, Orders(x + 1, -(max as int), -(max as int)))
  {
    hide ImageOf, Orders.Total;
  }

  /** Sorted by total order, then by position. */
  predicate NotLater(a: ImageSource, b: ImageSource) {
    if a.order != b.order then a.order < b.order
    else if a.position.x != b.position.x then a.position.x < b.position.x
    else if a.position.y != b.position.y then a.position.y < b.position.y
    else a.position.z <= b.position.z
  }

  /** One image for every order triple within the total order, nearest orders first. */
  ghost predicate IsImageList(sources: seq<ImageSource>, src: Vec3, dims: Vec3, max: nat) {
    && (forall k | 0 <= k < |sources| :: sources[k] == ImageOf(src, dims, sources[k].orders) && sources[k].order <= max)
    && NoRepeats(sources) && (forall o: Orders | o.Total() <= max :: ImageOf(src, dims, o) in sources)
    && SortedBy(NotLater, sources)
  }

  method EnumerateRow(sources0: seq<ImageSource>, src: Vec3, dims: Vec3, max: nat, x: int, y: int) returns (sources: seq<ImageSource>)
    requires ListsBefore(sources0, src, dims, max, Orders(x, y, -(max as int))) && -(max as int) <= x <= max && -(max as int) <= y <= max
    ensures ListsBefore(sources, src, dims, max, Orders(x, y + 1, -(max as int)))
  {
    hide ListsBefore, ImageOf, Orders.Total;
    sources := sources0;
    var z: int := -(max as int);
    while z <= max
      invariant -(max as int) <= z <= max + 1 && ListsBefore(sources, src, dims, max, Orders(x, y, z))
    {
      var o := Orders(x, y, z);
      ghost var before := sources;
      if o.Total() <= max {
        sources := sources + [ImageOf(src, dims, o)];
      }
      ListNext(before, src, dims, max, o, sources);
      z := z + 1;
    }
    RowEnds(sources, src, dims, max, x, y);
  }

  method EnumerateLayer(sources0: seq<ImageSource>, src: Vec3, dims: Vec3, max: nat, x: int) returns (sources: seq<ImageSource>)
    requires ListsBefore(sources0, src, dims, max, Orders(x, -(max as int), -(max as int))) && -(max as int) <= x <= max
    ensures ListsBefore(sources, src, dims, max, Orders(x + 1, -(max as int), -(max as int)))
  {
    hide ListsBefore;
    sources := sources0;
    var y: int := -(max as int);
    while y <= max
      invariant -(max as int) <= y <= max + 1 && ListsBefore(sources, src, dims, max, Orders(x, y, -(max as int)))
    {
      sources := EnumerateRow(sources, src, dims, max, x, y);
      y := y + 1;
    }
    LayerEnds(sources, src, dims, max, x);
  }

  method GenerateImageSources(src: Vec3, dims: Vec3, maxOrder: int) returns (sources: seq<ImageSource>)
    ensures maxOrder < 0 ==> sources == []
    ensures maxOrder >= 0 ==> IsImageList(sources, src, dims, maxOrder)
  {
    hide ListsBefore, IsImageList, SortBy, NotLater;
    if maxOrder < 0 {
      return [];
    }
    var max: nat := maxOrder;
    sources := [];
    var x: int := -(max as int);
    NothingListed(src, dims, max);
    while x <= max
      invariant -(max as int) <= x <= max + 1 && ListsBefore(sources, src, dims, max, Orders(x, -(max as int), -(max as int)))
    {
      sources := EnumerateLayer(sources, src, dims, max, x);
      x := x + 1;
    }
    SortedList(sources, src, dims, max);
    sources := SortBy(NotLater, sources);
  }

  lemma NothingListed(src: Vec3, dims: Vec3, max: nat)
    ensures ListsBefore([], src, dims, max, Orders(-(max as int), -(max as int), -(max as int)))
  {
  }

  lemma WithinCube(o: Orders, max: nat)
    requires o.Total() <= max
    ensures InCube(o, max)
  {
  }

  lemma ImagesAreOrdered()
    ensures TotalPreorder(NotLater)
  {
  }

  lemma ListedAreDistinct(listed: seq<ImageSource>)
    requires forall j, k | 0 <= j < k < |listed| :: Before(listed[j].orders, listed[k].orders)
    ensures NoRepeats(listed)
  {
    forall j, k | 0 <= j < k < |listed|
      ensures listed[j] != listed[k]
    {
      assert Before(listed[j].orders, listed[k].orders);
    }
  }

  lemma SortedList(listed: seq<ImageSource>, src: Vec3, dims: Vec3, max: nat)
    requires ListsBefore(listed, src, dims, max, Orders(max + 1, -(max as int), -(max as int)))
    ensures IsImageList(SortBy(NotLater, listed), src, dims, max)
  {
    var sorted := SortBy(NotLater, listed);
    hide NotLater, SortBy, ImageOf, TotalPreorder, Orders.Total, SortedBy;
    ImagesAreOrdered();
    SortByIsSorted(NotLater, listed);
    SameElements(sorted, listed);
    ListedAreDistinct(listed);
    DistinctPermutation(sorted, listed);
    forall k | 0 <= k < |sorted|
      ensures sorted[k] == ImageOf(src, dims, sorted[k].orders) && sorted[k].order <= max
    {
      assert sorted[k] in listed;
    }
    forall o: Orders | o.Total() <= max
      ensures ImageOf(src, dims, o) in sorted
    {
      WithinCube(o, max);
      assert Before(o, Orders(max + 1, -(max as int), -(max as int)));
    }
  }

  // ---------- Crossings on three axes ----------

  datatype Crossing = Crossing(t: real, wall: nat)

  function AxisOf(img: ImageSource, receiver: Vec3, i: nat): Axis {
    Axis(receiver.Axis(i), img.position.Axis(i), img.dims.Axis(i), img.orders.Axis(i), 2 * i, 2 * i + 1)
  }

  function StepCrossing(a: Axis, step: nat): Crossing
    requires a.image != a.receiver
  {
    Crossing(TimeAt(a, step), WallAt(a, step))
  }

  /** The first `n` crossings of an axis. */
  function AxisCrossings(a: Axis, n: nat): (r: seq<Crossing>)
    requires a.image != a.receiver
    ensures |r| == n && forall k | 0 <= k < n :: r[k] == StepCrossing(a, k)
  {
    if n == 0 then [] else AxisCrossings(a, n - 1) + [StepCrossing(a, n - 1)]
  }

  ghost function CrossingsOf(a: Axis): seq<Crossing> {
    if a.order == 0 || a.image == a.receiver then [] else AxisCrossings(a, AbsInt(a.order))
  }

  method AppendAxisCrossings(events: seq<Crossing>, a: Axis, eps: real) returns (r: seq<Crossing>, ok: bool)
    requires eps >= 0.0
    ensures ok <==> a.order == 0 || Abs(a.image - a.receiver) > eps
    ensures ok ==> r == events + CrossingsOf(a)
  {
    hide TimeAt, WallAt;
    r := events;
    if a.order == 0 {
      return r, true;
    }
    if Abs(a.image - a.receiver) <= eps {
      return [], false;
    }
    for step := 0 to AbsInt(a.order)
      invariant r == events + AxisCrossings(a, step)
    {
      r := r + [StepCrossing(a, step)];
    }
    ok := true;
  }

  ghost function AllCrossings(img: ImageSource, receiver: Vec3): seq<Crossing> {
    CrossingsOf(AxisOf(img, receiver, 0)) + CrossingsOf(AxisOf(img, receiver, 1)) + CrossingsOf(AxisOf(img, receiver, 2))
  }

  method CrossingEvents(img: ImageSource, receiver: Vec3, eps: real) returns (events: seq<Crossing>, ok: bool)
    requires eps >= 0.0
    ensures ok <==> forall i: nat | i < 3 :: Departs(AxisOf(img, receiver, i), eps)
    ensures ok ==> events == AllCrossings(img, receiver)
  {
    hide CrossingsOf;
    events, ok := AppendAxisCrossings([], AxisOf(img, receiver, 0), eps);
    if !ok {
      assert !Departs(AxisOf(img, receiver, 0), eps);
      return [], false;
    }
    events, ok := AppendAxisCrossings(events, AxisOf(img, receiver, 1), eps);
    if !ok {
      assert !Departs(AxisOf(img, receiver, 1), eps);
      return [], false;
    }
    events, ok := AppendAxisCrossings(events, AxisOf(img, receiver, 2), eps);
    if !ok {
      assert !Departs(AxisOf(img, receiver, 2), eps);
      return [], false;
    }
    assert [] + CrossingsOf(AxisOf(img, receiver, 0)) == CrossingsOf(AxisOf(img, receiver, 0));
  }

  predicate Departs(a: Axis, eps: real) {
    a.order == 0 || Abs(a.image - a.receiver) > eps
  }

  // ---------- The path ----------

  datatype ReflectionPoint = ReflectionPoint(point: Vec3, wall: nat)

  predicate Near(p: Vec3, q: Vec3, eps: real) {
    p.Sub(q).Dot(p.Sub(q)) <= eps * eps
  }

  function FoldPoint(p: Vec3, dims: Vec3, eps: real): Vec3
    requires dims.x > 0.0 && dims.y > 0.0 && dims.z > 0.0
  {
    V.Vec3(FoldCoordinate(p.x, dims.x, eps), FoldCoordinate(p.y, dims.y, eps), FoldCoordinate(p.z, dims.z, eps))
  }

  predicate WithinOpen(x: real, dimension: real, eps: real) {
    x > eps && x < dimension - eps
  }

  predicate OnPlane(x: real, dimension: real, wall: nat, eps: real) {
    Abs(x - if wall % 2 == 1 then dimension else 0.0) <= eps
  }

  /** The point is on the wall, away from the wall's edges. */
  predicate PointOnWallInterior(p: Vec3, wall: nat, dims: Vec3, eps: real) {
    && wall < 6
    && forall i | 0 <= i < 3 :: if i == wall / 2 then OnPlane(p.Axis(i), dims.Axis(i), wall, eps) else WithinOpen(p.Axis(i), dims.Axis(i), eps)
  }

  function Unfolded(img: ImageSource, receiver: Vec3, t: real): Vec3 {
    receiver.Add(img.position.Sub(receiver).Scale(t))
  }

  predicate Earlier(a: Crossing, b: Crossing) {
    a.t <= b.t
  }

  ghost predicate NoTies(events: seq<Crossing>) {
    forall i, j | 0 <= i < j < |events| :: events[i].t != events[j].t
  }

  /** The image belongs to a source strictly inside the room, and the receiver is inside too. */
  ghost predicate ProperImage(img: ImageSource, src: Vec3, receiver: Vec3) {
    && img == ImageOf(src, img.dims, img.orders)
    && forall i: nat | i < 3 :: Inside(src.Axis(i), img.dims.Axis(i)) && Inside(receiver.Axis(i), img.dims.Axis(i))
  }

  lemma AxesAreProper(img: ImageSource, src: Vec3, receiver: Vec3, i: nat)
    requires ProperImage(img, src, receiver) && i < 3
    ensures Proper(AxisOf(img, receiver, i), src.Axis(i))
  {
  }

  /** As many crossings as the order says. */
  lemma CrossingCount(img: ImageSource, src: Vec3, receiver: Vec3)
    requires ProperImage(img, src, receiver)
    ensures |AllCrossings(img, receiver)| == img.order
  {
    hide ImageCoordinate, TimeAt, WallAt;
    forall i: nat | i < 3
      ensures |CrossingsOf(AxisOf(img, receiver, i))| == AbsInt(img.orders.Axis(i))
    {
      AxesAreProper(img, src, receiver, i);
      ImageIsBeyond(AxisOf(img, receiver, i), src.Axis(i));
    }
    assert |CrossingsOf(AxisOf(img, receiver, 0))| == AbsInt(img.orders.x);
    assert |CrossingsOf(AxisOf(img, receiver, 1))| == AbsInt(img.orders.y);
    assert |CrossingsOf(AxisOf(img, receiver, 2))| == AbsInt(img.orders.z);
  }

  lemma MemberOf(img: ImageSource, receiver: Vec3, c: Crossing) returns (i: nat, step: nat)
    requires c in AllCrossings(img, receiver)
    ensures i < 3 && step < AbsInt(img.orders.Axis(i))
    ensures AxisOf(img, receiver, i).image != AxisOf(img, receiver, i).receiver && c == StepCrossing(AxisOf(img, receiver, i), step)
  {
    hide TimeAt, WallAt;
    if c in CrossingsOf(AxisOf(img, receiver, 0)) {
      i := 0;
    } else if c in CrossingsOf(AxisOf(img, receiver, 1)) {
      i := 1;
    } else {
      i := 2;
    }
    var a := AxisOf(img, receiver, i);
    var k :| 0 <= k < AbsInt(a.order) && AxisCrossings(a, AbsInt(a.order))[k] == c;
    step := k;
  }

  lemma IsMember(img: ImageSource, receiver: Vec3, i: nat, step: nat)
    requires i < 3 && step < AbsInt(img.orders.Axis(i)) && AxisOf(img, receiver, i).image != AxisOf(img, receiver, i).receiver
    ensures StepCrossing(AxisOf(img, receiver, i), step) in AllCrossings(img, receiver)
  {
    hide TimeAt, WallAt;
    var a := AxisOf(img, receiver, i);
    assert AxisCrossings(a, AbsInt(a.order))[step] == StepCrossing(a, step);
    assert StepCrossing(a, step) in CrossingsOf(a);
  }

  lemma WallOfAxis(img: ImageSource, receiver: Vec3, i: nat, step: nat)
    requires i < 3
    ensures WallAt(AxisOf(img, receiver, i), step) / 2 == i && WallAt(AxisOf(img, receiver, i), step) < 6
    ensures WallAt(AxisOf(img, receiver, i), step) % 2 == 1 <==> WallAt(AxisOf(img, receiver, i), step) == AxisOf(img, receiver, i).pos
  {
  }

  lemma UnfoldedAxis(img: ImageSource, receiver: Vec3, t: real, i: nat)
    requires i < 3
    ensures Unfolded(img, receiver, t).Axis(i) == At(AxisOf(img, receiver, i), t)
  {
  }

  ghost predicate RoomIsProper(dims: Vec3) {
    dims.x > 0.0 && dims.y > 0.0 && dims.z > 0.0
  }

  lemma FoldAxis(p: Vec3, dims: Vec3, i: nat)
    requires RoomIsProper(dims) && i < 3
    ensures FoldPoint(p, dims, 0.0).Axis(i) == FoldCoordinate(p.Axis(i), dims.Axis(i), 0.0)
  {
    hide FoldCoordinate;
  }

  /** Without ties, every crossing happens in the open interior of the wall it names. */
  lemma CrossingIsOnItsWall(img: ImageSource, src: Vec3, receiver: Vec3, c: Crossing)
    requires ProperImage(img, src, receiver) && RoomIsProper(img.dims) && c in AllCrossings(img, receiver) && NoTies(AllCrossings(img, receiver))
    ensures 0.0 < c.t < 1.0 && PointOnWallInterior(FoldPoint(Unfolded(img, receiver, c.t), img.dims, 0.0), c.wall, img.dims, 0.0)
  {
    var i, step := MemberOf(img, receiver, c);
    hide ProperImage, Proper, FoldCoordinate, FoldPoint, Unfolded, At, TimeAt, WallAt, AllCrossings;
    AxesAreProper(img, src, receiver, i);
    CrossingIsBetween(AxisOf(img, receiver, i), src.Axis(i), step);
    CrossingFoldsOntoItsWall(AxisOf(img, receiver, i), src.Axis(i), step);
    WallOfAxis(img, receiver, i, step);
    var p := FoldPoint(Unfolded(img, receiver, c.t), img.dims, 0.0);
    forall j | 0 <= j < 3
      ensures if j == c.wall / 2 then OnPlane(p.Axis(j), img.dims.Axis(j), c.wall, 0.0) else WithinOpen(p.Axis(j), img.dims.Axis(j), 0.0)
    {
      FoldAxis(Unfolded(img, receiver, c.t), img.dims, j);
      UnfoldedAxis(img, receiver, c.t, j);
      if j != i {
        OtherAxisIsInside(img, src, receiver, i, step, j);
      }
    }
  }

  lemma OtherAxisIsInside(img: ImageSource, src: Vec3, receiver: Vec3, i: nat, step: nat, j: nat)
    requires ProperImage(img, src, receiver) && NoTies(AllCrossings(img, receiver)) && i < 3 && j < 3 && i != j
    requires step < AbsInt(img.orders.Axis(i)) && AxisOf(img, receiver, i).image != AxisOf(img, receiver, i).receiver
    ensures Inside(FoldCoordinate(At(AxisOf(img, receiver, j), TimeAt(AxisOf(img, receiver, i), step)), img.dims.Axis(j), 0.0), img.dims.Axis(j))
  {
    hide ProperImage, Proper, FoldCoordinate, At, TimeAt, WallAt, AllCrossings;
    var a, b := AxisOf(img, receiver, i), AxisOf(img, receiver, j);
    var t := TimeAt(a, step);
    AxesAreProper(img, src, receiver, i);
    AxesAreProper(img, src, receiver, j);
    CrossingIsBetween(a, src.Axis(i), step);
    forall other: nat | other < AbsInt(b.order) && b.image != b.receiver
      ensures TimeAt(b, other) != t
    {
      IsMember(img, receiver, i, step);
      IsMember(img, receiver, j, other);
      WallOfAxis(img, receiver, i, step);
      WallOfAxis(img, receiver, j, other);
      DifferentMembers(AllCrossings(img, receiver), StepCrossing(a, step), StepCrossing(b, other));
    }
    ElsewhereInside(b, src.Axis(j), t);
  }

  lemma DifferentMembers(events: seq<Crossing>, c: Crossing, d: Crossing)
    requires NoTies(events) && c in events && d in events && c.wall != d.wall
    ensures c.t != d.t
  {
    var i :| 0 <= i < |events| && events[i] == c;
    var j :| 0 <= j < |events| && events[j] == d;
  }

  /** A sorted list has no ties exactly when neighbours differ. */
  lemma SortedTies(sorted: seq<Crossing>)
    requires SortedBy(Earlier, sorted)
    ensures NoTies(sorted) <==> forall k | 0 < k < |sorted| :: sorted[k - 1].t != sorted[k].t
  {
    if forall k | 0 < k < |sorted| :: sorted[k - 1].t != sorted[k].t {
      forall i, j | 0 <= i < j < |sorted|
        ensures sorted[i].t != sorted[j].t
      {
        assert Earlier(sorted[j - 1], sorted[j]) && sorted[j - 1].t != sorted[j].t;
        assert i == j - 1 || Earlier(sorted[i], sorted[j - 1]);
      }
    }
  }

  lemma TiesAgree(events: seq<Crossing>, sorted: seq<Crossing>)
    requires multiset(sorted) == multiset(events) && NoTies(events)
    ensures NoTies(sorted)
  {
    SameElements(sorted, events);
    DistinctPermutation(sorted, events);
    forall i, j | 0 <= i < j < |sorted|
      ensures sorted[i].t != sorted[j].t
    {
      assert sorted[i] in events && sorted[j] in events;
      var k :| 0 <= k < |events| && events[k] == sorted[i];
      var l :| 0 <= l < |events| && events[l] == sorted[j];
      assert k != l;
    }
  }

  lemma NearMeansEqual(p: Vec3, q: Vec3)
    ensures Near(p, q, 0.0) <==> p == q
  {
    var d := p.Sub(q);
    SumOfSquares(d.x, d.y, d.z, d.Dot(d));
  }

  lemma SumOfSquares(x: real, y: real, z: real, s: real)
    requires s == x * x + y * y + z * z
    ensures s <= 0.0 <==> x == 0.0 && y == 0.0 && z == 0.0
  {
    var a, b, c := x * x, y * y, z * z;
    SquareOf(x, x, a);
    SquareOf(y, y, b);
    SquareOf(z, z, c);
    assert s == a + b + c;
  }

  lemma SquareOf(x: real, y: real, s: real)
    requires s == x * y && x == y
    ensures s >= 0.0 && (s == 0.0 <==> x == 0.0)
  {
    if s == 0.0 {
      ZeroFactor(x, y);
    }
  }

  lemma ZeroFactor(x: real, y: real)
    requires x * y == 0.0
    ensures x == 0.0 || y == 0.0
  {
  }

  lemma CrossingsAreOrdered()
    ensures TotalPreorder(Earlier)
  {
  }

  /** The accepted points, one per crossing in the order of `sorted`. */
  ghost predicate PathAlong(path: seq<ReflectionPoint>, sorted: seq<Crossing>, img: ImageSource, receiver: Vec3, eps: real)
    requires RoomIsProper(img.dims)
  {
    |path| <= |sorted| && forall k | 0 <= k < |path| :: PointOf(path[k], sorted[k], img, receiver, eps)
  }

  ghost predicate PointOf(p: ReflectionPoint, c: Crossing, img: ImageSource, receiver: Vec3, eps: real)
    requires RoomIsProper(img.dims)
  {
    && p == ReflectionPoint(FoldPoint(Unfolded(img, receiver, c.t), img.dims, eps), c.wall)
    && c.t > eps && c.t < 1.0 - eps && PointOnWallInterior(p.point, c.wall, img.dims, eps)
  }

  /** Whether two neighbours in time are too close together. */
  method HasTies(sorted: seq<Crossing>, eps: real) returns (r: bool)
    ensures r <==> exists k :: 0 < k < |sorted| && CloseInTime(sorted[k - 1], sorted[k], eps)
  {
    var k := 1;
    while k < |sorted|
      invariant 1 <= k && forall j | 0 < j < k && j < |sorted| :: !CloseInTime(sorted[j - 1], sorted[j], eps)
    {
      if CloseInTime(sorted[k - 1], sorted[k], eps) {
        return true;
      }
      k := k + 1;
    }
    return false;
  }

  predicate CloseInTime(c: Crossing, d: Crossing, eps: real) {
    Abs(d.t - c.t) <= eps
  }

  /** Folds the crossings one by one, giving up at the first that is not on its wall. */
  method FoldCrossings(sorted: seq<Crossing>, img: ImageSource, receiver: Vec3, eps: real) returns (path: seq<ReflectionPoint>, ok: bool)
    requires RoomIsProper(img.dims)
    ensures ok ==> |path| == |sorted| && PathAlong(path, sorted, img, receiver, eps)
    ensures !ok ==> exists k :: 0 <= k < |sorted| && Rejected(sorted[k], img, receiver, eps)
  {
    hide FoldPoint, Unfolded, PointOnWallInterior;
    path := [];
    for k := 0 to |sorted|
      invariant |path| == k && PathAlong(path, sorted, img, receiver, eps)
    {
      var c := sorted[k];
      var point := FoldPoint(Unfolded(img, receiver, c.t), img.dims, eps);
      if c.t <= eps || c.t >= 1.0 - eps || !PointOnWallInterior(point, c.wall, img.dims, eps) {
        assert Rejected(sorted[k], img, receiver, eps);
        return [], false;
      }
      path := path + [ReflectionPoint(point, c.wall)];
    }
    ok := true;
  }

  ghost predicate Rejected(c: Crossing, img: ImageSource, receiver: Vec3, eps: real)
    requires RoomIsProper(img.dims)
  {
    c.t <= eps || c.t >= 1.0 - eps || !PointOnWallInterior(FoldPoint(Unfolded(img, receiver, c.t), img.dims, eps), c.wall, img.dims, eps)
  }

  /** In exact arithmetic an image is audible exactly when it is not at the receiver and its path
      meets no two walls at once. The path then visits its walls in order, inside each wall. */
  method ReflectionPath(img: ImageSource, receiver: Vec3, eps: real) returns (path: seq<ReflectionPoint>, ok: bool, ghost sorted: seq<Crossing>)
    requires eps >= 0.0 && RoomIsProper(img.dims)
    ensures ok ==> |path| == |sorted| == img.order && PathAlong(path, sorted, img, receiver, eps)
    ensures ok ==> multiset(sorted) == multiset(AllCrossings(img, receiver)) && SortedBy(Earlier, sorted)
    ensures forall src | eps == 0.0 && ProperImage(img, src, receiver) :: ok <==> img.position != receiver && NoTies(AllCrossings(img, receiver))
  {
    hide PathAlong, SortBy, SortedBy, AllCrossings, NoTies, ProperImage, Near, TotalPreorder;
    sorted := [];
    NearMeansEqual(img.position, receiver);
    forall src | eps == 0.0 && ProperImage(img, src, receiver)
      ensures forall i: nat | i < 3 :: Departs(AxisOf(img, receiver, i), eps)
      ensures |AllCrossings(img, receiver)| == img.order
    {
      EveryAxisDeparts(img, src, receiver);
      CrossingCount(img, src, receiver);
    }
    if Near(img.position, receiver, eps) {
      return [], false, sorted;
    }
    var events, departs := CrossingEvents(img, receiver, eps);
    if !departs || |events| != img.order {
      return [], false, sorted;
    }
    var byTime := SortBy(Earlier, events);
    sorted := byTime;
    CrossingsAreOrdered();
    SortByIsSorted(Earlier, events);
    forall src | eps == 0.0 && ProperImage(img, src, receiver)
      ensures NoTies(events) <==> !exists k :: 0 < k < |sorted| && CloseInTime(sorted[k - 1], sorted[k], eps)
      ensures NoTies(events) ==> forall k | 0 <= k < |sorted| :: !Rejected(sorted[k], img, receiver, eps)
    {
      TiesDecide(events, sorted);
      if NoTies(events) {
        NothingRejected(img, src, receiver, sorted);
      }
    }
    var ties := HasTies(byTime, eps);
    if ties {
      return [], false, sorted;
    }
    path, ok := FoldCrossings(byTime, img, receiver, eps);
  }

  lemma EveryAxisDeparts(img: ImageSource, src: Vec3, receiver: Vec3)
    requires ProperImage(img, src, receiver)
    ensures forall i: nat | i < 3 :: Departs(AxisOf(img, receiver, i), 0.0)
  {
    forall i: nat | i < 3
      ensures Departs(AxisOf(img, receiver, i), 0.0)
    {
      AxesAreProper(img, src, receiver, i);
      ImageIsBeyond(AxisOf(img, receiver, i), src.Axis(i));
    }
  }

  lemma TiesDecide(events: seq<Crossing>, sorted: seq<Crossing>)
    requires multiset(sorted) == multiset(events) && SortedBy(Earlier, sorted)
    ensures NoTies(events) <==> !exists k :: 0 < k < |sorted| && CloseInTime(sorted[k - 1], sorted[k], 0.0)
  {
    SortedTies(sorted);
    if NoTies(events) {
      TiesAgree(events, sorted);
    } else if NoTies(sorted) {
      TiesAgree(sorted, events);
    }
  }

  lemma NothingRejected(img: ImageSource, src: Vec3, receiver: Vec3, sorted: seq<Crossing>)
    requires RoomIsProper(img.dims) && ProperImage(img, src, receiver) && NoTies(AllCrossings(img, receiver))
    requires multiset(sorted) == multiset(AllCrossings(img, receiver))
    ensures forall k | 0 <= k < |sorted| :: !Rejected(sorted[k], img, receiver, 0.0)
  {
    hide ProperImage, NoTies, AllCrossings, PointOnWallInterior, FoldPoint, Unfolded;
    SameElements(sorted, AllCrossings(img, receiver));
    forall k | 0 <= k < |sorted|
      ensures !Rejected(sorted[k], img, receiver, 0.0)
    {
      CrossingIsOnItsWall(img, src, receiver, sorted[k]);
    }
  }

  // ---------- Walls met ----------

  function WallCount(events: seq<Crossing>, wall: nat): nat {
    if events == [] then 0 else WallCount(events[..|events| - 1], wall) + if events[|events| - 1].wall == wall then 1 else 0
  }

  lemma {:induction false} WallCountOfConcat(a: seq<Crossing>, b: seq<Crossing>, wall: nat)
    ensures WallCount(a + b, wall) == WallCount(a, wall) + WallCount(b, wall)
    decreases |b|
  {
    if b == [] {
      assert a + b == a;
    } else {
      assert (a + b)[..|a + b| - 1] == a + b[..|b| - 1];
      WallCountOfConcat(a, b[..|b| - 1], wall);
    }
  }

  lemma {:induction false} AxisWallCount(a: Axis, n: nat, wall: nat)
    requires a.image != a.receiver
    ensures WallCount(AxisCrossings(a, n), wall) == HitsOf(a, wall, n)
    decreases n
  {
    hide TimeAt, WallAt;
    if n > 0 {
      AxisWallCount(a, n - 1, wall);
      assert AxisCrossings(a, n)[..n - 1] == AxisCrossings(a, n - 1);
    }
  }

  lemma {:induction false} NoHitsElsewhere(a: Axis, wall: nat, n: nat)
    requires wall != a.neg && wall != a.pos
    ensures HitsOf(a, wall, n) == 0
    decreases n
  {
    if n > 0 {
      NoHitsElsewhere(a, wall, n - 1);
    }
  }

  /** How often each wall of an axis is met, from the order alone. */
  function WallHits(order: int, positive: bool): nat {
    if (order >= 0) == positive then (AbsInt(order) + 1) / 2 else AbsInt(order) / 2
  }

  lemma NoneCounted(wall: nat)
    ensures WallCount([], wall) == 0
  {
  }

  lemma WallCountOfAxis(img: ImageSource, src: Vec3, receiver: Vec3, i: nat, wall: nat)
    requires ProperImage(img, src, receiver) && i < 3 && wall < 6
    ensures WallCount(CrossingsOf(AxisOf(img, receiver, i)), wall) == if wall / 2 == i then WallHits(img.orders.Axis(i), wall % 2 == 1) else 0
  {
    hide WallCount, AxisCrossings, HitsOf, ProperImage, Vec3.Axis, Proper;
    var a := AxisOf(img, receiver, i);
    AxesAreProper(img, src, receiver, i);
    ImageIsBeyond(a, src.Axis(i));
    NoneCounted(wall);
    if a.order != 0 {
      AxisWallCount(a, AbsInt(a.order), wall);
      CrossingsMatchCounts(a, AbsInt(a.order));
      if wall / 2 != i {
        NoHitsElsewhere(a, wall, AbsInt(a.order));
      }
    }
  }

  /** The path of an image meets every wall as often as the image's wall counts say. */
  lemma PathMeetsCountedWalls(img: ImageSource, src: Vec3, receiver: Vec3, wall: nat)
    requires ProperImage(img, src, receiver) && wall < 6
    ensures WallCount(AllCrossings(img, receiver), wall) == WallHits(img.orders.Axis(wall / 2), wall % 2 == 1)
  {
    WallCountOfAxis(img, src, receiver, 0, wall);
    WallCountOfAxis(img, src, receiver, 1, wall);
    WallCountOfAxis(img, src, receiver, 2, wall);
    hide CrossingsOf, WallCount, ProperImage, WallHits;
    var x, y, z := CrossingsOf(AxisOf(img, receiver, 0)), CrossingsOf(AxisOf(img, receiver, 1)), CrossingsOf(AxisOf(img, receiver, 2));
    WallCountOfConcat(x, y, wall);
    WallCountOfConcat(x + y, z, wall);
  }

  lemma HitsShow(order: int)
    ensures MaskOf(order) == [WallHits(order, false) > 0, WallHits(order, true) > 0]
  {
    MaskShowsHits(order, WallHits(order, false), WallHits(order, true));
  }

  lemma MaskByAxis(img: ImageSource, src: Vec3, i: nat)
    requires img == ImageOf(src, img.dims, img.orders) && i < 3
    ensures |img.mask| == 6 && img.mask[2 * i..2 * i + 2] == MaskOf(img.orders.Axis(i))
  {
  }

  /** An image's mask has the bit of a wall exactly when its path meets that wall. */
  lemma MaskShowsPath(img: ImageSource, src: Vec3, receiver: Vec3, wall: nat)
    requires ProperImage(img, src, receiver) && wall < 6
    ensures |img.mask| == 6 && (img.mask[wall] <==> WallCount(AllCrossings(img, receiver), wall) > 0)
  {
    hide WallHits, AllCrossings, WallCount, ImageOf, MaskOf, Orders.Axis;
    var i, d := wall / 2, wall % 2;
    MaskByAxis(img, src, i);
    HitsShow(img.orders.Axis(i));
    PathMeetsCountedWalls(img, src, receiver, wall);
    assert img.mask[2 * i..2 * i + 2][d] == img.mask[wall];
  }

  /** Images come by rising order; those of one order by position, first along x, then y, then z. */
  lemma ImagesInOrder(sources: seq<ImageSource>, src: Vec3, dims: Vec3, max: nat, j: nat, k: nat)
    requires IsImageList(sources, src, dims, max) && j < k < |sources|
    ensures sources[j].order <= sources[k].order
    ensures var p, q := sources[j].position, sources[k].position;
            sources[j].order == sources[k].order ==> p.x < q.x || (p.x == q.x && (p.y < q.y || (p.y == q.y && p.z <= q.z)))
  {
    assert NotLater(sources[j], sources[k]);
  }
}
