/** One axis of the shoebox image lattice: image coordinates, the planes a path crosses, and folding
    back into the room (ism/image.go, ism/audibility.go). Tolerances are parameters. */
module ImageAxis {
  function AbsInt(n: int): nat {
    if n < 0 then -n else n
  }

  function Abs(x: real): real {
    if x < 0.0 then -x else x
  }

  /** The coordinate of the k-th wall plane of the unfolded lattice. */
  function Plane(k: int, dimension: real): real {
    k as real * dimension
  }

  /** The source coordinate unfolded into the image room `order`. Parity is of the magnitude. */
  function ImageCoordinate(order: int, source: real, dimension: real): real {
    if order % 2 == 0 then Plane(order, dimension) + source else Plane(order + 1, dimension) - source
  }

  ghost predicate Inside(x: real, dimension: real) {
    0.0 < x < dimension
  }

  /** Strictly between the planes `m` and `m + 1`. */
  ghost predicate InRoom(x: real, dimension: real, m: int) {
    Plane(m, dimension) < x < Plane(m + 1, dimension)
  }

  lemma NextPlane(m: int, dimension: real)
    ensures Plane(m + 1, dimension) == Plane(m, dimension) + dimension
  {
  }

  lemma PlanesAscend(j: int, k: int, dimension: real)
    requires dimension > 0.0
    ensures j <= k <==> Plane(j, dimension) <= Plane(k, dimension)
    ensures Plane(0, dimension) == 0.0 && Plane(1, dimension) == dimension
  {
    Product(j as real, k as real, dimension);
  }

  /** The image sits strictly inside the room of its order. */
  lemma ImageIsInItsRoom(order: int, source: real, dimension: real)
    requires Inside(source, dimension)
    ensures InRoom(ImageCoordinate(order, source, dimension), dimension, order)
  {
    NextPlane(order, dimension);
  }

  // ---------- Folding ----------

  function TruncDiv(value: real, period: real): int
    requires period > 0.0
  {
    if value / period >= 0.0 then (value / period).Floor else -((-(value / period)).Floor)
  }

  /** The remainder with the sign of the value. */
  function Mod(value: real, period: real): real
    requires period > 0.0
  {
    value - Plane(TruncDiv(value, period), period)
  }

  /** The offset into the period, never negative. */
  function Offset(value: real, period: real): real
    requires period > 0.0
  {
    var rest := Mod(value, period);
    if rest < 0.0 then rest + period else rest
  }

  function FoldCoordinate(value: real, dimension: real, eps: real): real
    requires dimension > 0.0
  {
    var period := 2.0 * dimension;
    var folded := Offset(value, period);
    if folded <= eps then 0.0
    else if Abs(folded - dimension) <= eps then dimension
    else if folded < dimension then folded
    else
      var mirrored := period - folded;
      if mirrored <= eps then 0.0
      else if Abs(mirrored - dimension) <= eps then dimension
      else mirrored
  }

  lemma QuotientTimes(x: real, y: real)
    requires y > 0.0
    ensures (x / y) * y == x
    ensures x / y >= 0.0 <==> x >= 0.0
  {
    var q := x / y;
    assert q * y == x;
    if q >= 0.0 {
      assert q * y >= 0.0;
    } else {
      NegativeProduct(q, y);
    }
  }

  lemma NegativeProduct(x: real, y: real)
    requires x < 0.0 && y > 0.0
    ensures x * y < 0.0
  {
  }

  lemma Product(x: real, y: real, z: real)
    requires z > 0.0
    ensures x * z < y * z <==> x < y
    ensures x * z <= y * z <==> x <= y
  {
    if x < y {
      NegativeProduct(x - y, z);
      assert (x - y) * z == x * z - y * z;
    } else if y < x {
      NegativeProduct(y - x, z);
      assert (y - x) * z == y * z - x * z;
    }
  }

  /** The fold's remainder is the offset from the multiple of the period at or below the value. */
  lemma RemainderFrom(value: real, period: real, q: int)
    requires period > 0.0 && Plane(q, period) <= value < Plane(q + 1, period)
    ensures Offset(value, period) == value - Plane(q, period)
  {
    var x := value / period;
    QuotientTimes(value, period);
    FloorTimes(x, x.Floor, period, value);
    hide Plane;
    PlanesAscend(x.Floor + 1, q, period);
    PlanesAscend(q + 1, x.Floor, period);
    assert x.Floor == q;
    NextPlane(q, period);
    if x < 0.0 {
      if x == q as real {
        assert (-x).Floor == -q;
      } else {
        assert (-x).Floor == -q - 1;
        assert TruncDiv(value, period) == q + 1;
      }
    }
    if x == q as real {
      WholeQuotient(x, q, period, value);
    }
  }

  lemma WholeQuotient(x: real, q: int, period: real, value: real)
    requires x * period == value && x == q as real
    ensures value == Plane(q, period)
  {
  }

  lemma FoldOffset(value: real, dimension: real, f: real)
    requires dimension > 0.0 && Offset(value, 2.0 * dimension) == f && 0.0 <= f < 2.0 * dimension
    ensures FoldCoordinate(value, dimension, 0.0) == if f <= dimension then f else 2.0 * dimension - f
  {
    hide Offset;
  }

  lemma RoomBounds(m: int, dimension: real) returns (q: int, base: real)
    ensures q == m / 2 && base == Plane(q, 2.0 * dimension) && Plane(q + 1, 2.0 * dimension) == base + 2.0 * dimension
    ensures m % 2 == 0 ==> Plane(m, dimension) == base
    ensures m % 2 != 0 ==> Plane(m, dimension) == base + dimension
    ensures Plane(m + 1, dimension) == Plane(m, dimension) + dimension
  {
    q := m / 2;
    base := Plane(q, 2.0 * dimension);
    NextPlane(q, 2.0 * dimension);
    Twice(q, dimension);
    NextPlane(m, dimension);
    NextPlane(2 * q, dimension);
    if m % 2 != 0 {
      assert m == 2 * q + 1;
    }
  }

  /** A coordinate strictly inside an image room folds strictly inside the room, mirrored in odd rooms. */
  lemma FoldRoom(value: real, dimension: real, m: int)
    requires dimension > 0.0 && InRoom(value, dimension, m)
    ensures FoldCoordinate(value, dimension, 0.0) == if m % 2 == 0 then value - Plane(m, dimension) else Plane(m + 1, dimension) - value
    ensures Inside(FoldCoordinate(value, dimension, 0.0), dimension)
  {
    hide FoldCoordinate, Offset;
    var q, base := RoomBounds(m, dimension);
    RemainderFrom(value, 2.0 * dimension, q);
    FoldOffset(value, dimension, value - base);
  }

  lemma Twice(q: int, dimension: real)
    ensures Plane(q, 2.0 * dimension) == Plane(2 * q, dimension)
  {
  }

  /** A plane folds onto a wall: the far one for odd planes, the near one for even planes. */
  lemma FoldPlane(k: int, dimension: real)
    requires dimension > 0.0
    ensures FoldCoordinate(Plane(k, dimension), dimension, 0.0) == if k % 2 == 0 then 0.0 else dimension
  {
    hide FoldCoordinate, Offset;
    var q, base := RoomBounds(k, dimension);
    RemainderFrom(Plane(k, dimension), 2.0 * dimension, q);
    FoldOffset(Plane(k, dimension), dimension, Plane(k, dimension) - base);
  }

  /** Folding an image coordinate returns the source coordinate. */
  lemma FoldingReturnsTheSource(order: int, source: real, dimension: real)
    requires Inside(source, dimension)
    ensures FoldCoordinate(ImageCoordinate(order, source, dimension), dimension, 0.0) == source
  {
    ImageIsInItsRoom(order, source, dimension);
    FoldRoom(ImageCoordinate(order, source, dimension), dimension, order);
  }

  // ---------- Crossings ----------

  datatype Axis = Axis(receiver: real, image: real, dimension: real, order: int, neg: nat, pos: nat)

  /** The image belongs to a source inside the room, as does the receiver. */
  ghost predicate Proper(a: Axis, source: real) {
    Inside(source, a.dimension) && Inside(a.receiver, a.dimension) && a.image == ImageCoordinate(a.order, source, a.dimension) && a.neg != a.pos
  }

  function PlaneIndex(order: int, step: nat): int {
    if order < 0 then -(step as int) else step + 1
  }

  function WallAt(a: Axis, step: nat): nat {
    if a.order < 0 then (if step % 2 == 1 then a.pos else a.neg) else (if step % 2 == 1 then a.neg else a.pos)
  }

  function TimeAt(a: Axis, step: nat): real
    requires a.image != a.receiver
  {
    (Plane(PlaneIndex(a.order, step), a.dimension) - a.receiver) / (a.image - a.receiver)
  }

  /** The unfolded coordinate on the way from the receiver to the image. */
  function At(a: Axis, t: real): real {
    a.receiver + (a.image - a.receiver) * t
  }

  /** The image is beyond the first plane on the side of its order. */
  lemma ImageIsBeyond(a: Axis, source: real)
    requires Proper(a, source)
    ensures a.order > 0 ==> a.image > Plane(a.order, a.dimension) >= a.dimension
    ensures a.order < 0 ==> a.image < Plane(a.order + 1, a.dimension) <= 0.0
    ensures a.order == 0 ==> Inside(a.image, a.dimension)
    ensures a.order != 0 ==> a.image != a.receiver
    ensures InRoom(a.image, a.dimension, a.order)
  {
    ImageIsInItsRoom(a.order, source, a.dimension);
    if a.order > 0 {
      PlanesAscend(1, a.order, a.dimension);
    } else if a.order < 0 {
      PlanesAscend(a.order + 1, 0, a.dimension);
    }
  }

  lemma RatioBetween(x: real, y: real)
    requires (0.0 < x < y) || (y < x < 0.0)
    ensures 0.0 < x / y < 1.0
  {
    Recover(x, y);
    if y > 0.0 {
      Below(x / y, x, y);
    } else {
      Below(x / y, -x, -y);
    }
  }

  lemma Below(q: real, x: real, y: real)
    requires 0.0 < x < y && (q * y == x || y * q == x)
    ensures 0.0 < q < 1.0
  {
    Product(0.0, q, y);
    Product(q, 1.0, y);
  }

  /** Every crossing lies strictly between the receiver and the image. */
  lemma CrossingIsBetween(a: Axis, source: real, step: nat)
    requires Proper(a, source) && step < AbsInt(a.order)
    ensures a.image != a.receiver && 0.0 < TimeAt(a, step) < 1.0
    ensures At(a, TimeAt(a, step)) == Plane(PlaneIndex(a.order, step), a.dimension)
  {
    hide Plane, ImageCoordinate;
    ImageIsBeyond(a, source);
    var k := PlaneIndex(a.order, step);
    if a.order > 0 {
      PlanesAscend(1, k, a.dimension);
      PlanesAscend(k, a.order, a.dimension);
    } else {
      PlanesAscend(a.order + 1, k, a.dimension);
      PlanesAscend(k, 0, a.dimension);
    }
    RatioBetween(Plane(k, a.dimension) - a.receiver, a.image - a.receiver);
    Recover(Plane(k, a.dimension) - a.receiver, a.image - a.receiver);
  }

  lemma Recover(x: real, y: real)
    requires y != 0.0
    ensures y * (x / y) == x
  {
  }

  lemma RatioAscends(x: real, z: real, y: real)
    requires (x < z && y > 0.0) || (x > z && y < 0.0)
    ensures x / y < z / y
  {
    var p, q := x / y, z / y;
    assert p * y == x && q * y == z;
    if y > 0.0 {
      Product(p, q, y);
    } else {
      assert p * -y == -x && q * -y == -z;
      Product(p, q, -y);
    }
  }

  /** On one axis the crossings come one after the other. */
  lemma CrossingsAscend(a: Axis, source: real, i: nat, j: nat)
    requires Proper(a, source) && i < j < AbsInt(a.order)
    ensures a.image != a.receiver && TimeAt(a, i) < TimeAt(a, j)
  {
    hide Plane, ImageCoordinate;
    ImageIsBeyond(a, source);
    var k, l := PlaneIndex(a.order, i), PlaneIndex(a.order, j);
    PlanesAscend(k, l, a.dimension);
    PlanesAscend(l, k, a.dimension);
    RatioAscends(Plane(k, a.dimension) - a.receiver, Plane(l, a.dimension) - a.receiver, a.image - a.receiver);
  }

  /** The plane of a crossing folds onto the wall that the crossing names. */
  lemma CrossingFoldsOntoItsWall(a: Axis, source: real, step: nat)
    requires Proper(a, source) && step < AbsInt(a.order)
    ensures a.image != a.receiver
    ensures FoldCoordinate(At(a, TimeAt(a, step)), a.dimension, 0.0) == if WallAt(a, step) == a.pos then a.dimension else 0.0
  {
    hide Plane, ImageCoordinate, FoldCoordinate, At, TimeAt;
    CrossingIsBetween(a, source, step);
    FoldPlane(PlaneIndex(a.order, step), a.dimension);
  }

  lemma PartOf(d: real, t: real, p: real)
    requires 0.0 < t < 1.0 && p == d * t
    ensures d > 0.0 ==> 0.0 < p < d
    ensures d < 0.0 ==> d < p < 0.0
    ensures d == 0.0 ==> p == 0.0
  {
    var r := d * (1.0 - t);
    assert r == d - p;
    if d > 0.0 {
      PositiveProduct(d, t);
      PositiveProduct(d, 1.0 - t);
      assert r > 0.0;
    } else if d < 0.0 {
      NegativeProduct(d, t);
      NegativeProduct(d, 1.0 - t);
      assert r < 0.0;
    }
  }

  lemma PositiveProduct(x: real, y: real)
    requires x > 0.0 && y > 0.0
    ensures x * y > 0.0
  {
  }

  /** A plane met on the way is a crossing. */
  lemma PlaneMetIsCrossing(a: Axis, source: real, t: real, k: int) returns (step: nat)
    requires Proper(a, source) && 0.0 < t < 1.0 && At(a, t) == Plane(k, a.dimension)
    ensures step < AbsInt(a.order) && a.image != a.receiver && TimeAt(a, step) == t
  {
    hide Plane, ImageCoordinate;
    ImageIsBeyond(a, source);
    var d := a.image - a.receiver;
    var p := d * t;
    PartOf(d, t, p);
    assert At(a, t) == a.receiver + p;
    PlanesAscend(k, 0, a.dimension);
    PlanesAscend(1, k, a.dimension);
    PlanesAscend(a.order + 1, k, a.dimension);
    PlanesAscend(k, a.order, a.dimension);
    step := if a.order > 0 then k - 1 else -k;
    assert PlaneIndex(a.order, step) == k;
    Recovered(d, t);
  }

  lemma Recovered(y: real, t: real)
    requires y != 0.0
    ensures (y * t) / y == t
  {
    var q := (y * t) / y;
    assert q * y == y * t;
  }

  /** Where no plane is met, the coordinate folds strictly inside the room. */
  lemma ElsewhereInside(a: Axis, source: real, t: real)
    requires Proper(a, source) && 0.0 < t < 1.0 && forall step: nat | step < AbsInt(a.order) && a.image != a.receiver :: TimeAt(a, step) != t
    ensures Inside(FoldCoordinate(At(a, t), a.dimension, 0.0), a.dimension)
  {
    hide TimeAt, FoldCoordinate, Proper, At, Plane;
    ProperDimension(a, source);
    var x := At(a, t);
    var m := (x / a.dimension).Floor;
    RoomOf(x, a.dimension, m);
    if x == Plane(m, a.dimension) {
      var step := PlaneMetIsCrossing(a, source, t, m);
    } else {
      FoldRoom(x, a.dimension, m);
    }
  }

  lemma ProperDimension(a: Axis, source: real)
    requires Proper(a, source)
    ensures a.dimension > 0.0
  {
  }

  lemma RoomOf(x: real, dimension: real, m: int)
    requires dimension > 0.0 && m == (x / dimension).Floor
    ensures Plane(m, dimension) <= x < Plane(m + 1, dimension)
  {
    QuotientTimes(x, dimension);
    FloorTimes(x / dimension, m, dimension, x);
  }

  lemma FloorTimes(q: real, m: int, dimension: real, x: real)
    requires dimension > 0.0 && m == q.Floor && q * dimension == x
    ensures Plane(m, dimension) <= x < Plane(m + 1, dimension)
  {
    var f := q - m as real;
    var p := f * dimension;
    assert p == x - Plane(m, dimension);
    NextPlane(m, dimension);
    PartOfWhole(f, dimension, p);
  }

  lemma PartOfWhole(f: real, d: real, p: real)
    requires 0.0 <= f < 1.0 && d > 0.0 && p == f * d
    ensures 0.0 <= p < d
  {
    if f > 0.0 {
      PartOf(d, f, d * f);
      assert p == d * f;
    }
  }

  // ---------- Wall hits ----------

  /** How many of the first `n` crossings meet a wall. */
  function HitsOf(a: Axis, wall: nat, n: nat): nat {
    if n == 0 then 0 else HitsOf(a, wall, n - 1) + if WallAt(a, n - 1) == wall then 1 else 0
  }

  /** The hit counts of an axis, as the image list counts them: the wall met first, then the other, in turn. */
  method AccumulateAxisWallHits(order: int) returns (negative: nat, positive: nat)
    ensures negative + positive == AbsInt(order)
    ensures order >= 0 ==> positive == (order + 1) / 2
    ensures order <= 0 ==> negative == (1 - order) / 2
  {
    negative, positive := 0, 0;
    for step := 0 to AbsInt(order)
      invariant order > 0 ==> positive == (step + 1) / 2 && negative == step / 2
      invariant order < 0 ==> negative == (step + 1) / 2 && positive == step / 2
      invariant order == 0 ==> negative == positive == 0
    {
      if (step % 2 == 0) == (order > 0) {
        positive := positive + 1;
      } else {
        negative := negative + 1;
      }
    }
  }

  /** The crossings meet each wall as often as the counts say. */
  lemma {:induction false} CrossingsMatchCounts(a: Axis, n: nat)
    requires a.neg != a.pos
    ensures a.order >= 0 ==> HitsOf(a, a.pos, n) == (n + 1) / 2 && HitsOf(a, a.neg, n) == n / 2
    ensures a.order < 0 ==> HitsOf(a, a.neg, n) == (n + 1) / 2 && HitsOf(a, a.pos, n) == n / 2
    decreases n
  {
    if n > 0 {
      CrossingsMatchCounts(a, n - 1);
    }
  }
}
