/** Banded energy histograms: allocation, portal scaling, convolution and summation
    (raytrace/accumulate.go, hybrid/network.go, crossroom/paths.go). */
module Histograms {
  import opened Wrappers

  /** Energy by time bin and band. */
  type Bins = seq<seq<real>>

  datatype Histogram = Histogram(bins: Bins, duration: real, binDuration: real, bandCount: int)

  function Ceil(x: real): int {
    -((-x).Floor)
  }

  function BinCount(duration: real, binDuration: real, bandCount: int): nat {
    if duration <= 0.0 || binDuration <= 0.0 || bandCount <= 0 then 0
    else
      CeilOfPositive(duration, binDuration);
      Ceil(duration / binDuration)
  }

  lemma CeilOfPositive(x: real, y: real)
    requires x > 0.0 && y > 0.0
    ensures Ceil(x / y) >= 0
  {
    var q := x / y;
    assert q * y == x;
    if q < 0.0 {
      assert q * y < 0.0;
    }
  }

  function Zeros(bandCount: nat): seq<real> {
    seq(bandCount, _ => 0.0)
  }

  function NewHistogram(duration: real, binDuration: real, bandCount: int): (h: Histogram)
    ensures Valid(h)
  {
    var n := BinCount(duration, binDuration, bandCount);
    Histogram(if n == 0 then [] else seq(n, _ => Zeros(bandCount)), duration, binDuration, bandCount)
  }

  predicate Shaped(bins: Bins, bandCount: int) {
    forall k | 0 <= k < |bins| :: |bins[k]| == bandCount
  }

  predicate Valid(h: Histogram) {
    |h.bins| == BinCount(h.duration, h.binDuration, h.bandCount) && Shaped(h.bins, h.bandCount)
  }

  /** Histograms on the same grid. */
  predicate SameGrid(a: Histogram, b: Histogram) {
    a.duration == b.duration && a.binDuration == b.binDuration && a.bandCount == b.bandCount
  }

  /** The energy in a bin and band, nothing outside the histogram. */
  function At(h: Histogram, k: int, b: int): real {
    if 0 <= k < |h.bins| && 0 <= b < |h.bins[k]| then h.bins[k][b] else 0.0
  }

  // ---------- Sums over directions ----------

  function SumAt(groups: seq<Histogram>, k: int, b: int): real {
    if groups == [] then 0.0 else SumAt(groups[..|groups| - 1], k, b) + At(groups[|groups| - 1], k, b)
  }

  /** Every bin and band of the total is the sum over the directions. */
  ghost predicate AddsUp(total: Histogram, groups: seq<Histogram>) {
    && Valid(total) && (forall d | 0 <= d < |groups| :: Valid(groups[d]) && SameGrid(groups[d], total))
    && forall k: nat, b: nat :: Balanced(total, groups, k, b)
  }

  ghost predicate Balanced(total: Histogram, groups: seq<Histogram>, k: nat, b: nat) {
    At(total, k, b) == SumAt(groups, k, b)
  }

  // ---------- Portal scaling ----------

  function ScaledBin(bin: seq<real>, gains: seq<real>): seq<real>
    requires |bin| == |gains|
  {
    seq(|bin|, b requires 0 <= b < |bin| => bin[b] * gains[b])
  }

  method ScaleHistogram(h: Histogram, gains: seq<real>) returns (r: Result<Histogram>)
    requires Valid(h)
    ensures r.Ok? <==> |gains| == h.bandCount
    ensures r.Ok? ==> Valid(r.value) && SameGrid(r.value, h)
    ensures r.Ok? ==> forall k: nat, b: nat | b < |gains| :: At(r.value, k, b) == At(h, k, b) * gains[b]
  {
    if |gains| != h.bandCount {
      return Err("gain count differs from the band count");
    }
    var bins: Bins := [];
    for k := 0 to |h.bins|
      invariant |bins| == k && forall j | 0 <= j < k :: bins[j] == ScaledBin(h.bins[j], gains)
    {
      bins := bins + [ScaledBin(h.bins[k], gains)];
    }
    r := Ok(Histogram(bins, h.duration, h.binDuration, h.bandCount));
  }

  // ---------- Convolution ----------

  /** The first `m` terms of the convolution at bin `k`. */
  function ConvAt(a: Histogram, c: Histogram, k: int, b: int, m: nat): real {
    if m == 0 then 0.0 else ConvAt(a, c, k, b, m - 1) + At(a, m - 1, b) * At(c, k - (m - 1), b)
  }

  /** Adds a bin, multiplied band by band, to the bin at `target`. */
  function AddProduct(bins: Bins, target: nat, x: seq<real>, y: seq<real>): Bins
    requires target < |bins| && |bins[target]| == |x| == |y|
  {
    bins[target := seq(|x|, b requires 0 <= b < |x| => bins[target][b] + x[b] * y[b])]
  }

  /** The bins hold the convolution's terms: `m` of them everywhere, one more below `limit`. */
  ghost predicate HoldsTerms(bins: Bins, a: Histogram, c: Histogram, m: nat, limit: int) {
    && |bins| == |a.bins| && Shaped(bins, a.bandCount)
    && forall k: nat, b: nat | k < |bins| && b < a.bandCount :: TermsAt(bins, a, c, m, limit, k, b)
  }

  ghost predicate TermsAt(bins: Bins, a: Histogram, c: Histogram, m: nat, limit: int, k: nat, b: nat) {
    k < |bins| && b < |bins[k]| && bins[k][b] == ConvAt(a, c, k, b, if k < limit then m + 1 else m)
  }

  lemma AddTerm(bins: Bins, a: Histogram, c: Histogram, m: nat, j: nat)
    requires Valid(a) && Valid(c) && a.bandCount == c.bandCount
    requires m < |a.bins| && j < |c.bins| && m + j < |bins| && HoldsTerms(bins, a, c, m, m + j)
    ensures HoldsTerms(AddProduct(bins, m + j, a.bins[m], c.bins[j]), a, c, m, m + j + 1)
  {
    var bins', limit := AddProduct(bins, m + j, a.bins[m], c.bins[j]), m + j + 1;
    forall k: nat, b: nat | k < |bins| && b < a.bandCount
      ensures TermsAt(bins', a, c, m, limit, k, b)
    {
      assert TermsAt(bins, a, c, m, m + j, k, b);
      if k == m + j {
        assert ConvAt(a, c, k, b, m + 1) == ConvAt(a, c, k, b, m) + At(a, m, b) * At(c, j, b);
      }
    }
  }

  /** Before bin `m` a new term only sees bins before the start. */
  lemma StartRow(bins: Bins, a: Histogram, c: Histogram, m: nat)
    requires HoldsTerms(bins, a, c, m, 0)
    ensures HoldsTerms(bins, a, c, m, m)
  {
    forall k: nat, b: nat | k < |bins| && b < a.bandCount
      ensures TermsAt(bins, a, c, m, m, k, b)
    {
      assert TermsAt(bins, a, c, m, 0, k, b);
      if k < m {
        assert At(c, k - m, b) == 0.0;
      }
    }
  }

  /** Beyond the second histogram's end a new term adds nothing. */
  lemma FinishRow(bins: Bins, a: Histogram, c: Histogram, m: nat, limit: nat)
    requires HoldsTerms(bins, a, c, m, limit) && (limit >= |bins| || limit >= m + |c.bins|)
    ensures HoldsTerms(bins, a, c, m + 1, 0)
  {
    var next := m + 1;
    forall k: nat, b: nat | k < |bins| && b < a.bandCount
      ensures TermsAt(bins, a, c, next, 0, k, b)
    {
      assert TermsAt(bins, a, c, m, limit, k, b);
      if k >= limit {
        assert At(c, k - m, b) == 0.0;
      }
    }
  }

  method ConvolveRow(start: Bins, a: Histogram, c: Histogram, m: nat) returns (bins: Bins)
    requires Valid(a) && Valid(c) && a.bandCount == c.bandCount && m < |a.bins| && HoldsTerms(start, a, c, m, 0)
    ensures HoldsTerms(bins, a, c, m + 1, 0)
  {
    hide ConvAt;
    bins := start;
    StartRow(bins, a, c, m);
    var j := 0;
    while j < |c.bins| && m + j < |bins|
      invariant 0 <= j <= |c.bins| && HoldsTerms(bins, a, c, m, m + j)
    {
      AddTerm(bins, a, c, m, j);
      bins := AddProduct(bins, m + j, a.bins[m], c.bins[j]);
      j := j + 1;
    }
    FinishRow(bins, a, c, m, m + j);
  }

  const BIN_DURATION_EPS: real := 0.000000000001

  predicate Convolvable(a: Histogram, c: Histogram) {
    a.bandCount == c.bandCount && -BIN_DURATION_EPS <= a.binDuration - c.binDuration <= BIN_DURATION_EPS
  }

  ghost predicate IsConvolution(out: Histogram, a: Histogram, c: Histogram) {
    && Valid(out) && SameGrid(out, a)
    && forall k: nat, b: nat | k < |out.bins| && b < a.bandCount :: At(out, k, b) == ConvAt(a, c, k, b, k + 1)
  }

  lemma {:induction false} TermsEnd(a: Histogram, c: Histogram, k: nat, b: nat, m: nat)
    requires m >= k + 1
    ensures ConvAt(a, c, k, b, m) == ConvAt(a, c, k, b, k + 1)
    decreases m
  {
    if m > k + 1 {
      TermsEnd(a, c, k, b, m - 1);
      assert At(c, k - (m - 1), b) == 0.0;
    }
  }

  /** Band-by-band convolution, truncated to the first histogram's duration. */
  method ConvolveHistograms(a: Histogram, c: Histogram) returns (r: Result<Histogram>)
    requires Valid(a) && Valid(c)
    ensures r.Ok? <==> Convolvable(a, c)
    ensures r.Ok? ==> IsConvolution(r.value, a, c)
  {
    hide ConvAt;
    if !Convolvable(a, c) {
      return Err("band counts or bin durations differ");
    }
    var bins := NewHistogram(a.duration, a.binDuration, a.bandCount).bins;
    NoTerms(bins, a, c);
    for m := 0 to |a.bins|
      invariant HoldsTerms(bins, a, c, m, 0)
    {
      bins := ConvolveRow(bins, a, c, m);
    }
    var out := Histogram(bins, a.duration, a.binDuration, a.bandCount);
    forall k: nat, b: nat | k < |bins| && b < a.bandCount
      ensures At(out, k, b) == ConvAt(a, c, k, b, k + 1)
    {
      assert TermsAt(bins, a, c, |a.bins|, 0, k, b);
      TermsEnd(a, c, k, b, |a.bins|);
    }
    r := Ok(out);
  }

  lemma NoTerms(bins: Bins, a: Histogram, c: Histogram)
    requires |bins| == |a.bins| && Shaped(bins, a.bandCount) && forall k, b | 0 <= k < |bins| && 0 <= b < |bins[k]| :: bins[k][b] == 0.0
    ensures HoldsTerms(bins, a, c, 0, 0)
  {
  }

  // ---------- Convolution distributes over directions ----------

  /** The sum over directions of the convolutions' first `m` terms. */
  function SumConv(u: Histogram, groups: seq<Histogram>, k: int, b: int, m: nat): real {
    if groups == [] then 0.0 else SumConv(u, groups[..|groups| - 1], k, b, m) + ConvAt(u, groups[|groups| - 1], k, b, m)
  }

  lemma {:induction false} SumConvStep(u: Histogram, groups: seq<Histogram>, k: int, b: int, m: nat)
    requires m > 0
    ensures SumConv(u, groups, k, b, m) == SumConv(u, groups, k, b, m - 1) + At(u, m - 1, b) * SumAt(groups, k - (m - 1), b)
    decreases |groups|
  {
    hide At;
    if groups != [] {
      var front, last := groups[..|groups| - 1], groups[|groups| - 1];
      SumConvStep(u, front, k, b, m);
      Distribute(At(u, m - 1, b), SumAt(front, k - (m - 1), b), At(last, k - (m - 1), b));
    }
  }

  lemma Distribute(x: real, y: real, z: real)
    ensures x * (y + z) == x * y + x * z
  {
  }

  lemma {:induction false} ConvOfSum(u: Histogram, total: Histogram, groups: seq<Histogram>, k: nat, b: nat, m: nat)
    requires (forall j: nat :: Balanced(total, groups, j, b)) && m <= k + 1
    ensures ConvAt(u, total, k, b, m) == SumConv(u, groups, k, b, m)
    decreases m
  {
    hide At, SumAt;
    if m == 0 {
      EmptySumConv(u, groups, k, b);
    } else {
      ConvOfSum(u, total, groups, k, b, m - 1);
      SumConvStep(u, groups, k, b, m);
      assert Balanced(total, groups, k - (m - 1), b);
    }
  }

  lemma {:induction false} EmptySumConv(u: Histogram, groups: seq<Histogram>, k: int, b: int)
    ensures SumConv(u, groups, k, b, 0) == 0.0
    decreases |groups|
  {
    if groups != [] {
      EmptySumConv(u, groups[..|groups| - 1], k, b);
    }
  }

  lemma {:induction false} SumOfConvolutions(u: Histogram, groups: seq<Histogram>, outs: seq<Histogram>, k: nat, b: nat)
    requires |outs| == |groups| && (forall d | 0 <= d < |groups| :: IsConvolution(outs[d], u, groups[d]))
    requires Valid(u) && k < |u.bins| && b < u.bandCount
    ensures SumAt(outs, k, b) == SumConv(u, groups, k, b, k + 1)
    decreases |groups|
  {
    hide ConvAt;
    if groups != [] {
      var n := |groups| - 1;
      SumOfConvolutions(u, groups[..n], outs[..n], k, b);
      assert IsConvolution(outs[n], u, groups[n]);
    }
  }

  lemma OutsideIsNothing(h: Histogram, k: nat, b: nat)
    requires Valid(h) && (k >= |h.bins| || b >= h.bandCount)
    ensures At(h, k, b) == 0.0
  {
  }

  lemma {:induction false} OutsideSum(groups: seq<Histogram>, u: Histogram, k: nat, b: nat)
    requires (forall d | 0 <= d < |groups| :: Valid(groups[d]) && SameGrid(groups[d], u)) && Valid(u) && (k >= |u.bins| || b >= u.bandCount)
    ensures SumAt(groups, k, b) == 0.0
    decreases |groups|
  {
    if groups != [] {
      OutsideSum(groups[..|groups| - 1], u, k, b);
      OutsideIsNothing(groups[|groups| - 1], k, b);
    }
  }

  /** Convolving the total and every direction with the same histogram keeps them adding up. */
  lemma ConvolutionAddsUp(u: Histogram, total: Histogram, groups: seq<Histogram>, out: Histogram, outs: seq<Histogram>)
    requires AddsUp(total, groups) && Valid(u) && IsConvolution(out, u, total)
    requires |outs| == |groups| && forall d | 0 <= d < |groups| :: IsConvolution(outs[d], u, groups[d])
    ensures AddsUp(out, outs)
  {
    hide ConvAt, SumAt, At;
    forall k: nat, b: nat
      ensures Balanced(out, outs, k, b)
    {
      if k < |u.bins| && b < u.bandCount {
        ConvOfSum(u, total, groups, k, b, k + 1);
        SumOfConvolutions(u, groups, outs, k, b);
      } else {
        OutsideIsNothing(out, k, b);
        OutsideSum(outs, out, k, b);
      }
    }
  }

  // ---------- Summation over paths ----------

  ghost predicate OneGrid(histograms: seq<Histogram>) {
    forall d | 0 <= d < |histograms| :: Valid(histograms[d]) && SameGrid(histograms[d], histograms[0])
  }

  function AddedBin(x: seq<real>, y: seq<real>): seq<real> {
    seq(|x|, b requires 0 <= b < |x| => if b < |y| then x[b] + y[b] else x[b])
  }

  ghost predicate IsSum(r: Histogram, x: Histogram, y: Histogram, k: nat, b: nat) {
    At(r, k, b) == At(x, k, b) + At(y, k, b)
  }

  ghost predicate IsTotal(r: Histogram, histograms: seq<Histogram>, k: nat, b: nat) {
    At(r, k, b) == SumAt(histograms, k, b)
  }

  ghost predicate InGrid(h: Histogram, k: nat, b: nat) {
    k < |h.bins| && b < h.bandCount
  }

  /** Adds one histogram into another, bin by bin, as far as both reach. */
  method AddHistogram(out: Histogram, h: Histogram) returns (r: Histogram)
    requires Valid(out) && Valid(h)
    ensures Valid(r) && SameGrid(r, out) && forall k: nat, b: nat | InGrid(r, k, b) :: IsSum(r, out, h, k, b)
  {
    var bins, limit := out.bins, if |h.bins| < |out.bins| then |h.bins| else |out.bins|;
    for k := 0 to limit
      invariant |bins| == |out.bins| && Shaped(bins, out.bandCount)
      invariant forall j | 0 <= j < k :: bins[j] == AddedBin(out.bins[j], h.bins[j])
      invariant forall j | k <= j < |bins| :: bins[j] == out.bins[j]
    {
      bins := bins[k := AddedBin(bins[k], h.bins[k])];
    }
    r := Histogram(bins, out.duration, out.binDuration, out.bandCount);
  }

  /** Adds the histograms, on the grid of the first; nothing when there is none. */
  method SumHistograms(histograms: seq<Histogram>) returns (r: Option<Histogram>)
    requires forall d | 0 <= d < |histograms| :: Valid(histograms[d])
    ensures r.Some? <==> histograms != []
    ensures r.Some? ==> Valid(r.value) && SameGrid(r.value, histograms[0])
    ensures r.Some? ==> forall k: nat, b: nat | InGrid(r.value, k, b) :: IsTotal(r.value, histograms, k, b)
    ensures r.Some? && OneGrid(histograms) ==> forall k: nat, b: nat :: IsTotal(r.value, histograms, k, b)
  {
    if histograms == [] {
      return None;
    }
    var out := NewHistogram(histograms[0].duration, histograms[0].binDuration, histograms[0].bandCount);
    for i := 0 to |histograms|
      invariant Valid(out) && SameGrid(out, histograms[0])
      invariant forall k: nat, b: nat | InGrid(out, k, b) :: IsTotal(out, histograms[..i], k, b)
    {
      ghost var before := out;
      out := AddHistogram(out, histograms[i]);
      ghost var seen := histograms[..i + 1];
      forall k: nat, b: nat | InGrid(out, k, b)
        ensures IsTotal(out, seen, k, b)
      {
        hide At;
        assert seen[..i] == histograms[..i] && InGrid(before, k, b);
        assert IsSum(out, before, histograms[i], k, b) && IsTotal(before, histograms[..i], k, b);
      }
    }
    assert histograms[..|histograms|] == histograms;
    if OneGrid(histograms) {
      TotalEverywhere(out, histograms);
    }
    r := Some(out);
  }

  /** Histograms of one grid hold nothing outside it, and neither does their sum. */
  lemma TotalEverywhere(out: Histogram, histograms: seq<Histogram>)
    requires histograms != [] && OneGrid(histograms) && Valid(out) && SameGrid(out, histograms[0])
    requires forall k: nat, b: nat | InGrid(out, k, b) :: IsTotal(out, histograms, k, b)
    ensures forall k: nat, b: nat :: IsTotal(out, histograms, k, b)
  {
    hide At, SumAt;
    forall k: nat, b: nat
      ensures IsTotal(out, histograms, k, b)
    {
      if !InGrid(out, k, b) {
        OutsideIsNothing(out, k, b);
        OutsideSum(histograms, out, k, b);
      }
    }
  }

  lemma {:induction false} SumOfPairs(xs: seq<Histogram>, ys: seq<Histogram>, zs: seq<Histogram>, k: nat, b: nat)
    requires |xs| == |ys| == |zs| && forall d | 0 <= d < |xs| :: IsSum(zs[d], xs[d], ys[d], k, b)
    ensures SumAt(zs, k, b) == SumAt(xs, k, b) + SumAt(ys, k, b)
    decreases |xs|
  {
    hide At;
    if xs != [] {
      var n := |xs| - 1;
      SumOfPairs(xs[..n], ys[..n], zs[..n], k, b);
      assert IsSum(zs[n], xs[n], ys[n], k, b);
    }
  }

  ghost predicate PairwiseSum(zs: seq<Histogram>, xs: seq<Histogram>, ys: seq<Histogram>) {
    |zs| == |xs| == |ys| && forall d, k: nat, b: nat | 0 <= d < |zs| :: IsSum(zs[d], xs[d], ys[d], k, b)
  }

  /** Direction by direction the sum, on the grid of the running histogram. */
  ghost predicate SumsWithin(zs: seq<Histogram>, xs: seq<Histogram>, ys: seq<Histogram>, n: nat) {
    && |zs| == |xs| && n <= |xs| && n <= |ys|
    && (forall d | 0 <= d < |zs| :: Valid(zs[d]) && SameGrid(zs[d], xs[d]))
    && (forall d, k: nat, b: nat | 0 <= d < n && InGrid(zs[d], k, b) :: IsSum(zs[d], xs[d], ys[d], k, b))
    && (forall d | n <= d < |zs| :: zs[d] == xs[d])
  }

  /** Adds one path's directional histograms to the running ones, index by index. */
  method AccumulateDirectional(running: seq<Histogram>, next: seq<Histogram>) returns (r: Result<seq<Histogram>>)
    requires (forall d | 0 <= d < |running| :: Valid(running[d])) && forall d | 0 <= d < |next| :: Valid(next[d])
    ensures r.Err? <==> running != [] && next != [] && |running| != |next|
    ensures r.Ok? && next == [] ==> r.value == running
    ensures r.Ok? && running == [] ==> r.value == next
    ensures r.Ok? && running != [] && next != [] ==> SumsWithin(r.value, running, next, |running|)
    ensures r.Ok? && running != [] && next != [] && OneGrid(running + next) ==> PairwiseSum(r.value, running, next)
    ensures r.Ok? && OneGrid(running + next) ==> forall d | 0 <= d < |r.value| :: Valid(r.value[d]) && SameGrid(r.value[d], (running + next)[0])
  {
    if next == [] {
      assert running + next == running;
      return Ok(running);
    }
    if running == [] {
      assert running + next == next;
      return Ok(next);
    }
    if |running| != |next| {
      return Err("directivity group counts differ");
    }
    var out := running;
    for i := 0 to |next|
      invariant SumsWithin(out, running, next, i)
    {
      var sum := SumHistograms([out[i], next[i]]);
      PairTotal(sum.value, out[i], next[i]);
      out := out[i := sum.value];
    }
    if OneGrid(running + next) {
      SumsEverywhere(out, running, next);
    }
    r := Ok(out);
  }

  lemma SumEverywhere(z: Histogram, x: Histogram, y: Histogram, k: nat, b: nat)
    requires Valid(z) && Valid(x) && Valid(y) && SameGrid(z, x) && SameGrid(y, x)
    requires InGrid(z, k, b) ==> IsSum(z, x, y, k, b)
    ensures IsSum(z, x, y, k, b)
  {
  }

  lemma SumsEverywhere(zs: seq<Histogram>, xs: seq<Histogram>, ys: seq<Histogram>)
    requires |xs| == |ys| > 0 && SumsWithin(zs, xs, ys, |xs|) && OneGrid(xs + ys)
    ensures PairwiseSum(zs, xs, ys) && forall d | 0 <= d < |zs| :: SameGrid(zs[d], (xs + ys)[0])
  {
    hide IsSum, Valid, InGrid;
    var all := xs + ys;
    forall d | 0 <= d < |zs|
      ensures SameGrid(zs[d], all[0]) && forall k: nat, b: nat :: IsSum(zs[d], xs[d], ys[d], k, b)
    {
      assert all[d] == xs[d] && all[|xs| + d] == ys[d];
      forall k: nat, b: nat
        ensures IsSum(zs[d], xs[d], ys[d], k, b)
      {
        SumEverywhere(zs[d], xs[d], ys[d], k, b);
      }
    }
  }

  lemma PairTotal(r: Histogram, x: Histogram, y: Histogram)
    requires forall k: nat, b: nat | InGrid(r, k, b) :: IsTotal(r, [x, y], k, b)
    ensures forall k: nat, b: nat | InGrid(r, k, b) :: IsSum(r, x, y, k, b)
  {
    forall k: nat, b: nat | InGrid(r, k, b)
      ensures IsSum(r, x, y, k, b)
    {
      hide At;
      assert IsTotal(r, [x, y], k, b);
      assert [x, y][..1] == [x] && [x][..0] == [];
      assert SumAt([x], k, b) == At(x, k, b);
    }
  }

  /** Adding up two totals and, direction by direction, their histograms keeps them adding up. */
  lemma SumsAddUp(total: Histogram, groups: seq<Histogram>, x: Histogram, xs: seq<Histogram>, y: Histogram, ys: seq<Histogram>)
    requires AddsUp(x, xs) && AddsUp(y, ys) && SameGrid(total, x) && SameGrid(x, y) && Valid(total)
    requires (forall k: nat, b: nat :: IsSum(total, x, y, k, b)) && PairwiseSum(groups, xs, ys)
    requires forall d | 0 <= d < |groups| :: Valid(groups[d]) && SameGrid(groups[d], x)
    ensures AddsUp(total, groups)
  {
    hide At, SumAt;
    forall k: nat, b: nat
      ensures Balanced(total, groups, k, b)
    {
      assert IsSum(total, x, y, k, b) && Balanced(x, xs, k, b) && Balanced(y, ys, k, b);
      SumOfPairs(xs, ys, groups, k, b);
    }
  }
}
