/** Composing the directional late field along paths and over paths (crossroom/paths.go), and the
    arrival probabilities derived from it (raytrace/directivity_group.go). */
module LateField {
  import opened Histograms
  import opened Wrappers

  /** What a hop contributes to the late field: its energy, if it was traced, and the same energy
      split by arrival direction. */
  datatype LateFactor = LateFactor(late: Option<Histogram>, groups: seq<Histogram>)

  ghost predicate ValidFactor(f: LateFactor) {
    && (f.late.Some? ==> Valid(f.late.value))
    && forall d | 0 <= d < |f.groups| :: Valid(f.groups[d])
  }

  /** The hop was traced with directions, and they add up. */
  ghost predicate Directional(f: LateFactor) {
    f.late.Some? && f.groups != [] && AddsUp(f.late.value, f.groups)
  }

  // ---------- One path ----------

  /** Every hop up to `i` was traced. */
  ghost predicate Traced(factors: seq<LateFactor>, gains: seq<seq<real>>, i: nat) {
    i < |factors| && i <= |gains| && forall j | 0 <= j <= i :: factors[j].late.Some?
  }

  function GainAt(gains: seq<real>, b: nat): real {
    if b < |gains| then gains[b] else 0.0
  }

  /** The late energy of the composed path at one bin of one band, `i` portals from the source: every
      portal multiplies by its transmission and convolves with the hop behind it. */
  ghost function LateAt(factors: seq<LateFactor>, gains: seq<seq<real>>, k: int, b: nat, i: nat): real
    requires Traced(factors, gains, i)
    decreases i, 1, 0
  {
    if i == 0 then At(factors[0].late.value, k, b)
    else if k < 0 then 0.0
    else LateTerms(factors, gains, k, b, i, k + 1)
  }

  ghost function LateTerms(factors: seq<LateFactor>, gains: seq<seq<real>>, k: int, b: nat, i: nat, m: nat): real
    requires 0 < i && Traced(factors, gains, i)
    decreases i, 0, m
  {
    if m == 0 then 0.0
    else LateTerms(factors, gains, k, b, i, m - 1)
         + LateAt(factors, gains, m - 1, b, i - 1) * GainAt(gains[i - 1], b) * At(factors[i].late.value, k - (m - 1), b)
  }

  /** Within its duration the histogram is the composed path. */
  ghost predicate IsComposed(h: Histogram, factors: seq<LateFactor>, gains: seq<seq<real>>, i: nat) {
    && Traced(factors, gains, i) && Valid(h) && SameGrid(h, factors[0].late.value)
    && forall k: nat, b: nat | k < |h.bins| && b < h.bandCount :: LateIs(h, factors, gains, k, b, i)
  }

  ghost predicate LateIs(h: Histogram, factors: seq<LateFactor>, gains: seq<seq<real>>, k: nat, b: nat, i: nat)
    requires Traced(factors, gains, i)
  {
    At(h, k, b) == LateAt(factors, gains, k, b, i)
  }

  /** The path up to the portal into hop `i`, behind that portal. */
  ghost predicate IsUpstream(h: Histogram, factors: seq<LateFactor>, gains: seq<seq<real>>, i: nat) {
    && i > 0 && Traced(factors, gains, i - 1) && i - 1 < |gains| && Valid(h) && SameGrid(h, factors[0].late.value)
    && forall k: nat, b: nat | k < |h.bins| && b < h.bandCount :: UpstreamIs(h, factors, gains, k, b, i)
  }

  ghost predicate UpstreamIs(h: Histogram, factors: seq<LateFactor>, gains: seq<seq<real>>, k: nat, b: nat, i: nat)
    requires i > 0 && Traced(factors, gains, i - 1) && i - 1 < |gains|
  {
    At(h, k, b) == LateAt(factors, gains, k, b, i - 1) * GainAt(gains[i - 1], b)
  }

  lemma PortalScales(running: Histogram, scaled: Histogram, factors: seq<LateFactor>, gains: seq<seq<real>>, i: nat)
    requires i > 0 && IsComposed(running, factors, gains, i - 1) && i - 1 < |gains| && |gains[i - 1]| == running.bandCount
    requires Valid(scaled) && SameGrid(scaled, running)
    requires forall k: nat, b: nat | b < |gains[i - 1]| :: At(scaled, k, b) == At(running, k, b) * gains[i - 1][b]
    ensures IsUpstream(scaled, factors, gains, i)
  {
    hide LateAt, At;
    forall k: nat, b: nat | k < |scaled.bins| && b < scaled.bandCount
      ensures UpstreamIs(scaled, factors, gains, k, b, i)
    {
      assert LateIs(running, factors, gains, k, b, i - 1);
    }
  }

  lemma {:induction false} TermsFollow(scaled: Histogram, factors: seq<LateFactor>, gains: seq<seq<real>>, i: nat, k: nat, b: nat, m: nat)
    requires IsUpstream(scaled, factors, gains, i) && Traced(factors, gains, i) && k < |scaled.bins| && b < scaled.bandCount && m <= k + 1
    ensures ConvAt(scaled, factors[i].late.value, k, b, m) == LateTerms(factors, gains, k, b, i, m)
    decreases m
  {
    hide LateAt, At, GainAt;
    if m > 0 {
      TermsFollow(scaled, factors, gains, i, k, b, m - 1);
      assert UpstreamIs(scaled, factors, gains, m - 1, b, i);
    }
  }

  lemma HopFollows(scaled: Histogram, out: Histogram, factors: seq<LateFactor>, gains: seq<seq<real>>, i: nat)
    requires IsUpstream(scaled, factors, gains, i) && Traced(factors, gains, i) && IsConvolution(out, scaled, factors[i].late.value)
    ensures IsComposed(out, factors, gains, i)
  {
    hide LateTerms, ConvAt;
    forall k: nat, b: nat | k < |out.bins| && b < out.bandCount
      ensures LateIs(out, factors, gains, k, b, i)
    {
      TermsFollow(scaled, factors, gains, i, k, b, k + 1);
    }
  }

  /** The path with only one direction of its last hop. */
  function Toward(factors: seq<LateFactor>, direction: Histogram): (r: seq<LateFactor>)
    requires factors != []
    ensures |r| == |factors|
  {
    factors[|factors| - 1 := LateFactor(Some(direction), [])]
  }

  /** What comes before the last hop does not depend on the direction. */
  lemma {:induction false} SameUpstream(factors: seq<LateFactor>, gains: seq<seq<real>>, direction: Histogram, k: int, b: nat, i: nat)
    requires i < |factors| - 1 && Traced(factors, gains, i)
    ensures Traced(Toward(factors, direction), gains, i)
    ensures LateAt(Toward(factors, direction), gains, k, b, i) == LateAt(factors, gains, k, b, i)
    decreases i, 1, 0
  {
    if i > 0 && k >= 0 {
      SameTerms(factors, gains, direction, k, b, i, k + 1);
    }
  }

  lemma {:induction false} SameTerms(factors: seq<LateFactor>, gains: seq<seq<real>>, direction: Histogram, k: int, b: nat, i: nat, m: nat)
    requires 0 < i < |factors| - 1 && Traced(factors, gains, i)
    ensures Traced(Toward(factors, direction), gains, i)
    ensures LateTerms(Toward(factors, direction), gains, k, b, i, m) == LateTerms(factors, gains, k, b, i, m)
    decreases i, 0, m
  {
    hide LateAt, At, GainAt;
    if m > 0 {
      SameTerms(factors, gains, direction, k, b, i, m - 1);
      SameUpstream(factors, gains, direction, m - 1, b, i - 1);
    }
  }

  /** A direction of the last hop, convolved with what comes before, is the path toward it. */
  lemma DirectionFollows(scaled: Histogram, out: Histogram, factors: seq<LateFactor>, gains: seq<seq<real>>, direction: Histogram)
    requires |factors| > 1 && IsUpstream(scaled, factors, gains, |factors| - 1) && IsConvolution(out, scaled, direction)
    ensures IsComposed(out, Toward(factors, direction), gains, |factors| - 1)
  {
    hide LateAt, At, ConvAt;
    var i := |factors| - 1;
    forall k: nat, b: nat | k < |scaled.bins| && b < scaled.bandCount
      ensures Traced(Toward(factors, direction), gains, i - 1) && UpstreamIs(scaled, Toward(factors, direction), gains, k, b, i)
    {
      SameUpstream(factors, gains, direction, k, b, i - 1);
      assert UpstreamIs(scaled, factors, gains, k, b, i);
    }
    HopFollows(scaled, out, Toward(factors, direction), gains, i);
  }

  /** Hop `i` can be folded into the path: its portal has a gain per band, and the grids match. */
  ghost predicate Folds(factors: seq<LateFactor>, gains: seq<seq<real>>, i: nat)
    requires 0 < i && Traced(factors, gains, i)
  {
    |gains[i - 1]| == factors[0].late.value.bandCount && Convolvable(factors[0].late.value, factors[i].late.value)
  }

  /** Every hop before the first untraced one can be folded, and so can the directions of the last. */
  ghost predicate Composable(factors: seq<LateFactor>, gains: seq<seq<real>>) {
    && (forall i: nat | 0 < i && Traced(factors, gains, i) :: Folds(factors, gains, i))
    && (|factors| > 1 && Traced(factors, gains, |factors| - 1) ==>
          var first, groups := factors[0].late.value, factors[|factors| - 1].groups;
          forall d | 0 <= d < |groups| :: Convolvable(first, groups[d]))
  }

  ghost predicate AllConvolutions(outs: seq<Histogram>, u: Histogram, groups: seq<Histogram>) {
    |outs| == |groups| && forall d | 0 <= d < |groups| :: IsConvolution(outs[d], u, groups[d])
  }

  /** Convolves every direction of the last hop with what comes before it. */
  method ComposeDirectional(groups: seq<Histogram>, upstream: Option<Histogram>) returns (r: Result<seq<Histogram>>)
    requires (forall d | 0 <= d < |groups| :: Valid(groups[d])) && (upstream.Some? ==> Valid(upstream.value))
    ensures upstream.None? ==> r == Ok(groups)
    ensures upstream.Some? && r.Ok? ==> AllConvolutions(r.value, upstream.value, groups)
    ensures upstream.Some? ==> (r.Ok? <==> forall d | 0 <= d < |groups| :: Convolvable(upstream.value, groups[d]))
  {
    var composed: seq<Histogram> := [];
    for d := 0 to |groups|
      invariant |composed| == d
      invariant upstream.None? ==> composed == groups[..d]
      invariant upstream.Some? ==> forall e | 0 <= e < d :: Convolvable(upstream.value, groups[e])
      invariant upstream.Some? ==> forall e | 0 <= e < d :: IsConvolution(composed[e], upstream.value, groups[e])
    {
      if upstream.None? {
        composed := composed + [groups[d]];
      } else {
        var folded := ConvolveHistograms(upstream.value, groups[d]);
        if folded.Err? {
          return Err(folded.error);
        }
        composed := composed + [folded.value];
      }
    }
    assert groups[..|groups|] == groups;
    r := Ok(composed);
  }

  /** A composed path: the total and its split by direction. */
  datatype PathLate = PathLate(total: Option<Histogram>, directional: seq<Histogram>)

  /** The directional histograms are the path toward each direction of the last hop. */
  ghost predicate AreDirections(directional: seq<Histogram>, factors: seq<LateFactor>, gains: seq<seq<real>>)
    requires factors != []
  {
    var groups := factors[|factors| - 1].groups;
    |directional| == |groups| && forall d | 0 <= d < |groups| :: IsComposed(directional[d], Toward(factors, groups[d]), gains, |factors| - 1)
  }

  lemma DirectionsFollow(upstream: Option<Histogram>, directional: seq<Histogram>, factors: seq<LateFactor>, gains: seq<seq<real>>)
    requires factors != [] && |gains| == |factors| - 1 && ValidFactor(factors[|factors| - 1])
    requires upstream.None? ==> |factors| == 1 && directional == factors[0].groups
    requires upstream.Some? ==> |factors| > 1 && IsUpstream(upstream.value, factors, gains, |factors| - 1)
    requires upstream.Some? ==> AllConvolutions(directional, upstream.value, factors[|factors| - 1].groups)
    ensures AreDirections(directional, factors, gains)
  {
    hide At, LateTerms, IsUpstream, IsConvolution;
    var groups := factors[|factors| - 1].groups;
    forall d | 0 <= d < |groups|
      ensures IsComposed(directional[d], Toward(factors, groups[d]), gains, |factors| - 1)
    {
      if upstream.Some? {
        hide IsComposed;
        DirectionFollows(upstream.value, directional[d], factors, gains, groups[d]);
      } else {
        assert Toward(factors, groups[d])[0].late == Some(groups[d]);
      }
    }
  }

  /** Folds a path's late factors, scaling at every portal, and carries the last hop's directions
      through the same scaling and convolution. */
  method ComposePathLate(factors: seq<LateFactor>, gains: seq<seq<real>>) returns (r: Result<PathLate>)
    requires factors != [] && |gains| == |factors| - 1 && forall i | 0 <= i < |factors| :: ValidFactor(factors[i])
    ensures r.Ok? <==> Composable(factors, gains)
    ensures r.Ok? ==> (r.value.total.Some? <==> Traced(factors, gains, |factors| - 1))
    ensures r.Ok? && r.value.total.None? ==> r.value.directional == []
    ensures r.Ok? && r.value.total.Some? ==> IsComposed(r.value.total.value, factors, gains, |factors| - 1)
    ensures r.Ok? && r.value.total.Some? ==> AreDirections(r.value.directional, factors, gains)
    ensures r.Ok? && r.value.total.Some? && Directional(factors[|factors| - 1]) ==> AddsUp(r.value.total.value, r.value.directional)
  {
    hide LateAt, At, AddsUp, AreDirections, AllConvolutions, Valid;
    if factors[0].late.None? {
      return Ok(PathLate(None, []));
    }
    var running, upstream := factors[0].late.value, None;
    StartsComposed(factors, gains);
    for i := 1 to |factors|
      invariant IsComposed(running, factors, gains, i - 1) && Valid(running)
      invariant forall j: nat | 0 < j < i :: Traced(factors, gains, j) && Folds(factors, gains, j)
      invariant i == 1 ==> running == factors[0].late.value
      invariant i == 1 || i < |factors| ==> upstream == None
      invariant 1 < i == |factors| ==> upstream.Some? && IsUpstream(upstream.value, factors, gains, i - 1) && Valid(upstream.value)
      invariant 1 < i == |factors| ==> IsConvolution(running, upstream.value, factors[i - 1].late.value)
    {
      hide IsUpstream, IsConvolution;
      if factors[i].late.None? {
        return Ok(PathLate(None, []));
      }
      assert Traced(factors, gains, i);
      var scaled := ScaleHistogram(running, gains[i - 1]);
      if scaled.Err? {
        assert !Folds(factors, gains, i);
        return Err(scaled.error);
      }
      PortalScales(running, scaled.value, factors, gains, i);
      if i == |factors| - 1 {
        upstream := Some(scaled.value);
      }
      var folded := ConvolveHistograms(scaled.value, factors[i].late.value);
      if folded.Err? {
        assert !Folds(factors, gains, i);
        return Err(folded.error);
      }
      HopFollows(scaled.value, folded.value, factors, gains, i);
      running := folded.value;
    }
    var last := factors[|factors| - 1];
    var directional := ComposeDirectional(last.groups, upstream);
    if directional.Err? {
      return Err(directional.error);
    }
    DirectionsFollow(upstream, directional.value, factors, gains);
    DirectionsAddUp(last, upstream, running, directional.value);
    r := Ok(PathLate(Some(running), directional.value));
  }

  lemma StartsComposed(factors: seq<LateFactor>, gains: seq<seq<real>>)
    requires factors != [] && factors[0].late.Some? && Valid(factors[0].late.value)
    ensures IsComposed(factors[0].late.value, factors, gains, 0)
  {
  }

  lemma DirectionsAddUp(last: LateFactor, upstream: Option<Histogram>, total: Histogram, directional: seq<Histogram>)
    requires last.late.Some?
    requires upstream.None? ==> total == last.late.value && directional == last.groups
    requires upstream.Some? ==> Valid(upstream.value) && IsConvolution(total, upstream.value, last.late.value)
    requires upstream.Some? ==> AllConvolutions(directional, upstream.value, last.groups)
    ensures Directional(last) ==> AddsUp(total, directional)
  {
    if upstream.Some? && Directional(last) {
      ConvolutionAddsUp(upstream.value, last.late.value, last.groups, total, directional);
    }
  }

  // ---------- All paths ----------

  ghost predicate OnGrid(hs: seq<Histogram>, grid: Histogram) {
    forall d | 0 <= d < |hs| :: Valid(hs[d]) && SameGrid(hs[d], grid)
  }

  /** The totals of the paths so far and the directions so far hold the same energy. */
  ghost predicate InStep(totals: seq<Histogram>, directional: seq<Histogram>) {
    forall k: nat, b: nat :: SameSum(totals, directional, k, b)
  }

  ghost predicate SameSum(totals: seq<Histogram>, directional: seq<Histogram>, k: nat, b: nat) {
    SumAt(totals, k, b) == SumAt(directional, k, b)
  }

  lemma StayInStep(totals: seq<Histogram>, directional: seq<Histogram>, h: Histogram, split: seq<Histogram>, next: seq<Histogram>)
    requires InStep(totals, directional) && AddsUp(h, split)
    requires if directional == [] then next == split else PairwiseSum(next, directional, split)
    ensures InStep(totals + [h], next)
  {
    hide At;
    var totals' := totals + [h];
    forall k: nat, b: nat
      ensures SameSum(totals', next, k, b)
    {
      assert SameSum(totals, directional, k, b) && Balanced(h, split, k, b);
      assert totals'[..|totals|] == totals;
      if directional != [] {
        SumOfPairs(directional, split, next, k, b);
      }
    }
  }

  lemma TotalAddsUp(total: Histogram, totals: seq<Histogram>, directional: seq<Histogram>, grid: Histogram)
    requires Valid(total) && SameGrid(total, grid) && InStep(totals, directional) && OnGrid(directional, grid)
    requires forall k: nat, b: nat :: IsTotal(total, totals, k, b)
    ensures AddsUp(total, directional)
  {
    hide At, SumAt;
    forall k: nat, b: nat
      ensures Balanced(total, directional, k, b)
    {
      assert IsTotal(total, totals, k, b) && SameSum(totals, directional, k, b);
    }
  }

  datatype Path = Path(factors: seq<LateFactor>, gains: seq<seq<real>>)

  /** The path's hops are on the common grid, and a path that can be heard ends in a hop traced with `groups` directions. */
  ghost predicate UsablePath(p: Path, grid: Histogram, groups: nat) {
    && p.factors != [] && |p.gains| == |p.factors| - 1
    && (forall i | 0 <= i < |p.factors| :: ValidFactor(p.factors[i]))
    && (forall i | 0 <= i < |p.factors| && p.factors[i].late.Some? :: SameGrid(p.factors[i].late.value, grid))
    && (p.factors[|p.factors| - 1].late.Some? ==> Directional(p.factors[|p.factors| - 1]) && |p.factors[|p.factors| - 1].groups| == groups)
  }

  ghost predicate Heard(p: Path) {
    p.factors != [] && Traced(p.factors, p.gains, |p.factors| - 1)
  }

  /** The late energy of the first `n` paths together. */
  ghost function SumLate(paths: seq<Path>, k: nat, b: nat, n: nat): real
    requires n <= |paths|
  {
    if n == 0 then 0.0
    else SumLate(paths, k, b, n - 1) + PathEnergy(paths[n - 1], k, b)
  }

  ghost function PathEnergy(p: Path, k: nat, b: nat): real {
    if Heard(p) then LateAt(p.factors, p.gains, k, b, |p.factors| - 1) else 0.0
  }

  /** The path with only direction `d` of its last hop. */
  function PathToward(p: Path, d: nat): Path {
    if p.factors != [] && d < |p.factors[|p.factors| - 1].groups| && p.factors[|p.factors| - 1].late.Some?
    then Path(Toward(p.factors, p.factors[|p.factors| - 1].groups[d]), p.gains) else p
  }

  function PathsToward(paths: seq<Path>, d: nat): (r: seq<Path>)
    ensures |r| == |paths|
  {
    seq(|paths|, i requires 0 <= i < |paths| => PathToward(paths[i], d))
  }

  /** Within the grid the histogram is the late energy of the first `n` paths. */
  ghost predicate IsSumOf(h: Histogram, paths: seq<Path>, n: nat)
    requires n <= |paths|
  {
    forall k: nat, b: nat | k < |h.bins| && b < h.bandCount :: At(h, k, b) == SumLate(paths, k, b, n)
  }

  ghost predicate OnBins(grid: Histogram, k: nat, b: nat) {
    k < BinCount(grid.duration, grid.binDuration, grid.bandCount) && b < grid.bandCount
  }

  ghost predicate TotalsAre(totals: seq<Histogram>, paths: seq<Path>, grid: Histogram, n: nat)
    requires n <= |paths|
  {
    forall k: nat, b: nat | OnBins(grid, k, b) :: SumAt(totals, k, b) == SumLate(paths, k, b, n)
  }

  ghost predicate DirectionsAre(directional: seq<Histogram>, groups: nat, paths: seq<Path>, grid: Histogram, n: nat)
    requires n <= |paths|
  {
    forall d: nat, k: nat, b: nat | d < groups && OnBins(grid, k, b) :: DirectionIs(directional, paths, d, k, b, n)
  }

  ghost predicate DirectionIs(directional: seq<Histogram>, paths: seq<Path>, d: nat, k: nat, b: nat, n: nat)
    requires n <= |paths|
  {
    SumLate(PathsToward(paths, d), k, b, n) == if d < |directional| then At(directional[d], k, b) else 0.0
  }

  lemma TotalsGrow(totals: seq<Histogram>, h: Histogram, paths: seq<Path>, grid: Histogram, n: nat)
    requires n < |paths| && TotalsAre(totals, paths, grid, n) && Heard(paths[n]) && Valid(h) && SameGrid(h, grid)
    requires IsComposed(h, paths[n].factors, paths[n].gains, |paths[n].factors| - 1)
    ensures TotalsAre(totals + [h], paths, grid, n + 1)
  {
    hide At, LateAt;
    var totals' := totals + [h];
    forall k: nat, b: nat | OnBins(grid, k, b)
      ensures SumAt(totals', k, b) == SumLate(paths, k, b, n + 1)
    {
      assert totals'[..|totals|] == totals;
      assert LateIs(h, paths[n].factors, paths[n].gains, k, b, |paths[n].factors| - 1);
    }
  }

  lemma SilentPath(totals: seq<Histogram>, directional: seq<Histogram>, groups: nat, paths: seq<Path>, grid: Histogram, n: nat)
    requires n < |paths| && !Heard(paths[n])
    requires TotalsAre(totals, paths, grid, n) && DirectionsAre(directional, groups, paths, grid, n)
    ensures TotalsAre(totals, paths, grid, n + 1) && DirectionsAre(directional, groups, paths, grid, n + 1)
  {
    hide At, SumAt, LateAt;
    var m := n + 1;
    forall d: nat, k: nat, b: nat | d < groups && OnBins(grid, k, b)
      ensures DirectionIs(directional, paths, d, k, b, m)
    {
      assert DirectionIs(directional, paths, d, k, b, n);
      SilentToward(paths[n], d);
    }
  }

  lemma SilentToward(p: Path, d: nat)
    ensures Heard(PathToward(p, d)) <==> Heard(p)
  {
    if Heard(PathToward(p, d)) {
      var q := PathToward(p, d);
      forall j | 0 <= j < |p.factors|
        ensures p.factors[j].late.Some?
      {
        assert q.factors[j].late.Some?;
      }
    }
  }

  /** What one more path adds to a direction. */
  lemma DirectionGrows(directional: seq<Histogram>, next: seq<Histogram>, composed: seq<Histogram>, paths: seq<Path>, grid: Histogram,
                       groups: nat, n: nat, d: nat, k: nat, b: nat)
    requires n < |paths| && UsablePath(paths[n], grid, groups) && Heard(paths[n]) && d < groups && OnBins(grid, k, b)
    requires DirectionIs(directional, paths, d, k, b, n) && (directional == [] || |directional| == groups)
    requires AreDirections(composed, paths[n].factors, paths[n].gains) && OnGrid(composed, grid)
    requires if directional == [] then next == composed else PairwiseSum(next, directional, composed)
    ensures DirectionIs(next, paths, d, k, b, n + 1)
  {
    hide At, LateAt;
    var p, q := paths[n], PathToward(paths[n], d);
    var last := |p.factors| - 1;
    assert IsComposed(composed[d], Toward(p.factors, p.factors[last].groups[d]), p.gains, last);
    assert q.factors == Toward(p.factors, p.factors[last].groups[d]) && PathsToward(paths, d)[n] == q;
    assert LateIs(composed[d], q.factors, q.gains, k, b, last);
    if directional != [] {
      assert IsSum(next[d], directional[d], composed[d], k, b);
    }
  }

  lemma DirectionsGrow(directional: seq<Histogram>, next: seq<Histogram>, composed: seq<Histogram>, paths: seq<Path>, grid: Histogram,
                       groups: nat, n: nat)
    requires n < |paths| && UsablePath(paths[n], grid, groups) && Heard(paths[n]) && DirectionsAre(directional, groups, paths, grid, n)
    requires directional == [] || |directional| == groups
    requires AreDirections(composed, paths[n].factors, paths[n].gains) && OnGrid(composed, grid)
    requires if directional == [] then next == composed else PairwiseSum(next, directional, composed)
    ensures DirectionsAre(next, groups, paths, grid, n + 1)
  {
    hide DirectionIs, AreDirections, UsablePath, PairwiseSum, Heard;
    var m := n + 1;
    forall d: nat, k: nat, b: nat | d < groups && OnBins(grid, k, b)
      ensures DirectionIs(next, paths, d, k, b, m)
    {
      DirectionGrows(directional, next, composed, paths, grid, groups, n, d, k, b);
    }
  }

  /** Renders and sums the directional late field of every path. Total and directions are the sums
      over the paths that can be heard; they add up, bin by bin and band by band, and the
      probabilities of each slot sum to one. */
  method SumLateHistograms(paths: seq<Path>, ghost grid: Histogram, ghost groups: nat)
    returns (r: Result<Histogram>, directional: seq<Histogram>, probabilities: Option<seq<seq<real>>>)
    requires groups > 0 && forall i | 0 <= i < |paths| :: UsablePath(paths[i], grid, groups)
    ensures r.Ok? <==> (forall i | 0 <= i < |paths| :: Composable(paths[i].factors, paths[i].gains)) && exists i :: 0 <= i < |paths| && Heard(paths[i])
    ensures r.Ok? ==> IsSumOf(r.value, paths, |paths|) && |directional| == groups
    ensures r.Ok? ==> forall d: nat | d < groups :: IsSumOf(directional[d], PathsToward(paths, d), |paths|)
    ensures r.Ok? ==> AddsUp(r.value, directional)
    ensures r.Ok? ==> (probabilities.Some? <==> |r.value.bins| > 0)
    ensures r.Ok? && probabilities.Some? ==> SumToOne(probabilities.value, groups)
    ensures r.Ok? && probabilities.Some? ==>
              forall k: nat | k < |probabilities.value[0]| :: SharesOfSlot(Column(probabilities.value, k), Energies(directional, k))
  {
    hide At, SumAt, AddsUp, IsTotal, TotalsAre, DirectionsAre, Composable, IsComposed, AreDirections, Traced;
    var totals: seq<Histogram> := [];
    directional, probabilities := [], None;
    NothingInStep();
    NothingYet(paths, grid, groups);
    for i := 0 to |paths|
      invariant OnGrid(totals, grid) && OnGrid(directional, grid) && InStep(totals, directional)
      invariant |directional| == if totals == [] then 0 else groups
      invariant TotalsAre(totals, paths, grid, i) && DirectionsAre(directional, groups, paths, grid, i)
      invariant forall j | 0 <= j < i :: Composable(paths[j].factors, paths[j].gains)
      invariant totals != [] <==> exists j :: 0 <= j < i && Heard(paths[j])
    {
      var composed := ComposePathLate(paths[i].factors, paths[i].gains);
      if composed.Err? {
        return Err(composed.error), [], None;
      }
      if composed.value.total.Some? {
        HeardIsDirectional(paths[i], grid, groups);
        PathOnGrid(paths[i], grid, groups, composed.value);
        var accumulated := AccumulateDirectional(directional, composed.value.directional);
        StayInStep(totals, directional, composed.value.total.value, composed.value.directional, accumulated.value);
        TotalsGrow(totals, composed.value.total.value, paths, grid, i);
        DirectionsGrow(directional, accumulated.value, composed.value.directional, paths, grid, groups, i);
        totals := totals + [composed.value.total.value];
        directional := accumulated.value;
      } else {
        SilentPath(totals, directional, groups, paths, grid, i);
      }
    }
    var summed := SumHistograms(totals);
    if summed.None? {
      return Err("no late field was rendered"), [], None;
    }
    TotalAddsUp(summed.value, totals, directional, grid);
    SumsArePaths(summed.value, totals, directional, groups, paths, grid);
    probabilities := Probabilities(directional);
    assert probabilities.Some? <==> |summed.value.bins| > 0 by {
      EqualSlots(summed.value, directional, grid);
    }
    r := Ok(summed.value);
  }

  lemma EqualSlots(total: Histogram, directional: seq<Histogram>, grid: Histogram)
    requires Valid(total) && SameGrid(total, grid) && OnGrid(directional, grid) && directional != []
    ensures |total.bins| > 0 <==> exists d :: 0 <= d < |directional| && |directional[d].bins| > 0
  {
    assert |directional[0].bins| == |total.bins|;
  }

  lemma NothingYet(paths: seq<Path>, grid: Histogram, groups: nat)
    ensures TotalsAre([], paths, grid, 0) && DirectionsAre([], groups, paths, grid, 0)
  {
  }

  lemma SumsArePaths(total: Histogram, totals: seq<Histogram>, directional: seq<Histogram>, groups: nat, paths: seq<Path>, grid: Histogram)
    requires TotalsAre(totals, paths, grid, |paths|) && DirectionsAre(directional, groups, paths, grid, |paths|)
    requires Valid(total) && SameGrid(total, grid) && (forall k: nat, b: nat :: IsTotal(total, totals, k, b))
    requires |directional| == groups && OnGrid(directional, grid)
    ensures IsSumOf(total, paths, |paths|)
    ensures forall d: nat | d < groups :: IsSumOf(directional[d], PathsToward(paths, d), |paths|)
  {
    hide At, SumAt, SumLate;
    forall k: nat, b: nat | k < |total.bins| && b < total.bandCount
      ensures At(total, k, b) == SumLate(paths, k, b, |paths|)
    {
      assert OnBins(grid, k, b) && IsTotal(total, totals, k, b);
    }
    forall d: nat, k: nat, b: nat | d < groups && k < |directional[d].bins| && b < directional[d].bandCount
      ensures At(directional[d], k, b) == SumLate(PathsToward(paths, d), k, b, |paths|)
    {
      assert OnBins(grid, k, b) && DirectionIs(directional, paths, d, k, b, |paths|);
    }
  }

  lemma NothingInStep()
    ensures InStep([], [])
  {
  }

  lemma HeardIsDirectional(p: Path, grid: Histogram, groups: nat)
    requires UsablePath(p, grid, groups) && Heard(p)
    ensures Directional(p.factors[|p.factors| - 1])
  {
  }

  lemma PathOnGrid(p: Path, grid: Histogram, groups: nat, composed: PathLate)
    requires UsablePath(p, grid, groups) && Heard(p) && composed.total.Some?
    requires IsComposed(composed.total.value, p.factors, p.gains, |p.factors| - 1) && AddsUp(composed.total.value, composed.directional)
    requires AreDirections(composed.directional, p.factors, p.gains)
    ensures Valid(composed.total.value) && SameGrid(composed.total.value, grid) && OnGrid(composed.directional, grid)
    ensures |composed.directional| == groups
  {
    hide At, LateAt, SumAt;
  }

  // ---------- Arrival probabilities ----------

  function SumOf(x: seq<real>): real {
    if x == [] then 0.0 else SumOf(x[..|x| - 1]) + x[|x| - 1]
  }

  function SlotEnergy(h: Histogram, k: nat): real {
    if k >= |h.bins| then 0.0 else SumOf(h.bins[k])
  }

  /** The probabilities of the first `n` directions in slot `k`. */
  function ColumnSum(probs: seq<seq<real>>, k: nat, n: nat): real
    requires n <= |probs| && forall d | 0 <= d < n :: k < |probs[d]|
  {
    if n == 0 then 0.0 else ColumnSum(probs, k, n - 1) + probs[n - 1][k]
  }

  ghost predicate SumToOne(probs: seq<seq<real>>, groups: nat) {
    && |probs| == groups > 0 && (forall d | 0 <= d < groups :: |probs[d]| == |probs[0]|)
    && forall k: nat | k < |probs[0]| :: ColumnSum(probs, k, groups) == 1.0
  }

  method AddUp(x: seq<real>) returns (total: real)
    ensures total == SumOf(x)
  {
    total := 0.0;
    for d := 0 to |x|
      invariant total == SumOf(x[..d])
    {
      assert x[..d + 1][..d] == x[..d];
      total := total + x[d];
    }
    assert x[..|x|] == x;
  }

  ghost predicate IsShare(p: real, total: real, energy: real) {
    p * total == energy
  }

  lemma Append(p: seq<real>, x: real)
    ensures SumOf(p + [x]) == SumOf(p) + x
  {
    assert (p + [x])[..|p|] == p;
  }

  method EqualShares(n: nat) returns (p: seq<real>)
    requires n > 0
    ensures |p| == n && SumOf(p) == 1.0 && forall d | 0 <= d < n :: p[d] == 1.0 / n as real
  {
    var uniform := 1.0 / n as real;
    p := [];
    for d := 0 to n
      invariant |p| == d && SumOf(p) == d as real * uniform && forall e | 0 <= e < d :: p[e] == uniform
    {
      OneMoreShare(d, uniform);
      Append(p, uniform);
      p := p + [uniform];
    }
  }

  method EnergyShares(energies: seq<real>, total: real) returns (p: seq<real>)
    requires total > 0.0 && total == SumOf(energies)
    ensures |p| == |energies| && SumOf(p) == 1.0 && forall d | 0 <= d < |p| :: IsShare(p[d], total, energies[d])
  {
    p := [];
    for d := 0 to |energies|
      invariant |p| == d && IsShare(SumOf(p), total, SumOf(energies[..d])) && forall e | 0 <= e < d :: IsShare(p[e], total, energies[e])
    {
      var share := energies[d] / total;
      OneShare(SumOf(p), share, total, SumOf(energies[..d]), energies[d]);
      hide IsShare;
      Append(p, share);
      Append(energies[..d], energies[d]);
      assert energies[..d + 1] == energies[..d] + [energies[d]];
      p := p + [share];
    }
    assert energies[..|energies|] == energies;
    WholeShare(SumOf(p), total);
  }

  lemma OneShare(s: real, share: real, total: real, seen: real, energy: real)
    requires total > 0.0 && share == energy / total && IsShare(s, total, seen)
    ensures IsShare(share, total, energy) && IsShare(s + share, total, seen + energy)
  {
    ShareOfSum(s, share, total);
  }

  /** One slot's probabilities: its share of the energy, or equal shares of nothing. */
  method SlotProbabilities(energies: seq<real>) returns (p: seq<real>)
    requires energies != []
    ensures |p| == |energies| && SumOf(p) == 1.0
    ensures SumOf(energies) > 0.0 ==> forall d | 0 <= d < |p| :: IsShare(p[d], SumOf(energies), energies[d])
    ensures SumOf(energies) <= 0.0 ==> forall d | 0 <= d < |p| :: p[d] == 1.0 / |energies| as real
  {
    hide IsShare, SumOf;
    var total := AddUp(energies);
    if total <= 0.0 {
      p := EqualShares(|energies|);
    } else {
      p := EnergyShares(energies, total);
    }
  }

  lemma OneMoreShare(d: nat, x: real)
    ensures (d + 1) as real * x == d as real * x + x
  {
  }

  lemma ShareOfSum(s: real, x: real, t: real)
    ensures (s + x) * t == s * t + x * t
  {
  }

  lemma WholeShare(s: real, t: real)
    requires t > 0.0 && IsShare(s, t, t)
    ensures s == 1.0
  {
  }

  lemma {:induction false} ColumnIsRow(columns: seq<seq<real>>, probs: seq<seq<real>>, k: nat, n: nat)
    requires k < |columns| && n <= |columns[k]| == |probs| && forall d | 0 <= d < |probs| :: k < |probs[d]| && probs[d][k] == columns[k][d]
    ensures ColumnSum(probs, k, n) == SumOf(columns[k][..n])
    decreases n
  {
    if n > 0 {
      ColumnIsRow(columns, probs, k, n - 1);
      assert columns[k][..n][..n - 1] == columns[k][..n - 1];
    }
  }

  /** The most bins of any histogram. */
  method SlotCount(histograms: seq<Histogram>) returns (n: nat)
    ensures forall d | 0 <= d < |histograms| :: |histograms[d].bins| <= n
    ensures n == 0 || exists d :: 0 <= d < |histograms| && |histograms[d].bins| == n
  {
    n := 0;
    for d := 0 to |histograms|
      invariant forall e | 0 <= e < d :: |histograms[e].bins| <= n
      invariant n == 0 || exists e :: 0 <= e < d && |histograms[e].bins| == n
    {
      if |histograms[d].bins| > n {
        n := |histograms[d].bins|;
      }
    }
  }

  function Energies(histograms: seq<Histogram>, k: nat): (r: seq<real>)
    ensures |r| == |histograms|
  {
    seq(|histograms|, d requires 0 <= d < |histograms| => SlotEnergy(histograms[d], k))
  }

  /** Where a slot holds energy, every direction gets its share of it. */
  ghost predicate SharesOfSlot(column: seq<real>, energies: seq<real>) {
    && |column| == |energies| && SumOf(column) == 1.0
    && (SumOf(energies) > 0.0 ==> forall d | 0 <= d < |column| :: IsShare(column[d], SumOf(energies), energies[d]))
    && (SumOf(energies) <= 0.0 ==> forall d | 0 <= d < |column| :: column[d] == 1.0 / |energies| as real)
  }

  /** Each slot's energy split by direction, as probabilities. */
  method Probabilities(histograms: seq<Histogram>) returns (probs: Option<seq<seq<real>>>)
    ensures probs.Some? <==> exists d :: 0 <= d < |histograms| && |histograms[d].bins| > 0
    ensures probs.Some? ==> SumToOne(probs.value, |histograms|)
    ensures probs.Some? ==> forall d | 0 <= d < |histograms| :: |histograms[d].bins| <= |probs.value[0]|
    ensures probs.Some? ==> forall k: nat | k < |probs.value[0]| :: SharesOfSlot(Column(probs.value, k), Energies(histograms, k))
  {
    if histograms == [] {
      return None;
    }
    var slots := SlotCount(histograms);
    if slots == 0 {
      return None;
    }
    var columns: seq<seq<real>> := [];
    for k := 0 to slots
      invariant |columns| == k && forall j | 0 <= j < k :: SharesOfSlot(columns[j], Energies(histograms, j))
    {
      var column := SlotProbabilities(Energies(histograms, k));
      columns := columns + [column];
    }
    var rows := Transpose(columns, |histograms|);
    forall k: nat | k < slots
      ensures ColumnSum(rows, k, |histograms|) == 1.0 && Column(rows, k) == columns[k]
    {
      assert SharesOfSlot(columns[k], Energies(histograms, k));
      ColumnIsRow(columns, rows, k, |histograms|);
      assert columns[k][..|histograms|] == columns[k];
    }
    probs := Some(rows);
  }

  function Column(rows: seq<seq<real>>, k: nat): seq<real> {
    seq(|rows|, d requires 0 <= d < |rows| => if k < |rows[d]| then rows[d][k] else 0.0)
  }

  function Transpose(columns: seq<seq<real>>, n: nat): (rows: seq<seq<real>>)
    requires forall k | 0 <= k < |columns| :: |columns[k]| == n
    ensures |rows| == n && forall d | 0 <= d < n :: |rows[d]| == |columns|
    ensures forall d, k | 0 <= d < n && 0 <= k < |columns| :: rows[d][k] == columns[k][d]
  {
    seq(n, d requires 0 <= d < n => seq(|columns|, k requires 0 <= k < |columns| => columns[k][d]))
  }
}
