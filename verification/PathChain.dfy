/** Composing the hops of a path as dense banded responses (hybrid/network.go), and its agreement
    with the sparse composition. */
module PathChain {
  import opened EventComposition
  import opened ImpulseTrains
  import opened Wrappers

  /** Room-group responses in order from the source, the portal gains between them, and the bands
      the path search kept. */
  datatype Chain = Chain(factors: seq<BandedResponse>, gains: seq<seq<real>>, active: seq<bool>) {
    predicate BandActive(band: nat) {
      band >= |active| || active[band]
    }
  }

  // ---------- Linear convolution ----------

  function At(x: seq<real>, i: int): real {
    if 0 <= i < |x| then x[i] else 0.0
  }

  /** A product under its own name, so that a proof can treat sums of products as linear. */
  function Mul(x: real, y: real): real {
    x * y
  }

  function Terms(x: seq<real>, y: seq<real>, n: int, m: nat): real {
    if m == 0 then 0.0 else Terms(x, y, n, m - 1) + Mul(At(x, m - 1), At(y, n - (m - 1)))
  }

  /** The full linear convolution. */
  function Convolve(x: seq<real>, y: seq<real>): (r: seq<real>)
    requires x != [] && y != []
    ensures |r| == |x| + |y| - 1
  {
    seq(|x| + |y| - 1, n requires 0 <= n => Terms(x, y, n, n + 1))
  }

  // ---------- One handoff ----------

  function LengthOf(r: BandedResponse): nat {
    if r.bands == [] then 0 else |r.bands[0]|
  }

  function QuadratureBand(r: BandedResponse, band: nat): seq<real>
    requires band < |r.bands| && (r.quadrature == [] || band < |r.quadrature|)
  {
    if r.quadrature != [] then r.quadrature[band] else seq(|r.bands[band]|, _ => 0.0)
  }

  /** The complex value of a response, silent beyond its end. */
  function ValueOr(r: BandedResponse, band: nat, n: int): Complex
    requires band < |r.bands| && (r.quadrature == [] || band < |r.quadrature|)
  {
    Complex(At(r.bands[band], n), At(QuadratureBand(r, band), n))
  }

  function ValueTerms(a: BandedResponse, c: BandedResponse, band: nat, n: int, m: nat): Complex
    requires band < |a.bands| && (a.quadrature == [] || band < |a.quadrature|)
    requires band < |c.bands| && (c.quadrature == [] || band < |c.quadrature|)
  {
    if m == 0 then NOTHING else ValueTerms(a, c, band, n, m - 1).Plus(ValueOr(a, band, m - 1).Times(ValueOr(c, band, n - (m - 1))))
  }

  lemma PlusTimes(sum: Complex, z: Complex, w: Complex)
    ensures sum.Plus(z.Times(w)).re == sum.re + Mul(z.re, w.re) - Mul(z.im, w.im)
    ensures sum.Plus(z.Times(w)).im == sum.im + Mul(z.re, w.im) + Mul(z.im, w.re)
  {
  }

  /** The complex convolution is made of four real ones. */
  lemma {:induction false} FourConvolutions(a: BandedResponse, c: BandedResponse, band: nat, n: int, m: nat)
    requires band < |a.bands| && (a.quadrature == [] || band < |a.quadrature|)
    requires band < |c.bands| && (c.quadrature == [] || band < |c.quadrature|)
    ensures var ar, ai, cr, ci := a.bands[band], QuadratureBand(a, band), c.bands[band], QuadratureBand(c, band);
            && ValueTerms(a, c, band, n, m).re == Terms(ar, cr, n, m) - Terms(ai, ci, n, m)
            && ValueTerms(a, c, band, n, m).im == Terms(ar, ci, n, m) + Terms(ai, cr, n, m)
    decreases m
  {
    hide QuadratureBand, At, Mul, Complex.Times, Complex.Plus;
    if m > 0 {
      FourConvolutions(a, c, band, n, m - 1);
      PlusTimes(ValueTerms(a, c, band, n, m - 1), ValueOr(a, band, m - 1), ValueOr(c, band, n - (m - 1)));
    }
  }

  lemma {:induction false} SilentTerms(x: seq<real>, y: seq<real>, n: int, m: nat)
    requires (forall i | 0 <= i < |x| :: x[i] == 0.0) || (forall i | 0 <= i < |y| :: y[i] == 0.0)
    ensures Terms(x, y, n, m) == 0.0
    decreases m
  {
    if m > 0 {
      SilentTerms(x, y, n, m - 1);
      assert At(x, m - 1) == 0.0 || At(y, n - (m - 1)) == 0.0;
      ZeroProduct(At(x, m - 1), At(y, n - (m - 1)));
    }
  }

  lemma ZeroProduct(x: real, y: real)
    requires x == 0.0 || y == 0.0
    ensures x * y == 0.0
  {
  }

  function CopyProduct(product: seq<real>, length: nat, gain: real): (r: seq<real>)
    ensures |r| == length
  {
    seq(length, n requires 0 <= n < length => if n < |product| then product[n] * gain else 0.0)
  }

  function Minus(x: seq<real>, y: seq<real>): seq<real>
    requires |x| == |y|
  {
    seq(|x|, n requires 0 <= n < |x| => x[n] - y[n])
  }

  function Added(x: seq<real>, y: seq<real>): seq<real>
    requires |x| == |y|
  {
    seq(|x|, n requires 0 <= n < |x| => x[n] + y[n])
  }

  ghost predicate SameShape(r: BandedResponse, band: nat) {
    && band < |r.bands| && r.bands[band] != []
    && (r.quadrature == [] || (band < |r.quadrature| && |r.quadrature[band]| == |r.bands[band]|))
  }

  /** Folds one band of two factors: one real convolution, or four when there is phase. */
  method ConvolveBand(running: BandedResponse, next: BandedResponse, band: nat, length: nat, gain: real, complexChain: bool)
    returns (inPhase: seq<real>, quadrature: seq<real>)
    requires SameShape(running, band) && SameShape(next, band) && length <= |running.bands[band]| + |next.bands[band]| - 1
    requires complexChain <==> running.quadrature != [] || next.quadrature != []
    ensures |inPhase| == length && |quadrature| == if complexChain then length else 0
    ensures forall n: nat | n < length ::
              Complex(inPhase[n], if complexChain then quadrature[n] else 0.0) == ValueTerms(running, next, band, n, n + 1).Scaled(gain)
  {
    hide Terms, ValueTerms, At, Complex.Scaled;
    var runningImag, nextImag := QuadratureBand(running, band), QuadratureBand(next, band);
    var realPart := Convolve(running.bands[band], next.bands[band]);
    if !complexChain {
      inPhase, quadrature := CopyProduct(realPart, length, gain), [];
      forall n: nat | n < length
        ensures Complex(inPhase[n], 0.0) == ValueTerms(running, next, band, n, n + 1).Scaled(gain)
      {
        SilentTerms(runningImag, nextImag, n, n + 1);
        SilentTerms(running.bands[band], nextImag, n, n + 1);
        SilentTerms(runningImag, next.bands[band], n, n + 1);
        ScaledSample(running, next, band, n, gain, realPart[n], 0.0, inPhase[n], 0.0);
      }
      return;
    }
    var crossImag := Convolve(runningImag, nextImag);
    var firstCross := Convolve(running.bands[band], nextImag);
    var secondCross := Convolve(runningImag, next.bands[band]);
    realPart := Minus(realPart, crossImag);
    firstCross := Added(firstCross, secondCross);
    inPhase, quadrature := CopyProduct(realPart, length, gain), CopyProduct(firstCross, length, gain);
    forall n: nat | n < length
      ensures Complex(inPhase[n], quadrature[n]) == ValueTerms(running, next, band, n, n + 1).Scaled(gain)
    {
      ScaledSample(running, next, band, n, gain, realPart[n], firstCross[n], inPhase[n], quadrature[n]);
    }
  }

  /** The four real convolutions at one sample, put together and scaled. */
  lemma ScaledSample(running: BandedResponse, next: BandedResponse, band: nat, n: nat, gain: real, re: real, im: real, x: real, y: real)
    requires SameShape(running, band) && SameShape(next, band) && x == re * gain && y == im * gain
    requires var ar, ai, cr, ci := running.bands[band], QuadratureBand(running, band), next.bands[band], QuadratureBand(next, band);
             re == Terms(ar, cr, n, n + 1) - Terms(ai, ci, n, n + 1) && im == Terms(ar, ci, n, n + 1) + Terms(ai, cr, n, n + 1)
    ensures Complex(x, y) == ValueTerms(running, next, band, n, n + 1).Scaled(gain)
  {
    hide Terms, ValueTerms, QuadratureBand;
    FourConvolutions(running, next, band, n, n + 1);
  }

  ghost predicate WellFormed(r: BandedResponse, bandCount: nat) {
    && |r.bands| == bandCount && (r.quadrature == [] || |r.quadrature| == bandCount)
    && forall b: nat | b < bandCount :: SameShape(r, b) && |r.bands[b]| == LengthOf(r)
  }

  function FoldedLength(running: BandedResponse, next: BandedResponse, maxLength: int): int {
    var length := LengthOf(running) + LengthOf(next) - 1;
    if maxLength > 0 && length > maxLength then maxLength else length
  }

  /** A band of the folded response: the scaled convolution, or silence where it is not needed. */
  ghost predicate FoldedBand(chain: Chain, running: BandedResponse, next: BandedResponse, gains: seq<real>, out: BandedResponse, b: nat, length: nat)
    requires SameShape(running, b) && SameShape(next, b) && b < |gains|
  {
    && SameShape(out, b) && |out.bands[b]| == length
    && (chain.BandActive(b) ==> forall n: nat | n < length :: ValueOr(out, b, n) == ValueTerms(running, next, b, n, n + 1).Scaled(gains[b]))
    && (!chain.BandActive(b) ==> forall n: nat | n < length :: ValueOr(out, b, n) == NOTHING)
  }

  lemma ScaledByNothing(z: Complex, k: real)
    requires k == 0.0
    ensures z.Scaled(k) == NOTHING
  {
  }

  lemma SilentBand(chain: Chain, running: BandedResponse, next: BandedResponse, gains: seq<real>, out: BandedResponse, b: nat, length: nat)
    requires SameShape(running, b) && SameShape(next, b) && b < |gains| && (!chain.BandActive(b) || gains[b] == 0.0)
    requires SameShape(out, b) && |out.bands[b]| == length && forall n | 0 <= n < length :: out.bands[b][n] == 0.0
    requires out.quadrature != [] ==> forall n | 0 <= n < length :: out.quadrature[b][n] == 0.0
    ensures FoldedBand(chain, running, next, gains, out, b, length)
  {
    hide ValueTerms;
    forall n: nat | n < length
      ensures ValueOr(out, b, n) == NOTHING
      ensures chain.BandActive(b) ==> ValueOr(out, b, n) == ValueTerms(running, next, b, n, n + 1).Scaled(gains[b])
    {
      if gains[b] == 0.0 {
        ScaledByNothing(ValueTerms(running, next, b, n, n + 1), gains[b]);
      }
    }
  }

  lemma ActiveBand(chain: Chain, running: BandedResponse, next: BandedResponse, gains: seq<real>, out: BandedResponse, b: nat, length: nat)
    requires SameShape(running, b) && SameShape(next, b) && b < |gains| && chain.BandActive(b)
    requires SameShape(out, b) && |out.bands[b]| == length
    requires forall n: nat | n < length ::
               Complex(out.bands[b][n], if out.quadrature != [] then out.quadrature[b][n] else 0.0)
               == ValueTerms(running, next, b, n, n + 1).Scaled(gains[b])
    ensures FoldedBand(chain, running, next, gains, out, b, length)
  {
    hide ValueTerms, Complex.Scaled;
  }

  lemma FoldedBandFrame(chain: Chain, running: BandedResponse, next: BandedResponse, gains: seq<real>, out: BandedResponse, out': BandedResponse, b: nat, length: nat)
    requires SameShape(running, b) && SameShape(next, b) && b < |gains| && FoldedBand(chain, running, next, gains, out, b, length)
    requires SameShape(out', b) && out'.bands[b] == out.bands[b]
    requires (out.quadrature == [] <==> out'.quadrature == []) && (out.quadrature != [] ==> out'.quadrature[b] == out.quadrature[b])
    ensures FoldedBand(chain, running, next, gains, out', b, length)
  {
    hide ValueTerms, Complex.Scaled;
    forall n: nat | n < length
      ensures ValueOr(out', b, n) == ValueOr(out, b, n)
    {
    }
  }

  ghost predicate Folded(chain: Chain, running: BandedResponse, next: BandedResponse, gains: seq<real>, out: BandedResponse, length: nat) {
    && |running.bands| == |next.bands| == |gains| == |out.bands| && (out.quadrature == [] || |out.quadrature| == |out.bands|)
    && forall b: nat | b < |gains| :: SameShape(running, b) && SameShape(next, b) && FoldedBand(chain, running, next, gains, out, b, length)
  }

  /** Every band is done below `b` and silent from there on. */
  ghost predicate FoldedBelow(chain: Chain, running: BandedResponse, next: BandedResponse, gains: seq<real>, out: BandedResponse, length: nat, b: nat) {
    && |running.bands| == |next.bands| == |gains| == |out.bands| && (out.quadrature == [] || |out.quadrature| == |out.bands|)
    && (out.quadrature == [] <==> |gains| == 0 || (running.quadrature == [] && next.quadrature == []))
    && (forall c: nat | c < |gains| :: SameShape(running, c) && SameShape(next, c) && SameShape(out, c) && |out.bands[c]| == length)
    && (forall c: nat | c < b && c < |gains| :: FoldedBand(chain, running, next, gains, out, c, length))
    && (forall c: nat, n: nat | b <= c < |gains| && n < length :: out.bands[c][n] == 0.0 && (out.quadrature != [] ==> out.quadrature[c][n] == 0.0))
  }

  method ConvolveActive(chain: Chain, running: BandedResponse, next: BandedResponse, gains: seq<real>, maxLength: int) returns (out: Result<BandedResponse>)
    requires |gains| == |running.bands| && WellFormed(running, |running.bands|) && WellFormed(next, |next.bands|)
    requires LengthOf(running) > 0 && LengthOf(next) > 0
    ensures out.Ok? <==> |next.bands| == |running.bands|
    ensures out.Ok? ==> Folded(chain, running, next, gains, out.value, FoldedLength(running, next, maxLength))
  {
    if |next.bands| != |running.bands| {
      return Err("factor has another band count");
    }
    var bandCount, length := |running.bands|, FoldedLength(running, next, maxLength);
    var complexChain := running.quadrature != [] || next.quadrature != [];
    var r := BandedResponse(Silent(bandCount, length), if complexChain then Silent(bandCount, length) else []);
    for b := 0 to bandCount
      invariant FoldedBelow(chain, running, next, gains, r, length, b)
    {
      assert SameShape(running, b) && SameShape(next, b) && |running.bands[b]| == LengthOf(running) && |next.bands[b]| == LengthOf(next);
      if !chain.BandActive(b) || gains[b] == 0.0 {
        SilentBand(chain, running, next, gains, r, b, length);
      } else {
        var inPhase, quadrature := ConvolveBand(running, next, b, length, gains[b], complexChain);
        ghost var before := r;
        r := BandedResponse(r.bands[b := inPhase], if complexChain then r.quadrature[b := quadrature] else []);
        OneBandFolded(chain, running, next, gains, before, r, length, b, inPhase, quadrature);
      }
    }
    out := Ok(r);
  }

  lemma OneBandFolded(chain: Chain, running: BandedResponse, next: BandedResponse, gains: seq<real>, r: BandedResponse, r': BandedResponse,
                      length: nat, b: nat, inPhase: seq<real>, quadrature: seq<real>)
    requires FoldedBelow(chain, running, next, gains, r, length, b) && b < |gains| && chain.BandActive(b) && length > 0
    requires r' == BandedResponse(r.bands[b := inPhase], if r.quadrature != [] then r.quadrature[b := quadrature] else [])
    requires |inPhase| == length && (r.quadrature != [] ==> |quadrature| == length)
    requires SameShape(running, b) && SameShape(next, b)
    requires forall n: nat | n < length ::
               Complex(inPhase[n], if r.quadrature != [] then quadrature[n] else 0.0) == ValueTerms(running, next, b, n, n + 1).Scaled(gains[b])
    ensures FoldedBelow(chain, running, next, gains, r', length, b + 1)
  {
    hide ValueTerms, Complex.Scaled, FoldedBand;
    forall c: nat | c < b + 1
      ensures FoldedBand(chain, running, next, gains, r', c, length)
    {
      if c < b {
        FoldedBandFrame(chain, running, next, gains, r, r', c, length);
      } else {
        ActiveBand(chain, running, next, gains, r', b, length);
      }
    }
  }

  // ---------- The whole chain ----------

  ghost predicate HasBand(r: BandedResponse, band: nat) {
    band < |r.bands| && (r.quadrature == [] || band < |r.quadrature|)
  }

  ghost predicate HasBands(factors: seq<BandedResponse>, gains: seq<seq<real>>, b: nat) {
    && (forall h | 0 <= h < |factors| :: HasBand(factors[h], b))
    && |gains| == |factors| - 1 && (forall h | 0 <= h < |gains| :: b < |gains[h]|)
  }

  /** The value of the composed path at one sample of one band, `k` handoffs from the source: each
      handoff convolves with the next factor and multiplies by the portal gain. */
  ghost function ChainAt(factors: seq<BandedResponse>, gains: seq<seq<real>>, b: nat, n: int, k: nat): Complex
    requires k < |factors| && HasBands(factors, gains, b)
    decreases k, 1, 0
  {
    if k == 0 then ValueOr(factors[0], b, n)
    else if n < 0 then NOTHING
    else ChainTerms(factors, gains, b, n, k, n + 1).Scaled(gains[k - 1][b])
  }

  ghost function ChainTerms(factors: seq<BandedResponse>, gains: seq<seq<real>>, b: nat, n: int, k: nat, m: nat): Complex
    requires 0 < k < |factors| && HasBands(factors, gains, b)
    decreases k, 0, m
  {
    if m == 0 then NOTHING
    else ChainTerms(factors, gains, b, n, k, m - 1).Plus(ChainAt(factors, gains, b, m - 1, k - 1).Times(ValueOr(factors[k], b, n - (m - 1))))
  }

  ghost predicate SampleIs(r: BandedResponse, b: nat, n: nat, z: Complex) {
    HasBand(r, b) && ValueOr(r, b, n) == z
  }

  /** The samples that a length limit leaves; a limit of zero or less leaves them all. */
  predicate Within(maxLength: int, n: nat) {
    maxLength <= 0 || n < maxLength
  }

  /** Up to the limit, and beyond its own end, the response is the composed path. */
  ghost predicate RunningIs(chain: Chain, running: BandedResponse, maxLength: int, k: nat)
    requires k < |chain.factors|
  {
    forall b: nat, n: nat | HasBands(chain.factors, chain.gains, b) && chain.BandActive(b) && Within(maxLength, n) ::
      SampleIs(running, b, n, ChainAt(chain.factors, chain.gains, b, n, k))
  }

  lemma {:induction false} TermsFollow(chain: Chain, running: BandedResponse, maxLength: int, k: nat, b: nat, n: nat, m: nat)
    requires 0 < k < |chain.factors| && HasBands(chain.factors, chain.gains, b) && HasBand(running, b) && chain.BandActive(b)
    requires RunningIs(chain, running, maxLength, k - 1) && Within(maxLength, n) && m <= n + 1
    ensures ValueTerms(running, chain.factors[k], b, n, m) == ChainTerms(chain.factors, chain.gains, b, n, k, m)
    decreases m
  {
    hide Complex.Times, Complex.Plus, ValueOr, ChainAt;
    if m > 0 {
      TermsFollow(chain, running, maxLength, k, b, n, m - 1);
      assert SampleIs(running, b, m - 1, ChainAt(chain.factors, chain.gains, b, m - 1, k - 1));
    }
  }

  /** A convolution is over when both of its parts are. */
  lemma {:induction false} BeyondTheEnd(a: BandedResponse, c: BandedResponse, b: nat, n: nat, m: nat)
    requires SameShape(a, b) && SameShape(c, b) && n >= |a.bands[b]| + |c.bands[b]| - 1
    ensures ValueTerms(a, c, b, n, m) == NOTHING
    decreases m
  {
    hide Complex.Times;
    if m > 0 {
      BeyondTheEnd(a, c, b, n, m - 1);
      NothingTimes(ValueOr(a, b, m - 1));
      NothingTimes(ValueOr(c, b, n - (m - 1)));
    }
  }

  lemma StepFollows(chain: Chain, running: BandedResponse, out: BandedResponse, maxLength: int, k: nat)
    requires 0 < k < |chain.factors| && |chain.gains| == |chain.factors| - 1
    requires WellFormed(running, |running.bands|) && WellFormed(chain.factors[k], |running.bands|)
    requires LengthOf(running) > 0 && LengthOf(chain.factors[k]) > 0 && RunningIs(chain, running, maxLength, k - 1)
    requires Folded(chain, running, chain.factors[k], chain.gains[k - 1], out, FoldedLength(running, chain.factors[k], maxLength))
    ensures RunningIs(chain, out, maxLength, k)
  {
    hide Complex.Scaled, ValueTerms, ChainTerms, ValueOr;
    var length := FoldedLength(running, chain.factors[k], maxLength);
    forall b: nat, n: nat | HasBands(chain.factors, chain.gains, b) && chain.BandActive(b) && Within(maxLength, n)
      ensures SampleIs(out, b, n, ChainAt(chain.factors, chain.gains, b, n, k))
    {
      assert b < |chain.gains[k - 1]|;
      assert FoldedBand(chain, running, chain.factors[k], chain.gains[k - 1], out, b, length);
      assert ValueOr(out, b, n) == ValueTerms(running, chain.factors[k], b, n, n + 1).Scaled(chain.gains[k - 1][b]) by {
        if n >= length {
          BeyondTheEnd(running, chain.factors[k], b, n, n + 1);
          ZeroScaled(chain.gains[k - 1][b]);
          SilentBeyond(out, b, n);
        }
      }
      TermsFollow(chain, running, maxLength, k, b, n, n + 1);
    }
  }

  lemma SilentBeyond(r: BandedResponse, b: nat, n: nat)
    requires SameShape(r, b) && n >= |r.bands[b]|
    ensures ValueOr(r, b, n) == NOTHING
  {
  }

  /** There is a factor, one gain per handoff, and one band count throughout. */
  ghost predicate Compatible(chain: Chain) {
    && chain.factors != [] && |chain.gains| == |chain.factors| - 1
    && (forall h | 0 <= h < |chain.gains| :: |chain.gains[h]| == |chain.factors[0].bands|)
    && (forall h | 0 <= h < |chain.factors| :: |chain.factors[h].bands| == |chain.factors[0].bands|)
  }

  ghost predicate UsableFactors(chain: Chain) {
    forall h | 0 <= h < |chain.factors| :: WellFormed(chain.factors[h], |chain.factors[h].bands|) && LengthOf(chain.factors[h]) > 0
  }

  /** Each handoff adds the next factor's tail, up to the limit. The first factor is never cut. */
  ghost function LengthAfter(chain: Chain, maxLength: int, k: nat): int
    requires k < |chain.factors|
  {
    if k == 0 then LengthOf(chain.factors[0])
    else
      var length := LengthAfter(chain, maxLength, k - 1) + LengthOf(chain.factors[k]) - 1;
      if maxLength > 0 && length > maxLength then maxLength else length
  }

  /** The bands that are switched off hold nothing. */
  ghost predicate SilentOffBands(chain: Chain, r: BandedResponse) {
    forall b: nat, n: nat | b < |r.bands| && !chain.BandActive(b) :: SampleIs(r, b, n, NOTHING)
  }

  lemma FoldedIsWellFormed(chain: Chain, running: BandedResponse, next: BandedResponse, gains: seq<real>, out: BandedResponse, length: nat)
    requires Folded(chain, running, next, gains, out, length) && |gains| > 0
    ensures WellFormed(out, |gains|) && LengthOf(out) == length && SilentOffBands(chain, out)
  {
    hide ValueOr, ValueTerms;
    forall b: nat | b < |gains|
      ensures SameShape(out, b) && |out.bands[b]| == length
      ensures !chain.BandActive(b) ==> forall n: nat :: SampleIs(out, b, n, NOTHING)
    {
      assert FoldedBand(chain, running, next, gains, out, b, length);
      forall n: nat | n >= length
        ensures SampleIs(out, b, n, NOTHING)
      {
        SilentBeyond(out, b, n);
      }
    }
  }

  lemma StartFollows(chain: Chain, maxLength: int)
    requires chain.factors != []
    ensures RunningIs(chain, chain.factors[0], maxLength, 0)
  {
    hide ValueOr;
    forall b: nat, n: nat | HasBands(chain.factors, chain.gains, b)
      ensures SampleIs(chain.factors[0], b, n, ChainAt(chain.factors, chain.gains, b, n, 0))
    {
      assert HasBand(chain.factors[0], b);
    }
  }

  /** Folds the chain into one response, truncated to `maxLength` at every handoff. Cutting early
      changes no sample that is kept: up to the limit the response is the path composed in full. A
      single factor is passed on as it is, with the bands that are switched off. */
  method Resolve(chain: Chain, maxLength: int) returns (r: Result<BandedResponse>)
    requires UsableFactors(chain)
    ensures r.Ok? <==> Compatible(chain)
    ensures r.Ok? ==> WellFormed(r.value, |chain.factors[0].bands|) && LengthOf(r.value) == LengthAfter(chain, maxLength, |chain.factors| - 1)
    ensures r.Ok? ==> RunningIs(chain, r.value, maxLength, |chain.factors| - 1)
    ensures r.Ok? && |chain.factors| > 1 ==> SilentOffBands(chain, r.value)
    ensures r.Ok? && |chain.factors| == 1 ==> r.value == chain.factors[0]
  {
    hide Complex.Times, Complex.Scaled, ChainTerms, ValueTerms, ValueOr, Folded, RunningIs, SilentOffBands;
    if |chain.factors| == 0 {
      return Err("path chain has no factors");
    }
    if |chain.gains| != |chain.factors| - 1 {
      return Err("path chain has another number of portal gains");
    }
    var running := chain.factors[0];
    StartFollows(chain, maxLength);
    var bandCount := |running.bands|;
    for k := 1 to |chain.factors|
      invariant WellFormed(running, bandCount) && LengthOf(running) == LengthAfter(chain, maxLength, k - 1) > 0
      invariant forall h | 0 <= h < k :: |chain.factors[h].bands| == bandCount
      invariant forall h | 0 <= h < k - 1 :: |chain.gains[h]| == bandCount
      invariant RunningIs(chain, running, maxLength, k - 1)
      invariant k > 1 ==> SilentOffBands(chain, running)
      invariant k == 1 ==> running == chain.factors[0]
    {
      if |chain.gains[k - 1]| != bandCount {
        return Err("portal gain has another band count");
      }
      var folded := ConvolveActive(chain, running, chain.factors[k], chain.gains[k - 1], maxLength);
      if folded.Err? {
        return folded;
      }
      FoldedIsWellFormed(chain, running, chain.factors[k], chain.gains[k - 1], folded.value, FoldedLength(running, chain.factors[k], maxLength));
      StepFollows(chain, running, folded.value, maxLength, k);
      running := folded.value;
    }
    r := Ok(running);
  }

  // ---------- Sparse and dense agree ----------

  /** A response stands for the train of a hop's events. */
  ghost predicate StandsFor(r: BandedResponse, events: seq<Event>, bandCount: nat, length: nat) {
    forall b: nat, n: nat | b < bandCount && n < length :: SampleIs(r, b, n, Train(events, b, n))
  }

  /** The same, on the bands that are not switched off. */
  ghost predicate HoldsOnActiveBands(r: BandedResponse, events: seq<Event>, active: seq<bool>, bandCount: nat, length: nat) {
    forall b: nat, n: nat | b < bandCount && (b < |active| ==> active[b]) && n < length :: SampleIs(r, b, n, Train(events, b, n))
  }

  /** Every prune on the way loses nothing. */
  ghost predicate NeverLosing(hops: seq<seq<Event>>, gains: seq<seq<real>>, bandCount: nat, maxEvents: int)
    requires hops != [] && |gains| == |hops| - 1
  {
    forall k: nat | 0 < k < |hops| :: LosesNothing(Product(Composed(hops, gains, bandCount, maxEvents, k - 1), hops[k], gains[k - 1], bandCount), maxEvents)
  }

  ghost predicate ChainIs(factors: seq<BandedResponse>, gains: seq<seq<real>>, b: nat, n: nat, k: nat, events: seq<Event>)
    requires k < |factors| && HasBands(factors, gains, b)
  {
    ChainAt(factors, gains, b, n, k) == Train(events, b, n)
  }

  lemma {:induction false} TermsAreConvolution(hops: seq<seq<Event>>, factors: seq<BandedResponse>, gains: seq<seq<real>>, bandCount: nat,
                                               before: seq<Event>, length: nat, b: nat, n: nat, k: nat, m: nat)
    requires k + 1 < |hops| == |factors| && HasBands(factors, gains, b) && b < bandCount && n < length && m <= n + 1
    requires StandsFor(factors[k + 1], hops[k + 1], bandCount, length)
    requires forall i: nat | i < length :: ChainIs(factors, gains, b, i, k, before)
    ensures ChainTerms(factors, gains, b, n, k + 1, m) == Convolved(before, hops[k + 1], b, n, m)
    decreases m
  {
    hide Complex.Times, Complex.Plus, Train, ChainAt, ValueOr;
    if m > 0 {
      TermsAreConvolution(hops, factors, gains, bandCount, before, length, b, n, k, m - 1);
      assert ChainIs(factors, gains, b, m - 1, k, before);
      assert SampleIs(factors[k + 1], b, n - (m - 1), Train(hops[k + 1], b, n - (m - 1)));
    }
  }

  /** On the sample grid, the train of the composed events is the dense chain, hop by hop. */
  lemma {:induction false} SparseIsDense(hops: seq<seq<Event>>, factors: seq<BandedResponse>, gains: seq<seq<real>>, bandCount: nat, maxEvents: int,
                                         length: nat, b: nat, n: nat, k: nat)
    requires k < |hops| == |factors| && HasBands(factors, gains, b) && b < bandCount && n < length
    requires forall h | 0 <= h < |hops| :: InTime(hops[h]) && StandsFor(factors[h], hops[h], bandCount, length)
    requires NeverLosing(hops, gains, bandCount, maxEvents)
    ensures ChainAt(factors, gains, b, n, k) == Train(Composed(hops, gains, bandCount, maxEvents, k), b, n)
    decreases k
  {
    hide Complex.Times, Complex.Plus, Complex.Scaled, Train, Product, Pruned, LosesNothing, ValueOr, Convolved, ChainTerms, InTime, Expanded, ExpandEvents;
    if k == 0 {
      assert SampleIs(factors[0], b, n, Train(hops[0], b, n));
      ExpandedTrain(hops[0], bandCount, b, n);
    } else {
      var j := k - 1;
      var before := Composed(hops, gains, bandCount, maxEvents, j);
      forall i: nat | i < length
        ensures ChainIs(factors, gains, b, i, j, before)
      {
        SparseIsDense(hops, factors, gains, bandCount, maxEvents, length, b, i, j);
      }
      TermsAreConvolution(hops, factors, gains, bandCount, before, length, b, n, j, n + 1);
      ComposedInTime(hops, gains, bandCount, maxEvents, k - 1);
      ProductIsConvolution(before, hops[k], gains[k - 1], bandCount, b, n);
      ProductShape(before, hops[k], gains[k - 1], bandCount);
      PrunedTrain(Product(before, hops[k], gains[k - 1], bandCount), maxEvents, bandCount, b, n);
    }
  }

  lemma BuiltStandsFor(events: seq<Event>, r: BandedResponse, bandCount: nat, length: nat)
    requires IsResponse(r, events, bandCount, length) && PhaseResolved(events)
    ensures StandsFor(r, events, bandCount, length)
  {
    forall b: nat, n: nat | b < bandCount && n < length
      ensures SampleIs(r, b, n, Train(events, b, n))
    {
      ResponseIsTrain(events, r, bandCount, length, b, n);
      assert ValueOr(r, b, n) == ValueAt(r, b, n);
    }
  }

  method BuildFactors(hops: seq<seq<Event>>, bandCount: nat, sampleRate: int, length: nat) returns (factors: seq<BandedResponse>)
    requires forall h | 0 <= h < |hops| :: ValidEvents(hops[h], bandCount) && PhaseResolved(hops[h])
    requires bandCount > 0 && sampleRate > 0
    ensures |factors| == |hops|
    ensures forall h | 0 <= h < |hops| :: ShapedResponse(factors[h], bandCount, length) && StandsFor(factors[h], hops[h], bandCount, length)
  {
    hide Train, PhaseResolved, StandsFor;
    factors := [];
    for h := 0 to |hops|
      invariant |factors| == h
      invariant forall j | 0 <= j < h :: ShapedResponse(factors[j], bandCount, length) && StandsFor(factors[j], hops[j], bandCount, length)
    {
      var factor := BandedFromEvents(hops[h], bandCount, sampleRate, length);
      BuiltStandsFor(hops[h], factor.value, bandCount, length);
      factors := factors + [factor.value];
    }
  }

  /** Factors of the limit's length compose to the limit's length. */
  lemma {:induction false} EqualLengths(chain: Chain, length: nat, k: nat)
    requires k < |chain.factors| && length > 0 && forall h | 0 <= h < |chain.factors| :: LengthOf(chain.factors[h]) == length
    ensures LengthAfter(chain, length, k) == length
    decreases k
  {
    if k > 0 {
      EqualLengths(chain, length, k - 1);
    }
  }

  /** Renders the early field of a path densely: on every active band it is the impulse train of the
      path's composed sparse events. */
  method ResolvePathEarly(hops: seq<seq<Event>>, gains: seq<seq<real>>, active: seq<bool>, bandCount: nat, sampleRate: int, length: nat, ghost maxEvents: int)
    returns (r: BandedResponse)
    requires hops != [] && |gains| == |hops| - 1 && bandCount > 0 && sampleRate > 0 && length > 0
    requires forall h | 0 <= h < |gains| :: |gains[h]| == bandCount
    requires forall h | 0 <= h < |hops| :: ValidEvents(hops[h], bandCount) && PhaseResolved(hops[h])
    requires NeverLosing(hops, gains, bandCount, maxEvents)
    ensures WellFormed(r, bandCount) && LengthOf(r) == length
    ensures HoldsOnActiveBands(r, Composed(hops, gains, bandCount, maxEvents, |hops| - 1), active, bandCount, length)
  {
    var factors := BuildFactors(hops, bandCount, sampleRate, length);
    var chain := Chain(factors, gains, active);
    ShapedIsUsable(chain, bandCount, length);
    EqualLengths(chain, length, |hops| - 1);
    hide Train, PhaseResolved, StandsFor, NeverLosing, ChainAt, Composed, ValueOr, RunningIs, HoldsOnActiveBands;
    var result := Resolve(chain, length);
    r := result.value;
    AgreeEverywhere(hops, chain, r, bandCount, maxEvents, length);
  }

  lemma AgreeEverywhere(hops: seq<seq<Event>>, chain: Chain, r: BandedResponse, bandCount: nat, maxEvents: int, length: nat)
    requires |hops| == |chain.factors| > 0 && |chain.gains| == |hops| - 1 && RunningIs(chain, r, length, |hops| - 1)
    requires forall h | 0 <= h < |chain.gains| :: |chain.gains[h]| == bandCount
    requires forall h | 0 <= h < |hops| :: ValidEvents(hops[h], bandCount) && StandsFor(chain.factors[h], hops[h], bandCount, length)
    requires NeverLosing(hops, chain.gains, bandCount, maxEvents) && length > 0
    ensures HoldsOnActiveBands(r, Composed(hops, chain.gains, bandCount, maxEvents, |hops| - 1), chain.active, bandCount, length)
  {
    hide Train, NeverLosing, ChainAt, Composed, ValueOr;
    var composed := Composed(hops, chain.gains, bandCount, maxEvents, |hops| - 1);
    forall b: nat, n: nat | b < bandCount && (b < |chain.active| ==> chain.active[b]) && n < length
      ensures SampleIs(r, b, n, Train(composed, b, n))
    {
      assert HasBands(chain.factors, chain.gains, b) by {
        forall h | 0 <= h < |chain.factors|
          ensures HasBand(chain.factors[h], b)
        {
          assert StandsFor(chain.factors[h], hops[h], bandCount, length);
          assert SampleIs(chain.factors[h], b, n, Train(hops[h], b, n));
        }
      }
      SparseIsDense(hops, chain.factors, chain.gains, bandCount, maxEvents, length, b, n, |hops| - 1);
    }
  }

  lemma ShapedIsUsable(chain: Chain, bandCount: nat, length: nat)
    requires bandCount > 0 && length > 0 && forall h | 0 <= h < |chain.factors| :: ShapedResponse(chain.factors[h], bandCount, length)
    ensures UsableFactors(chain) && forall h | 0 <= h < |chain.factors| :: LengthOf(chain.factors[h]) == length && |chain.factors[h].bands| == bandCount
  {
  }
}
