/** Binaural rendering of one frequency band: the HRIR taps are applied before the circular band
    filter, and the render window's edges are corrected afterwards (ir/render_binaural.go). The FFT
    filter is a circular convolution with the band's kernel. */
module BinauralBands {

  /** An event in one band: arrival sample, gain, interaural delay in samples, impulse response. */
  datatype BandEvent = BandEvent(sample: nat, gain: real, delay: real, hrir: seq<real>)

  // ---------- Delays ----------

  /** Rounds half away from zero. */
  function Round(x: real): int {
    if x >= 0.0 then (x + 0.5).Floor else -((0.5 - x).Floor)
  }

  function NonEmptyHRIR(hrir: seq<real>): (r: seq<real>)
    ensures |r| > 0
  {
    if hrir == [] then [1.0] else hrir
  }

  /** Whether a delay can reach the render window at all. */
  predicate DelayBounded(delay: real, length: nat, taps: nat) {
    var max := (length + length + taps) as real;
    -max < delay < max
  }

  /** A delay out of bounds puts every tap outside the window. */
  lemma UnboundedDelayIsSilent(delay: real, length: nat, taps: nat, i: nat)
    requires !DelayBounded(delay, length, taps) && i < taps
    ensures var shift := Round(delay) + i; shift <= 0 - length || shift >= length
  {
  }

  // ---------- One tap ----------

  predicate UseDirect(shift: int, length: nat) {
    (if shift < 0 then -shift else shift) > length / 2
  }

  /** Taps that contribute: not zero, and not shifted out of the window. */
  predicate Contributes(coefficient: real, shift: int, length: nat) {
    coefficient != 0.0 && 0 - length < shift < length
  }

  function Wrap(index: int, size: nat): int {
    if index < 0 then index + size else index
  }

  datatype EdgeRange = EdgeRange(start: int, end: int, sign: real)

  function EdgeCorrectionRange(shift: int, length: nat): EdgeRange {
    if UseDirect(shift, length) then
      if shift >= 0 then EdgeRange(shift, length, 1.0) else EdgeRange(0, length + shift, 1.0)
    else if shift >= 0 then EdgeRange(0, shift, -1.0)
    else EdgeRange(length + shift, length, -1.0)
  }

  /** What one tap puts into the filter's input at position `m`. */
  function TapInput(e: BandEvent, coefficient: real, shift: int, length: nat, size: nat, m: nat): real {
    if Contributes(coefficient, shift, length) && !UseDirect(shift, length) && m == Wrap(e.sample + shift, size) then e.gain * coefficient else 0.0
  }

  function KernelAt(kernel: seq<real>, lag: int): real
    requires -|kernel| <= lag < |kernel|
  {
    kernel[Wrap(lag, |kernel|)]
  }

  /** One signed term of the correction. */
  function Term(kernel: seq<real>, e: BandEvent, coefficient: real, shift: int, n: nat, sign: real): real
    requires -|kernel| <= n - shift - e.sample < |kernel|
  {
    sign * e.gain * coefficient * KernelAt(kernel, n - shift - e.sample)
  }

  /** What one tap adds to the output at position `n` after filtering. */
  function TapCorrection(kernel: seq<real>, e: BandEvent, coefficient: real, shift: int, length: nat, n: nat): real
    requires 2 * length <= |kernel| && n < length && e.sample < length
  {
    if !Contributes(coefficient, shift, length) then 0.0
    else
      var r := EdgeCorrectionRange(shift, length);
      if r.start <= n < r.end then
        LagInRange(|kernel|, e.sample, shift, length, n);
        Term(kernel, e, coefficient, shift, n, r.sign)
      else 0.0
  }

  /** Every lag the correction looks up is within one kernel length. */
  lemma LagInRange(size: nat, sample: nat, shift: int, length: nat, n: nat)
    requires 2 * length <= size && n < length && sample < length && 0 - length < shift < length
    requires EdgeCorrectionRange(shift, length).start <= n < EdgeCorrectionRange(shift, length).end
    ensures 0 - size <= n - shift - sample < size
  {
  }

  /** Every position the input is written to is inside the buffer. */
  lemma InputInRange(size: nat, sample: nat, shift: int, length: nat)
    requires 2 * length <= size && sample < length && !UseDirect(shift, length)
    ensures 0 <= Wrap(sample + shift, size) < size
  {
  }

  // ---------- The plain form ----------

  /** The impulse through the band filter, cropped to the render window. */
  function FilteredImpulse(kernel: seq<real>, e: BandEvent, length: nat, j: int): real
    requires 2 * length <= |kernel| && e.sample < length
  {
    if 0 <= j < length then e.gain * KernelAt(kernel, j - e.sample) else 0.0
  }

  /** One tap of the impulse response, applied to the cropped signal. */
  function TapReference(kernel: seq<real>, e: BandEvent, coefficient: real, shift: int, length: nat, n: nat): real
    requires 2 * length <= |kernel| && e.sample < length
  {
    coefficient * FilteredImpulse(kernel, e, length, n - shift)
  }

  // ---------- Circular filtering ----------

  /** The first `m` terms of the circular convolution at position `n`. */
  function CircularTerms(kernel: seq<real>, x: seq<real>, n: nat, m: nat): real
    requires |x| == |kernel| && n < |kernel| && m <= |kernel|
  {
    if m == 0 then 0.0 else CircularTerms(kernel, x, n, m - 1) + KernelAt(kernel, n - (m - 1)) * x[m - 1]
  }

  function CircularFilter(kernel: seq<real>, x: seq<real>): (r: seq<real>)
    requires |x| == |kernel|
    ensures |r| == |x|
  {
    seq(|x|, n requires 0 <= n < |x| => CircularTerms(kernel, x, n, |x|))
  }

  lemma {:induction false} TermsAdd(kernel: seq<real>, x: seq<real>, y: seq<real>, z: seq<real>, n: nat, m: nat)
    requires |x| == |y| == |z| == |kernel| && n < |kernel| && m <= |kernel| && forall k | 0 <= k < |x| :: z[k] == x[k] + y[k]
    ensures CircularTerms(kernel, z, n, m) == CircularTerms(kernel, x, n, m) + CircularTerms(kernel, y, n, m)
    decreases m
  {
    hide KernelAt;
    if m > 0 {
      TermsAdd(kernel, x, y, z, n, m - 1);
      Distribute(KernelAt(kernel, n - (m - 1)), x[m - 1], y[m - 1]);
    }
  }

  lemma Distribute(k: real, x: real, y: real)
    ensures k * (x + y) == k * x + k * y
  {
  }

  lemma ZeroTerm(k: real, w: real)
    requires w == 0.0
    ensures k * w == 0.0
  {
  }

  lemma TimesZero(k: real)
    ensures k * 0.0 == 0.0
  {
  }

  /** Filtering a single impulse gives the shifted kernel. */
  lemma {:induction false} TermsOfImpulse(kernel: seq<real>, x: seq<real>, at: nat, v: real, n: nat, m: nat)
    requires |x| == |kernel| && n < |kernel| && m <= |kernel| && at < |x|
    requires forall k | 0 <= k < |x| :: x[k] == if k == at then v else 0.0
    ensures CircularTerms(kernel, x, n, m) == if at < m then KernelAt(kernel, n - at) * v else 0.0
    decreases m
  {
    hide KernelAt;
    if m > 0 {
      TermsOfImpulse(kernel, x, at, v, n, m - 1);
      if m - 1 != at {
        ZeroTerm(KernelAt(kernel, n - (m - 1)), x[m - 1]);
      }
    }
  }

  lemma {:induction false} TermsOfSilence(kernel: seq<real>, x: seq<real>, n: nat, m: nat)
    requires |x| == |kernel| && n < |kernel| && m <= |kernel| && forall k | 0 <= k < |x| :: x[k] == 0.0
    ensures CircularTerms(kernel, x, n, m) == 0.0
    decreases m
  {
    hide KernelAt;
    if m > 0 {
      TermsOfSilence(kernel, x, n, m - 1);
    }
  }

  // ---------- A tap is rendered exactly ----------

  function TapInputs(e: BandEvent, coefficient: real, shift: int, length: nat, size: nat): (r: seq<real>)
    ensures |r| == size && forall m: nat | m < size :: r[m] == TapInput(e, coefficient, shift, length, size, m)
  {
    seq(size, m requires 0 <= m < size => TapInput(e, coefficient, shift, length, size, m))
  }

  lemma SameKernelEntry(kernel: seq<real>, n: nat, s: int, length: nat)
    requires 2 * length <= |kernel| && n < length && 0 - length <= s < 2 * length && 0 <= Wrap(s, |kernel|) < |kernel| && -|kernel| <= n - s < |kernel|
    ensures KernelAt(kernel, n - Wrap(s, |kernel|)) == KernelAt(kernel, n - s)
  {
  }

  lemma Rearrange(k: real, g: real, c: real)
    ensures k * (g * c) == c * (g * k) && -1.0 * g * c * k == -(k * (g * c)) && 1.0 * g * c * k == c * (g * k)
  {
    var p := g * c;
    assert k * p == p * k;
    assert p * k == c * (g * k);
    assert -1.0 * g == -g;
    assert (-g) * c == -p;
    assert (-p) * k == -(p * k);
  }

  /** Filtering a tap's input and correcting the edges is the tap applied to the cropped signal. */
  lemma TapIsExact(kernel: seq<real>, e: BandEvent, c: real, shift: int, length: nat, n: nat)
    requires 2 * length <= |kernel| && e.sample < length && n < length
    ensures CircularTerms(kernel, TapInputs(e, c, shift, length, |kernel|), n, |kernel|) + TapCorrection(kernel, e, c, shift, length, n)
            == TapReference(kernel, e, c, shift, length, n)
  {
    hide KernelAt, CircularTerms;
    var size, x := |kernel|, TapInputs(e, c, shift, length, |kernel|);
    if !Contributes(c, shift, length) {
      TermsOfSilence(kernel, x, n, size);
    } else if UseDirect(shift, length) {
      TermsOfSilence(kernel, x, n, size);
      DirectTap(kernel, e, c, shift, length, n);
    } else {
      InputInRange(size, e.sample, shift, length);
      var at := Wrap(e.sample + shift, size);
      TermsOfImpulse(kernel, x, at, e.gain * c, n, size);
      FilteredTap(kernel, e, c, shift, length, n);
    }
  }

  lemma DirectTap(kernel: seq<real>, e: BandEvent, c: real, shift: int, length: nat, n: nat)
    requires 2 * length <= |kernel| && e.sample < length && n < length && Contributes(c, shift, length) && UseDirect(shift, length)
    ensures TapCorrection(kernel, e, c, shift, length, n) == TapReference(kernel, e, c, shift, length, n)
  {
    hide KernelAt;
    if 0 <= n - shift < length {
      Rearrange(KernelAt(kernel, n - shift - e.sample), e.gain, c);
    }
  }

  lemma FilteredTap(kernel: seq<real>, e: BandEvent, c: real, shift: int, length: nat, n: nat)
    requires 2 * length <= |kernel| && e.sample < length && n < length && Contributes(c, shift, length) && !UseDirect(shift, length)
    requires 0 <= Wrap(e.sample + shift, |kernel|) < |kernel|
    ensures KernelAt(kernel, n - Wrap(e.sample + shift, |kernel|)) * (e.gain * c) + TapCorrection(kernel, e, c, shift, length, n)
            == TapReference(kernel, e, c, shift, length, n)
  {
    SameKernelEntry(kernel, n, e.sample + shift, length);
    hide KernelAt;
    Rearrange(KernelAt(kernel, n - shift - e.sample), e.gain, c);
  }

  // ---------- All taps of an event ----------

  function TapCount(e: BandEvent): nat {
    |NonEmptyHRIR(e.hrir)|
  }

  function Shift(e: BandEvent, i: nat): int {
    Round(e.delay) + i
  }

  function Tap(e: BandEvent, i: nat): real
    requires i < TapCount(e)
  {
    NonEmptyHRIR(e.hrir)[i]
  }

  /** The taps that are rendered: all, or none when the delay is out of bounds. */
  function Rendered(e: BandEvent, length: nat): (n: nat)
    ensures n <= TapCount(e)
  {
    if DelayBounded(e.delay, length, TapCount(e)) then TapCount(e) else 0
  }

  function EventInput(e: BandEvent, length: nat, size: nat, i: nat, m: nat): real
    requires i <= TapCount(e)
  {
    if i == 0 then 0.0 else EventInput(e, length, size, i - 1, m) + TapInput(e, Tap(e, i - 1), Shift(e, i - 1), length, size, m)
  }

  function EventCorrection(kernel: seq<real>, e: BandEvent, length: nat, i: nat, n: nat): real
    requires i <= TapCount(e) && 2 * length <= |kernel| && n < length && e.sample < length
  {
    if i == 0 then 0.0 else EventCorrection(kernel, e, length, i - 1, n) + TapCorrection(kernel, e, Tap(e, i - 1), Shift(e, i - 1), length, n)
  }

  /** The event in the plain form: filter, crop, then apply the impulse response. */
  function EventReference(kernel: seq<real>, e: BandEvent, length: nat, i: nat, n: nat): real
    requires i <= TapCount(e) && 2 * length <= |kernel| && e.sample < length
  {
    if i == 0 then 0.0 else EventReference(kernel, e, length, i - 1, n) + TapReference(kernel, e, Tap(e, i - 1), Shift(e, i - 1), length, n)
  }

  function EventInputs(e: BandEvent, length: nat, size: nat, i: nat): (r: seq<real>)
    requires i <= TapCount(e)
    ensures |r| == size && forall m: nat | m < size :: r[m] == EventInput(e, length, size, i, m)
  {
    seq(size, m requires 0 <= m < size => EventInput(e, length, size, i, m))
  }

  lemma {:induction false} EventIsExact(kernel: seq<real>, e: BandEvent, length: nat, i: nat, n: nat)
    requires i <= TapCount(e) && 2 * length <= |kernel| && n < length && e.sample < length
    ensures CircularTerms(kernel, EventInputs(e, length, |kernel|, i), n, |kernel|) + EventCorrection(kernel, e, length, i, n)
            == EventReference(kernel, e, length, i, n)
    decreases i
  {
    hide CircularTerms, TapCorrection, TapReference, TapInput;
    var size := |kernel|;
    if i == 0 {
      TermsOfSilence(kernel, EventInputs(e, length, size, 0), n, size);
    } else {
      EventIsExact(kernel, e, length, i - 1, n);
      TapIsExact(kernel, e, Tap(e, i - 1), Shift(e, i - 1), length, n);
      TermsAdd(kernel, EventInputs(e, length, size, i - 1), TapInputs(e, Tap(e, i - 1), Shift(e, i - 1), length, size),
               EventInputs(e, length, size, i), n, size);
    }
  }

  /** Leaving out an event whose delay is out of bounds loses nothing. */
  lemma {:induction false} SkippedIsSilent(kernel: seq<real>, e: BandEvent, length: nat, i: nat, n: nat)
    requires i <= TapCount(e) && 2 * length <= |kernel| && n < length && e.sample < length && !DelayBounded(e.delay, length, TapCount(e))
    ensures EventReference(kernel, e, length, i, n) == 0.0
    decreases i
  {
    hide KernelAt;
    if i > 0 {
      SkippedIsSilent(kernel, e, length, i - 1, n);
      UnboundedDelayIsSilent(e.delay, length, TapCount(e), i - 1);
      TimesZero(Tap(e, i - 1));
    }
  }

  // ---------- What the plain form is ----------

  /** `d` is the integer nearest to `x`, the one further from zero of two. */
  ghost predicate RoundsTo(x: real, d: int) {
    if x >= 0.0 then d as real - 0.5 <= x < d as real + 0.5 else d as real - 0.5 < x <= d as real + 0.5
  }

  lemma RoundIsNearest(x: real, d: int)
    ensures RoundsTo(x, d) <==> d == Round(x)
  {
  }

  /** The band-filtered impulse, silent outside the render window; the kernel goes round. */
  ghost function BandImpulse(kernel: seq<real>, gain: real, sample: nat, length: nat, j: int): real
    requires kernel != []
  {
    if 0 <= j < length then gain * kernel[(j - sample) % |kernel|] else 0.0
  }

  /** Its convolution with the first `i` taps of `h`, delayed by `d` samples. */
  ghost function Convolved(kernel: seq<real>, gain: real, sample: nat, length: nat, h: seq<real>, d: int, n: nat, i: nat): real
    requires kernel != [] && i <= |h|
  {
    if i == 0 then 0.0
    else Convolved(kernel, gain, sample, length, h, d, n, i - 1) + h[i - 1] * BandImpulse(kernel, gain, sample, length, n - d - (i - 1))
  }

  lemma KernelGoesRound(kernel: seq<real>, lag: int)
    requires -|kernel| <= lag < |kernel|
    ensures KernelAt(kernel, lag) == kernel[lag % |kernel|]
  {
    if lag < 0 {
      assert (lag + |kernel|) % |kernel| == lag % |kernel|;
    }
  }

  /** The plain form of an event is the cropped band impulse, delayed by the nearest number of samples
      and convolved with the impulse response, or passed as it is where there is none. */
  lemma {:induction false} EventIsConvolution(kernel: seq<real>, e: BandEvent, length: nat, h: seq<real>, d: int, n: nat, i: nat)
    requires kernel != [] && 2 * length <= |kernel| && e.sample < length && RoundsTo(e.delay, d)
    requires h == (if |e.hrir| == 0 then [1.0] else e.hrir) && i <= |h|
    ensures TapCount(e) == |h| && EventReference(kernel, e, length, i, n) == Convolved(kernel, e.gain, e.sample, length, h, d, n, i)
    decreases i
  {
    hide KernelAt, Round;
    if i > 0 {
      EventIsConvolution(kernel, e, length, h, d, n, i - 1);
      RoundIsNearest(e.delay, d);
      var j := n - d - (i - 1);
      if 0 <= j < length {
        KernelGoesRound(kernel, j - e.sample);
      }
    }
  }

  // ---------- All events of a band ----------

  ghost predicate InWindow(events: seq<BandEvent>, length: nat) {
    forall k | 0 <= k < |events| :: events[k].sample < length
  }

  function InputSum(events: seq<BandEvent>, length: nat, size: nat, k: nat, m: nat): real
    requires k <= |events|
  {
    if k == 0 then 0.0
    else InputSum(events, length, size, k - 1, m) + EventInput(events[k - 1], length, size, Rendered(events[k - 1], length), m)
  }

  function CorrectionSum(kernel: seq<real>, events: seq<BandEvent>, length: nat, k: nat, n: nat): real
    requires k <= |events| && 2 * length <= |kernel| && n < length && InWindow(events, length)
  {
    if k == 0 then 0.0
    else CorrectionSum(kernel, events, length, k - 1, n)
         + EventCorrection(kernel, events[k - 1], length, Rendered(events[k - 1], length), n)
  }

  function ReferenceSum(kernel: seq<real>, events: seq<BandEvent>, length: nat, k: nat, n: nat): real
    requires k <= |events| && 2 * length <= |kernel| && InWindow(events, length)
  {
    if k == 0 then 0.0
    else ReferenceSum(kernel, events, length, k - 1, n) + EventReference(kernel, events[k - 1], length, TapCount(events[k - 1]), n)
  }

  function InputSums(events: seq<BandEvent>, length: nat, size: nat, k: nat): (r: seq<real>)
    requires k <= |events|
    ensures |r| == size && forall m: nat | m < size :: r[m] == InputSum(events, length, size, k, m)
  {
    seq(size, m requires 0 <= m < size => InputSum(events, length, size, k, m))
  }

  /** For a whole band, filtering the summed input and correcting the edges is the plain form. */
  lemma {:induction false} BandIsExact(kernel: seq<real>, events: seq<BandEvent>, length: nat, k: nat, n: nat)
    requires k <= |events| && 2 * length <= |kernel| && n < length && InWindow(events, length)
    ensures CircularTerms(kernel, InputSums(events, length, |kernel|, k), n, |kernel|) + CorrectionSum(kernel, events, length, k, n)
            == ReferenceSum(kernel, events, length, k, n)
    decreases k
  {
    hide CircularTerms, EventCorrection, EventReference, EventInput, DelayBounded;
    var size := |kernel|;
    if k == 0 {
      TermsOfSilence(kernel, InputSums(events, length, size, 0), n, size);
    } else {
      var e := events[k - 1];
      var taps := Rendered(e, length);
      BandIsExact(kernel, events, length, k - 1, n);
      EventIsExact(kernel, e, length, taps, n);
      TermsAdd(kernel, InputSums(events, length, size, k - 1), EventInputs(e, length, size, taps), InputSums(events, length, size, k), n, size);
      if taps != TapCount(e) {
        SkippedIsSilent(kernel, e, length, TapCount(e), n);
        NoTapsNoReference(kernel, e, length, n);
      }
    }
  }

  lemma NoTapsNoReference(kernel: seq<real>, e: BandEvent, length: nat, n: nat)
    requires 2 * length <= |kernel| && e.sample < length
    ensures EventReference(kernel, e, length, 0, n) == 0.0
  {
  }

  // ---------- The loops ----------

  /** Adds an event's taps to the filter input, wrapping negative positions. */
  method AccumulateInput(dst: array<real>, e: BandEvent, length: nat)
    requires 2 * length <= dst.Length && e.sample < length
    modifies dst
    ensures forall m: nat | m < dst.Length :: dst[m] == old(dst[m]) + EventInput(e, length, dst.Length, Rendered(e, length), m)
  {
    hide Round;
    var hrir := NonEmptyHRIR(e.hrir);
    if !DelayBounded(e.delay, length, |hrir|) {
      return;
    }
    var delay := Round(e.delay);
    for i := 0 to |hrir|
      invariant forall m: nat | m < dst.Length :: dst[m] == old(dst[m]) + EventInput(e, length, dst.Length, i, m)
    {
      var shift := delay + i;
      if Contributes(hrir[i], shift, length) && !UseDirect(shift, length) {
        InputInRange(dst.Length, e.sample, shift, length);
        var index := Wrap(e.sample + shift, dst.Length);
        dst[index] := dst[index] + e.gain * hrir[i];
      }
    }
  }

  /** Adds an event's edge corrections to the output. */
  method CorrectEdges(dst: array<real>, kernel: seq<real>, e: BandEvent)
    requires 2 * dst.Length <= |kernel| && e.sample < dst.Length
    modifies dst
    ensures forall n: nat | n < dst.Length :: dst[n] == old(dst[n]) + EventCorrection(kernel, e, dst.Length, Rendered(e, dst.Length), n)
  {
    hide Round, KernelAt;
    var hrir := NonEmptyHRIR(e.hrir);
    if !DelayBounded(e.delay, dst.Length, |hrir|) {
      return;
    }
    var delay := Round(e.delay);
    for i := 0 to |hrir|
      invariant forall n: nat | n < dst.Length :: dst[n] == old(dst[n]) + EventCorrection(kernel, e, dst.Length, i, n)
    {
      CorrectTap(dst, kernel, e, hrir[i], delay + i);
    }
  }

  method CorrectTap(dst: array<real>, kernel: seq<real>, e: BandEvent, coefficient: real, shift: int)
    requires 2 * dst.Length <= |kernel| && e.sample < dst.Length
    modifies dst
    ensures forall n: nat | n < dst.Length :: dst[n] == old(dst[n]) + TapCorrection(kernel, e, coefficient, shift, dst.Length, n)
  {
    if !Contributes(coefficient, shift, dst.Length) {
      return;
    }
    var r := EdgeCorrectionRange(shift, dst.Length);
    RangeBounds(shift, dst.Length);
    hide Term, TapCorrection, EdgeCorrectionRange, Contributes;
    forall n: nat | n < dst.Length && !(r.start <= n < r.end)
      ensures TapCorrection(kernel, e, coefficient, shift, dst.Length, n) == 0.0
    {
      NoCorrection(kernel, e, coefficient, shift, dst.Length, n);
    }
    for n := r.start to r.end
      invariant forall k: nat | r.start <= k < n && k < dst.Length :: dst[k] == old(dst[k]) + TapCorrection(kernel, e, coefficient, shift, dst.Length, k)
      invariant forall k: nat | k < dst.Length && !(r.start <= k < n) :: dst[k] == old(dst[k])
    {
      Correction(kernel, e, coefficient, shift, dst.Length, n);
      dst[n] := dst[n] + Term(kernel, e, coefficient, shift, n, r.sign);
    }
  }

  lemma RangeBounds(shift: int, length: nat)
    requires 0 - length < shift < length
    ensures var r := EdgeCorrectionRange(shift, length); 0 <= r.start <= r.end <= length
  {
  }

  lemma NoCorrection(kernel: seq<real>, e: BandEvent, c: real, shift: int, length: nat, n: nat)
    requires 2 * length <= |kernel| && n < length && e.sample < length
    requires !(EdgeCorrectionRange(shift, length).start <= n < EdgeCorrectionRange(shift, length).end)
    ensures TapCorrection(kernel, e, c, shift, length, n) == 0.0
  {
  }

  lemma Correction(kernel: seq<real>, e: BandEvent, c: real, shift: int, length: nat, n: nat)
    requires 2 * length <= |kernel| && n < length && e.sample < length && Contributes(c, shift, length)
    requires EdgeCorrectionRange(shift, length).start <= n < EdgeCorrectionRange(shift, length).end
    ensures -|kernel| <= n - shift - e.sample < |kernel|
    ensures TapCorrection(kernel, e, c, shift, length, n)
            == Term(kernel, e, c, shift, n, EdgeCorrectionRange(shift, length).sign)
  {
    LagInRange(|kernel|, e.sample, shift, length, n);
  }

  ghost predicate PowerOfTwo(n: nat) {
    n == 1 || (n > 0 && n % 2 == 0 && PowerOfTwo(n / 2))
  }

  /** The first power of two that is not below `n`. */
  function NextPow2(n: nat): (r: nat)
    ensures r >= n && PowerOfTwo(r) && (r == 1 || r < 2 * n)
  {
    Doubled(1, n)
  }

  function Doubled(p: nat, n: nat): (r: nat)
    requires PowerOfTwo(p)
    ensures r >= n && PowerOfTwo(r) && (r == p || r < 2 * n)
    decreases if p >= n then 0 else n - p
  {
    if p >= n then p else Doubled(2 * p, n)
  }

  /** A band of an ear: the filter's impulse response and the events with their gains in the band. */
  datatype Band = Band(kernel: seq<real>, events: seq<BandEvent>)

  ghost predicate Fits(band: Band, length: nat) {
    |band.kernel| == NextPow2(2 * length) && InWindow(band.events, length)
  }

  /** Sums up the input of a band. */
  method GatherInput(events: seq<BandEvent>, size: nat, length: nat) returns (x: seq<real>)
    requires 2 * length <= size && InWindow(events, length)
    ensures x == InputSums(events, length, size, |events|)
  {
    hide EventInput, Rendered;
    var input := new real[size](_ => 0.0);
    for k := 0 to |events|
      invariant forall m: nat | m < size :: input[m] == InputSum(events, length, size, k, m)
    {
      AccumulateInput(input, events[k], length);
    }
    x := input[..];
  }

  /** Adds one band to the running output and to the running edge correction. Together they gain the
      plain form: every event filtered by the band, cropped to the render window, and then convolved
      with its impulse response. */
  method RenderBand(band: Band, combined: array<real>, correction: array<real>)
    requires Fits(band, correction.Length) && combined.Length == |band.kernel| && combined != correction
    modifies combined, correction
    ensures forall n: nat | n < correction.Length ::
              combined[n] + correction[n] == old(combined[n]) + old(correction[n])
                                             + ReferenceSum(band.kernel, band.events, correction.Length, |band.events|, n)
  {
    hide EventCorrection, Rendered, CircularTerms, ReferenceSum, NextPow2, InputSums;
    var kernel, events, length := band.kernel, band.events, correction.Length;
    var x := GatherInput(events, |kernel|, length);
    var filtered := CircularFilter(kernel, x);
    for m := 0 to combined.Length
      invariant forall j: nat | j < m :: combined[j] == old(combined[j]) + filtered[j]
      invariant forall j: nat | m <= j < combined.Length :: combined[j] == old(combined[j])
      invariant forall n: nat | n < length :: correction[n] == old(correction[n])
    {
      combined[m] := combined[m] + filtered[m];
    }
    for k := 0 to |events|
      invariant forall n: nat | n < length :: correction[n] == old(correction[n]) + CorrectionSum(kernel, events, length, k, n)
      invariant forall j: nat | j < combined.Length :: combined[j] == old(combined[j]) + filtered[j]
    {
      CorrectEdges(correction, kernel, events[k]);
    }
    forall n: nat | n < length
      ensures combined[n] + correction[n] == old(combined[n]) + old(correction[n]) + ReferenceSum(kernel, events, length, |events|, n)
    {
      BandIsExact(kernel, events, length, |events|, n);
    }
  }

  /** The plain form of the first `k` bands. */
  ghost function EarReference(bands: seq<Band>, length: nat, k: nat, n: nat): real
    requires k <= |bands| && forall j | 0 <= j < |bands| :: Fits(bands[j], length)
  {
    if k == 0 then 0.0
    else
      var band := bands[k - 1];
      EarReference(bands, length, k - 1, n) + ReferenceSum(band.kernel, band.events, length, |band.events|, n)
  }

  /** Renders all bands of one ear into the ear's samples: they gain, band by band and event by event,
      the filtered, cropped and then convolved impulses. One transform serves all bands, so the
      filtered signals are summed before the corrections are added. */
  method RenderEar(bands: seq<Band>, ear: array<real>)
    requires forall j | 0 <= j < |bands| :: Fits(bands[j], ear.Length)
    modifies ear
    ensures forall n: nat | n < ear.Length :: ear[n] == old(ear[n]) + EarReference(bands, ear.Length, |bands|, n)
  {
    hide ReferenceSum, Fits;
    var length := ear.Length;
    var combined := new real[NextPow2(2 * length)](_ => 0.0);
    var correction := new real[length](_ => 0.0);
    for k := 0 to |bands|
      invariant forall n: nat | n < length :: combined[n] + correction[n] == EarReference(bands, length, k, n)
      invariant forall n: nat | n < length :: ear[n] == old(ear[n])
    {
      KernelSize(bands[k], length);
      RenderBand(bands[k], combined, correction);
    }
    for i := 0 to length
      invariant forall n: nat | n < i :: ear[n] == old(ear[n]) + EarReference(bands, length, |bands|, n)
      invariant forall n: nat | i <= n < length :: ear[n] == old(ear[n])
      invariant forall n: nat | n < length :: combined[n] + correction[n] == EarReference(bands, length, |bands|, n)
    {
      ear[i] := ear[i] + combined[i] + correction[i];
    }
  }

  lemma KernelSize(band: Band, length: nat)
    requires Fits(band, length)
    ensures |band.kernel| == NextPow2(2 * length)
  {
  }
}
