/** Sparse events and the banded impulse trains built from them (ir/event.go, ir/banded_response.go).
    A phase is held as its cosine and sine, so that adding phases is multiplying phasors; arrival
    times are whole samples. */
module ImpulseTrains {
  import opened Wrappers

  datatype Complex = Complex(re: real, im: real) {
    function Plus(w: Complex): Complex {
      Complex(re + w.re, im + w.im)
    }

    function Times(w: Complex): Complex {
      Complex(re * w.re - im * w.im, re * w.im + im * w.re)
    }

    function Scaled(k: real): Complex {
      Complex(re * k, im * k)
    }
  }

  const NOTHING := Complex(0.0, 0.0)

  datatype Event = Event(sample: int, amplitude: real, phasor: Complex, distance: real, gain: seq<real>)

  /** One impulse response per band; `quadrature` is empty for a response without phase. */
  datatype BandedResponse = BandedResponse(bands: seq<seq<real>>, quadrature: seq<seq<real>>)

  const QUADRATURE_EPS: real := 0.000000000001

  function Abs(x: real): real {
    if x < 0.0 then -x else x
  }

  // ---------- The train an event list stands for ----------

  function Weight(e: Event, band: nat): real {
    if band < |e.gain| then e.gain[band] else 1.0
  }

  /** What an event contributes to a band at its arrival. */
  function Contribution(e: Event, band: nat): Complex {
    e.phasor.Scaled(e.amplitude).Scaled(Weight(e, band))
  }

  function Pulse(e: Event, band: nat, n: int): Complex {
    if e.sample == n then Contribution(e, band) else NOTHING
  }

  /** The value of a band at sample `n`: the sum of what arrives then. */
  function Train(events: seq<Event>, band: nat, n: int): Complex {
    if events == [] then NOTHING else Train(events[..|events| - 1], band, n).Plus(Pulse(events[|events| - 1], band, n))
  }

  lemma {:induction false} TrainOfConcat(a: seq<Event>, b: seq<Event>, band: nat, n: int)
    ensures Train(a + b, band, n) == Train(a, band, n).Plus(Train(b, band, n))
    decreases |b|
  {
    hide Pulse;
    if b == [] {
      assert a + b == a;
    } else {
      var front := b[..|b| - 1];
      assert (a + b)[..|a + b| - 1] == a + front;
      TrainOfConcat(a, front, band, n);
    }
  }

  ghost predicate InTime(events: seq<Event>) {
    forall k | 0 <= k < |events| :: events[k].sample >= 0
  }

  lemma {:induction false} NothingBeforeStart(events: seq<Event>, band: nat, n: int)
    requires InTime(events) && n < 0
    ensures Train(events, band, n) == NOTHING
    decreases |events|
  {
    if events != [] {
      NothingBeforeStart(events[..|events| - 1], band, n);
    }
  }

  // ---------- Building the banded response ----------

  predicate ValidEvent(e: Event, bandCount: nat) {
    e.sample >= 0 && (|e.gain| == 0 || |e.gain| == bandCount)
  }

  ghost predicate ValidEvents(events: seq<Event>, bandCount: nat) {
    forall k | 0 <= k < |events| :: ValidEvent(events[k], bandCount)
  }

  predicate CarriesPhase(e: Event) {
    Abs(e.phasor.im) * Abs(e.amplitude) > QUADRATURE_EPS
  }

  ghost predicate SomePhase(events: seq<Event>) {
    exists k :: 0 <= k < |events| && CarriesPhase(events[k])
  }

  predicate NoQuadrature(e: Event) {
    e.phasor.im * e.amplitude == 0.0
  }

  ghost predicate InPhase(events: seq<Event>) {
    forall k | 0 <= k < |events| :: NoQuadrature(events[k])
  }

  /** The quadrature component is either kept or nothing: no phase is lost to the tolerance. */
  ghost predicate PhaseResolved(events: seq<Event>) {
    SomePhase(events) || InPhase(events)
  }

  method EventsCarryPhase(events: seq<Event>) returns (r: bool)
    ensures r <==> SomePhase(events)
  {
    for k := 0 to |events|
      invariant forall j | 0 <= j < k :: !CarriesPhase(events[j])
    {
      if CarriesPhase(events[k]) {
        return true;
      }
    }
    return false;
  }

  /** Every band holds `length` samples. */
  ghost predicate Shaped(bands: seq<seq<real>>, bandCount: nat, length: nat) {
    |bands| == bandCount && forall b | 0 <= b < bandCount :: |bands[b]| == length
  }

  ghost predicate ShapedResponse(r: BandedResponse, bandCount: nat, length: nat) {
    Shaped(r.bands, bandCount, length) && (r.quadrature == [] || Shaped(r.quadrature, bandCount, length))
  }

  function Silent(bandCount: nat, length: nat): seq<seq<real>> {
    seq(bandCount, _ => seq(length, _ => 0.0))
  }

  /** The complex value a response stands for. */
  function ValueAt(r: BandedResponse, band: nat, n: nat): Complex
    requires band < |r.bands| && n < |r.bands[band]|
    requires r.quadrature != [] ==> band < |r.quadrature| && n < |r.quadrature[band]|
  {
    Complex(r.bands[band][n], if r.quadrature == [] then 0.0 else r.quadrature[band][n])
  }

  /** The bands hold one component of the train, selected by `im`. */
  ghost predicate HoldsTrain(bands: seq<seq<real>>, bandCount: nat, length: nat, events: seq<Event>, im: bool) {
    && Shaped(bands, bandCount, length)
    && forall b: nat, n: nat | b < bandCount && n < length :: bands[b][n] == Component(Train(events, b, n), im)
  }

  function Component(z: Complex, im: bool): real {
    if im then z.im else z.re
  }

  function Added(row: seq<real>, s: nat, x: real): seq<real>
    requires s < |row|
  {
    row[s := row[s] + x]
  }

  lemma ContributionPart(e: Event, b: nat, im: bool, part: real, weight: real, x: real)
    requires part == e.amplitude * Component(e.phasor, im) && weight == Weight(e, b) && x == part * weight
    ensures Component(Contribution(e, b), im) == x
  {
    var p := Component(e.phasor, im);
    assert p * e.amplitude == e.amplitude * p;
  }

  /** The contribution of an event to every band, one component. */
  method Parts(e: Event, bandCount: nat, im: bool) returns (xs: seq<real>)
    requires ValidEvent(e, bandCount)
    ensures |xs| == bandCount && forall b: nat | b < bandCount :: xs[b] == Component(Contribution(e, b), im)
  {
    xs := [];
    for b := 0 to bandCount
      invariant |xs| == b && forall c: nat | c < b :: xs[c] == Component(Contribution(e, c), im)
    {
      hide Contribution;
      var part := e.amplitude * Component(e.phasor, im);
      var weight := if |e.gain| > 0 then e.gain[b] else 1.0;
      var x := part * weight;
      ContributionPart(e, b, im, part, weight, x);
      xs := xs + [x];
    }
  }

  /** Adds one event's component to every band. */
  method Accumulate(bands: seq<seq<real>>, bandCount: nat, length: nat, ghost events: seq<Event>, e: Event, im: bool) returns (r: seq<seq<real>>)
    requires HoldsTrain(bands, bandCount, length, events, im) && ValidEvent(e, bandCount)
    ensures HoldsTrain(r, bandCount, length, events + [e], im)
  {
    hide Contribution;
    ghost var more := events + [e];
    assert more[..|more| - 1] == events;
    r := bands;
    if e.sample >= length {
      return;
    }
    var xs := Parts(e, bandCount, im);
    for b := 0 to bandCount
      invariant Shaped(r, bandCount, length)
      invariant forall c: nat, n: nat | c < b && n < length :: r[c][n] == Component(Train(more, c, n), im)
      invariant forall c: nat | b <= c < bandCount :: r[c] == bands[c]
    {
      r := r[b := Added(r[b], e.sample, xs[b])];
      forall n: nat | n < length
        ensures r[b][n] == Component(Train(more, b, n), im)
      {
        OneMorePulse(events, e, b, n, im);
      }
    }
  }

  lemma OneMorePulse(events: seq<Event>, e: Event, b: nat, n: nat, im: bool)
    ensures Component(Train(events + [e], b, n), im)
            == Component(Train(events, b, n), im) + if e.sample == n then Component(Contribution(e, b), im) else 0.0
  {
    hide Contribution;
    assert (events + [e])[..|events|] == events;
  }

  method ValidateEvents(events: seq<Event>, bandCount: nat) returns (ok: bool)
    ensures ok <==> ValidEvents(events, bandCount)
  {
    for k := 0 to |events|
      invariant forall j | 0 <= j < k :: ValidEvent(events[j], bandCount)
    {
      if !ValidEvent(events[k], bandCount) {
        return false;
      }
    }
    return true;
  }

  /** The bands hold the train's in-phase component and, if some event carries phase, its quadrature. */
  ghost predicate IsResponse(r: BandedResponse, events: seq<Event>, bandCount: nat, length: nat) {
    && ShapedResponse(r, bandCount, length) && HoldsTrain(r.bands, bandCount, length, events, false)
    && (SomePhase(events) ==> HoldsTrain(r.quadrature, bandCount, length, events, true))
    && (!SomePhase(events) ==> r.quadrature == [])
  }

  /** Builds one impulse train per band. Without bands or sample rate, or on an event before time zero
      or with another number of band gains, it fails. */
  method BandedFromEvents(events: seq<Event>, bandCount: nat, sampleRate: int, length: nat) returns (r: Result<BandedResponse>)
    ensures r.Ok? <==> bandCount > 0 && sampleRate > 0 && ValidEvents(events, bandCount)
    ensures r.Ok? ==> IsResponse(r.value, events, bandCount, length)
  {
    if bandCount == 0 {
      return Err("banded response requires a band spec");
    }
    if sampleRate <= 0 {
      return Err("banded response requires a positive sample rate");
    }
    var valid := ValidateEvents(events, bandCount);
    if !valid {
      return Err("an event does not fit the bands");
    }
    var phase := EventsCarryPhase(events);
    var bands, quadrature := Silent(bandCount, length), [];
    if phase {
      quadrature := Silent(bandCount, length);
    }
    for k := 0 to |events|
      invariant HoldsTrain(bands, bandCount, length, events[..k], false)
      invariant phase ==> HoldsTrain(quadrature, bandCount, length, events[..k], true)
      invariant !phase ==> quadrature == []
    {
      assert events[..k + 1] == events[..k] + [events[k]];
      bands := Accumulate(bands, bandCount, length, events[..k], events[k], false);
      if phase {
        quadrature := Accumulate(quadrature, bandCount, length, events[..k], events[k], true);
      }
    }
    assert events[..|events|] == events;
    r := Ok(BandedResponse(bands, quadrature));
  }

  lemma InPhaseContribution(e: Event, band: nat)
    requires NoQuadrature(e)
    ensures Contribution(e, band).im == 0.0
  {
    var x := e.phasor.im * e.amplitude;
    assert x * Weight(e, band) == 0.0;
  }

  lemma {:induction false} InPhaseTrain(events: seq<Event>, band: nat, n: int)
    requires InPhase(events)
    ensures Train(events, band, n).im == 0.0
    decreases |events|
  {
    hide Contribution, NoQuadrature;
    if events != [] {
      InPhaseTrain(events[..|events| - 1], band, n);
      InPhaseContribution(events[|events| - 1], band);
    }
  }

  // ---------- Phase below the tolerance ----------

  /** The absolute weights, in one band, of the events at one sample. */
  function WeightSum(events: seq<Event>, band: nat, n: int): real {
    if events == [] then 0.0
    else
      var e := events[|events| - 1];
      WeightSum(events[..|events| - 1], band, n) + if e.sample == n then Abs(Weight(e, band)) else 0.0
  }

  lemma AbsProduct(x: real, y: real)
    ensures Abs(x * y) == Abs(x) * Abs(y)
  {
  }

  lemma AbsScaled(x: real, limit: real, w: real)
    requires Abs(x) <= limit
    ensures Abs(x * w) <= limit * Abs(w)
  {
    AbsProduct(x, w);
    var a, b := Abs(x), Abs(w);
    assert (limit - a) * b >= 0.0;
    assert (limit - a) * b == limit * b - a * b;
  }

  lemma SmallContribution(e: Event, band: nat)
    requires !CarriesPhase(e)
    ensures Abs(Contribution(e, band).im) <= QUADRATURE_EPS * Abs(Weight(e, band))
  {
    var x := e.phasor.im * e.amplitude;
    AbsProduct(e.phasor.im, e.amplitude);
    AbsScaled(x, QUADRATURE_EPS, Weight(e, band));
    assert Contribution(e, band).im == x * Weight(e, band);
  }

  lemma AddBounds(x: real, y: real, a: real, b: real, eps: real)
    requires Abs(x) <= eps * a && Abs(y) <= eps * b
    ensures Abs(x + y) <= eps * (a + b)
  {
    assert eps * (a + b) == eps * a + eps * b;
  }

  lemma {:induction false} SmallTrain(events: seq<Event>, band: nat, n: int)
    requires !SomePhase(events)
    ensures Abs(Train(events, band, n).im) <= QUADRATURE_EPS * WeightSum(events, band, n)
    decreases |events|
  {
    hide Contribution, CarriesPhase, Weight, Abs;
    if events == [] {
      AbsProduct(0.0, 0.0);
      NoWeight();
    } else {
      var front, e := events[..|events| - 1], events[|events| - 1];
      assert !SomePhase(front);
      assert !CarriesPhase(e);
      SmallTrain(front, band, n);
      SmallContribution(e, band);
      NoWeight();
      AddBounds(Train(front, band, n).im, Pulse(e, band, n).im, WeightSum(front, band, n), if e.sample == n then Abs(Weight(e, band)) else 0.0, QUADRATURE_EPS);
    }
  }

  lemma NoWeight()
    ensures Abs(0.0) == 0.0 && QUADRATURE_EPS * 0.0 == 0.0
  {
  }

  /** Whatever the phases are, the in-phase component is exact, and what is lost of the quadrature is
      within the tolerance times the weights of the events at the sample. The response is the train if
      and only if nothing was to be lost. */
  lemma LostPhaseIsSmall(events: seq<Event>, r: BandedResponse, bandCount: nat, length: nat, b: nat, n: nat)
    requires IsResponse(r, events, bandCount, length) && b < bandCount && n < length
    ensures ValueAt(r, b, n).re == Train(events, b, n).re
    ensures Abs(ValueAt(r, b, n).im - Train(events, b, n).im) <= QUADRATURE_EPS * WeightSum(events, b, n) || SomePhase(events)
    ensures ValueAt(r, b, n) == Train(events, b, n) <==> SomePhase(events) || Train(events, b, n).im == 0.0
  {
    if !SomePhase(events) {
      SmallTrain(events, b, n);
    }
  }

  /** A built response stands for the train of its events when no phase is lost. */
  lemma ResponseIsTrain(events: seq<Event>, r: BandedResponse, bandCount: nat, length: nat, b: nat, n: nat)
    requires IsResponse(r, events, bandCount, length) && PhaseResolved(events) && b < bandCount && n < length
    ensures ValueAt(r, b, n) == Train(events, b, n)
  {
    if !SomePhase(events) {
      InPhaseTrain(events, b, n);
    }
  }
}
