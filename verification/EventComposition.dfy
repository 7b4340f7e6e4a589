/** Composing the hops of a path in the event domain (crossroom/events.go). */
module EventComposition {
  import opened ImpulseTrains
  import opened Sorting

  /** The -80 dB floor below the strongest event, as a pressure ratio. */
  const EVENT_FLOOR: real := 0.0001

  // ---------- Complex arithmetic ----------

  lemma SumTimes(a: Complex, b: Complex, c: Complex)
    ensures a.Plus(b).Times(c) == a.Times(c).Plus(b.Times(c))
    ensures c.Times(a.Plus(b)) == c.Times(a).Plus(c.Times(b))
  {
  }

  lemma SumScaled(a: Complex, b: Complex, k: real)
    ensures a.Plus(b).Scaled(k) == a.Scaled(k).Plus(b.Scaled(k))
  {
  }

  lemma NothingTimes(a: Complex)
    ensures NOTHING.Times(a) == NOTHING && a.Times(NOTHING) == NOTHING
  {
  }

  lemma ZeroScaled(k: real)
    ensures NOTHING.Scaled(k) == NOTHING
  {
  }

  // ---------- The cartesian product of two hops ----------

  function ExpandGain(gain: seq<real>, bandCount: nat): (r: seq<real>)
    ensures |r| == bandCount
  {
    seq(bandCount, b requires 0 <= b < bandCount => if b < |gain| then gain[b] else 1.0)
  }

  function PortalGain(gain: seq<real>, band: nat): real {
    if band < |gain| then gain[band] else 1.0
  }

  /** One event of the first hop followed by one of the second, through a portal. */
  function Combined(first: Event, second: Event, gain: seq<real>, bandCount: nat): Event
    requires |first.gain| == bandCount
  {
    var expanded := ExpandGain(second.gain, bandCount);
    Event(first.sample + second.sample, first.amplitude * second.amplitude, first.phasor.Times(second.phasor), first.distance + second.distance,
          seq(bandCount, b requires 0 <= b < bandCount => first.gain[b] * expanded[b] * PortalGain(gain, b)))
  }

  lemma FactorsMultiply(a: Complex, x: real, w: real, c: Complex, y: real, v: real, g: real)
    ensures a.Times(c).Scaled(x * y).Scaled(w * v * g) == a.Scaled(x).Scaled(w).Times(c.Scaled(y).Scaled(v)).Scaled(g)
  {
    ProductOfScaled(a, x, c, y);
    ProductOfScaled(a.Scaled(x), w, c.Scaled(y), v);
    ScaledTwice(a.Times(c).Scaled(x * y), w * v, g);
  }

  lemma ProductOfScaled(a: Complex, x: real, c: Complex, y: real)
    ensures a.Scaled(x).Times(c.Scaled(y)) == a.Times(c).Scaled(x * y)
  {
    Swap(a.re, x, c.re, y);
    Swap(a.im, x, c.im, y);
    Swap(a.re, x, c.im, y);
    Swap(a.im, x, c.re, y);
    var p, q, u, v, k := a.re * c.re, a.im * c.im, a.re * c.im, a.im * c.re, x * y;
    assert (p - q) * k == p * k - q * k && (u + v) * k == u * k + v * k;
  }

  lemma Swap(p: real, x: real, q: real, y: real)
    ensures (p * x) * (q * y) == (p * q) * (x * y)
  {
  }

  lemma ScaledTwice(a: Complex, x: real, y: real)
    ensures a.Scaled(x * y) == a.Scaled(x).Scaled(y)
  {
  }

  /** Amplitudes, gains and the portal multiply, and phases add. */
  lemma CombinedContribution(first: Event, second: Event, gain: seq<real>, bandCount: nat, b: nat)
    requires |first.gain| == bandCount && b < bandCount
    ensures Contribution(Combined(first, second, gain, bandCount), b)
            == Contribution(first, b).Times(Contribution(second, b)).Scaled(PortalGain(gain, b))
  {
    hide Complex.Times, Complex.Scaled, Weight, PortalGain;
    var x, y, w, v, g := first.amplitude, second.amplitude, Weight(first, b), Weight(second, b), PortalGain(gain, b);
    FactorsAt(first.phasor, x, w, second.phasor, y, v, g, x * y, w * v * g);
    CombinedIs(first, second, gain, bandCount, b, x * y, w * v * g);
  }

  lemma FactorsAt(a: Complex, x: real, w: real, c: Complex, y: real, v: real, g: real, xy: real, wvg: real)
    requires xy == x * y && wvg == w * v * g
    ensures a.Times(c).Scaled(xy).Scaled(wvg) == a.Scaled(x).Scaled(w).Times(c.Scaled(y).Scaled(v)).Scaled(g)
  {
    hide Complex.Times, Complex.Scaled;
    FactorsMultiply(a, x, w, c, y, v, g);
  }

  lemma CombinedIs(first: Event, second: Event, gain: seq<real>, bandCount: nat, b: nat, xy: real, wvg: real)
    requires |first.gain| == bandCount && b < bandCount
    requires xy == first.amplitude * second.amplitude && wvg == Weight(first, b) * Weight(second, b) * PortalGain(gain, b)
    ensures Contribution(Combined(first, second, gain, bandCount), b) == first.phasor.Times(second.phasor).Scaled(xy).Scaled(wvg)
  {
    hide Complex.Times, Complex.Scaled, PortalGain;
    CombinedWeight(first, second, gain, bandCount, b, wvg);
    var e := Combined(first, second, gain, bandCount);
    assert e.phasor == first.phasor.Times(second.phasor) && e.amplitude == xy;
  }

  lemma CombinedWeight(first: Event, second: Event, gain: seq<real>, bandCount: nat, b: nat, wvg: real)
    requires |first.gain| == bandCount && b < bandCount && wvg == Weight(first, b) * Weight(second, b) * PortalGain(gain, b)
    ensures Weight(Combined(first, second, gain, bandCount), b) == wvg
  {
    hide PortalGain, Complex.Times;
  }

  /** One event of the first hop with every event of the second. */
  function Row(first: Event, next: seq<Event>, gain: seq<real>, bandCount: nat): seq<Event>
    requires |first.gain| == bandCount
  {
    if next == [] then [] else Row(first, next[..|next| - 1], gain, bandCount) + [Combined(first, next[|next| - 1], gain, bandCount)]
  }

  ghost predicate Expanded(events: seq<Event>, bandCount: nat) {
    forall k | 0 <= k < |events| :: |events[k].gain| == bandCount
  }

  function Product(running: seq<Event>, next: seq<Event>, gain: seq<real>, bandCount: nat): seq<Event>
    requires Expanded(running, bandCount)
  {
    if running == [] then []
    else Product(running[..|running| - 1], next, gain, bandCount) + Row(running[|running| - 1], next, gain, bandCount)
  }

  lemma CombinedPulse(first: Event, second: Event, gain: seq<real>, bandCount: nat, b: nat, n: int)
    requires |first.gain| == bandCount && b < bandCount
    ensures Pulse(Combined(first, second, gain, bandCount), b, n)
            == Contribution(first, b).Times(Pulse(second, b, n - first.sample)).Scaled(PortalGain(gain, b))
  {
    CombinedContribution(first, second, gain, bandCount, b);
    hide Complex.Times, Complex.Scaled, Contribution, PortalGain;
    NothingTimes(Contribution(first, b));
    ZeroScaled(PortalGain(gain, b));
  }

  lemma LinearStep(v: Complex, train: Complex, pulse: Complex, g: real)
    ensures v.Times(train.Plus(pulse)).Scaled(g) == v.Times(train).Scaled(g).Plus(v.Times(pulse).Scaled(g))
  {
    SumTimes(train, pulse, v);
    SumScaled(v.Times(train), v.Times(pulse), g);
  }

  /** A row is the second hop's train, delayed and scaled by the first event. */
  lemma {:induction false} RowTrain(first: Event, next: seq<Event>, gain: seq<real>, bandCount: nat, b: nat, n: int)
    requires |first.gain| == bandCount && b < bandCount
    ensures Train(Row(first, next, gain, bandCount), b, n)
            == Contribution(first, b).Times(Train(next, b, n - first.sample)).Scaled(PortalGain(gain, b))
    decreases |next|
  {
    hide Contribution, Pulse, Complex.Times, Complex.Scaled, Complex.Plus, Combined, PortalGain;
    if next == [] {
      NothingTimes(Contribution(first, b));
      ZeroScaled(PortalGain(gain, b));
    } else {
      var front, last := next[..|next| - 1], next[|next| - 1];
      RowTrain(first, front, gain, bandCount, b, n);
      CombinedPulse(first, last, gain, bandCount, b, n);
      var row := Row(first, next, gain, bandCount);
      assert row[..|row| - 1] == Row(first, front, gain, bandCount);
      LinearStep(Contribution(first, b), Train(front, b, n - first.sample), Pulse(last, b, n - first.sample), PortalGain(gain, b));
    }
  }

  // ---------- Convolution of trains ----------

  /** The first `m` terms of the convolution of two trains at sample `n`. */
  function Convolved(a: seq<Event>, c: seq<Event>, b: nat, n: int, m: nat): Complex {
    if m == 0 then NOTHING else Convolved(a, c, b, n, m - 1).Plus(Train(a, b, m - 1).Times(Train(c, b, n - (m - 1))))
  }

  function EchoOf(e: Event, c: seq<Event>, b: nat, n: int, m: nat): Complex {
    if 0 <= e.sample < m then Contribution(e, b).Times(Train(c, b, n - e.sample)) else NOTHING
  }

  lemma Regroup(p: Complex, e: Complex, t: Complex, u: Complex)
    ensures p.Plus(e).Plus(t.Plus(u)) == p.Plus(t).Plus(e.Plus(u))
    ensures p.Plus(NOTHING) == p && NOTHING.Plus(p) == p
  {
  }

  lemma TrainAppend(a: seq<Event>, e: Event, b: nat, n: int)
    ensures Train(a + [e], b, n) == Train(a, b, n).Plus(Pulse(e, b, n))
  {
    hide Pulse;
    assert (a + [e])[..|a|] == a;
  }

  /** One more event adds one echo of the second train. */
  lemma {:induction false} ConvolvedAppend(a: seq<Event>, e: Event, c: seq<Event>, b: nat, n: int, m: nat)
    requires e.sample >= 0
    ensures Convolved(a + [e], c, b, n, m) == Convolved(a, c, b, n, m).Plus(EchoOf(e, c, b, n, m))
    decreases m
  {
    hide Contribution, Complex.Times, Train;
    if m > 0 {
      var i := m - 1;
      ConvolvedAppend(a, e, c, b, n, i);
      TrainAppend(a, e, b, i);
      var t := Train(c, b, n - i);
      SumTimes(Train(a, b, i), Pulse(e, b, i), t);
      NothingTimes(t);
    }
  }

  lemma {:induction false} ConvolvedNothing(c: seq<Event>, b: nat, n: int, m: nat)
    ensures Convolved([], c, b, n, m) == NOTHING
    decreases m
  {
    hide Complex.Times, Contribution;
    if m > 0 {
      ConvolvedNothing(c, b, n, m - 1);
      NothingTimes(Train(c, b, n - (m - 1)));
    }
  }

  /** The cartesian product of two event lists is the convolution of their trains. */
  lemma {:induction false} ProductIsConvolution(running: seq<Event>, next: seq<Event>, gain: seq<real>, bandCount: nat, b: nat, n: nat)
    requires Expanded(running, bandCount) && b < bandCount && InTime(running) && InTime(next)
    ensures Train(Product(running, next, gain, bandCount), b, n) == Convolved(running, next, b, n, n + 1).Scaled(PortalGain(gain, b))
    decreases |running|
  {
    hide Contribution, Complex.Times, Complex.Scaled, Complex.Plus, PortalGain, Row, Pulse;
    var g := PortalGain(gain, b);
    if running == [] {
      ConvolvedNothing(next, b, n, n + 1);
      ZeroScaled(g);
    } else {
      var front, last := running[..|running| - 1], running[|running| - 1];
      ProductIsConvolution(front, next, gain, bandCount, b, n);
      assert running == front + [last];
      ConvolvedAppend(front, last, next, b, n, n + 1);
      TrainOfConcat(Product(front, next, gain, bandCount), Row(last, next, gain, bandCount), b, n);
      RowTrain(last, next, gain, bandCount, b, n);
      SumScaled(Convolved(front, next, b, n, n + 1), EchoOf(last, next, b, n, n + 1), g);
      if last.sample > n {
        NothingBeforeStart(next, b, n - last.sample);
        NothingTimes(Contribution(last, b));
      }
    }
  }

  // ---------- Pruning ----------

  /** The largest magnitude of a gain. */
  function PeakGain(gain: seq<real>): (r: real)
    ensures r >= 0.0
    ensures forall b | 0 <= b < |gain| :: Abs(gain[b]) <= r
  {
    if gain == [] then 0.0
    else
      var rest, last := PeakGain(gain[..|gain| - 1]), Abs(gain[|gain| - 1]);
      if last > rest then last else rest
  }

  lemma {:induction false} PeakGainIsAttained(gain: seq<real>) returns (b: nat)
    requires gain != []
    ensures b < |gain| && Abs(gain[b]) == PeakGain(gain)
    decreases |gain|
  {
    var n := |gain| - 1;
    b := n;
    if n > 0 && Abs(gain[n]) <= PeakGain(gain[..n]) {
      b := PeakGainIsAttained(gain[..n]);
    }
  }

  function Magnitude(e: Event): real {
    Abs(e.amplitude) * if e.gain == [] then 1.0 else PeakGain(e.gain)
  }

  /** The strongest event's magnitude. */
  function Peak(events: seq<Event>): real {
    if events == [] then 0.0
    else
      var rest, last := Peak(events[..|events| - 1]), Magnitude(events[|events| - 1]);
      if last > rest then last else rest
  }

  lemma {:induction false} PeakIsLargest(events: seq<Event>)
    ensures Peak(events) >= 0.0
    ensures forall k | 0 <= k < |events| :: Magnitude(events[k]) <= Peak(events)
    decreases |events|
  {
    hide Magnitude;
    if events != [] {
      PeakIsLargest(events[..|events| - 1]);
    }
  }

  /** The event's amplitude in a band. */
  function LevelIn(e: Event, b: nat): real
    requires b < |e.gain|
  {
    Abs(e.amplitude * e.gain[b])
  }

  /** `x` is the event's level: its amplitude, or the largest of its amplitudes in the bands. */
  ghost predicate LoudAs(e: Event, x: real) {
    if e.gain == [] then x == Abs(e.amplitude)
    else (exists b: nat :: b < |e.gain| && x == LevelIn(e, b)) && forall b: nat | b < |e.gain| :: LevelIn(e, b) <= x
  }

  lemma AbsOfProduct(x: real, y: real, z: real)
    requires z == x * y
    ensures Abs(z) == Abs(x) * Abs(y)
  {
  }

  lemma LoudnessIs(e: Event)
    ensures LoudAs(e, Magnitude(e))
  {
    if e.gain == [] {
      assert Magnitude(e) == Abs(e.amplitude) * 1.0;
    } else {
      hide Magnitude, LevelIn;
      var loudest := PeakGainIsAttained(e.gain);
      forall b: nat | b < |e.gain|
        ensures LevelIn(e, b) <= Magnitude(e)
        ensures Abs(e.gain[b]) == PeakGain(e.gain) ==> LevelIn(e, b) == Magnitude(e)
      {
        LevelInBand(e, b);
      }
    }
  }

  lemma LevelInBand(e: Event, b: nat)
    requires b < |e.gain| && Abs(e.gain[b]) <= PeakGain(e.gain)
    ensures LevelIn(e, b) <= Magnitude(e)
    ensures Abs(e.gain[b]) == PeakGain(e.gain) ==> LevelIn(e, b) == Magnitude(e)
  {
    hide Magnitude, PeakGain, Abs, LevelIn;
    MagnitudeWithGain(e);
    LevelIsProduct(e, b);
    LevelBelow(Abs(e.amplitude), Abs(e.gain[b]), PeakGain(e.gain), LevelIn(e, b), Magnitude(e));
  }

  lemma LevelIsProduct(e: Event, b: nat)
    requires b < |e.gain|
    ensures LevelIn(e, b) == Abs(e.amplitude) * Abs(e.gain[b])
  {
    AbsOfProduct(e.amplitude, e.gain[b], e.amplitude * e.gain[b]);
    hide Abs;
  }

  lemma MagnitudeWithGain(e: Event)
    requires e.gain != []
    ensures Magnitude(e) == Abs(e.amplitude) * PeakGain(e.gain) && Abs(e.amplitude) >= 0.0
  {
  }

  lemma LevelBelow(a: real, x: real, y: real, level: real, peak: real)
    requires a >= 0.0 && x <= y && level == a * x && peak == a * y
    ensures level <= peak && (x == y ==> level == peak)
  {
  }

  lemma LoudnessIsUnique(e: Event, x: real, y: real)
    requires LoudAs(e, x) && LoudAs(e, y)
    ensures x == y
  {
  }

  /** `y` is the level of the loudest event, which is audible. */
  ghost predicate LoudestIs(events: seq<Event>, y: real) {
    && y > 0.0 && (exists k :: 0 <= k < |events| && LoudAs(events[k], y))
    && forall k, x | 0 <= k < |events| && LoudAs(events[k], x) :: x <= y
  }

  lemma PeakIsLoudest(events: seq<Event>, y: real)
    requires LoudestIs(events, y)
    ensures Peak(events) == y
  {
    hide Magnitude, LoudAs;
    PeakIsLargest(events);
    var k :| 0 <= k < |events| && LoudAs(events[k], y);
    LoudnessIs(events[k]);
    LoudnessIsUnique(events[k], y, Magnitude(events[k]));
    if Peak(events) > 0.0 {
      var j: nat := PeakIsAttained(events);
      LoudnessIs(events[j]);
    }
  }

  lemma {:induction false} PeakIsAttained(events: seq<Event>) returns (k: nat)
    requires Peak(events) > 0.0
    ensures k < |events| && Magnitude(events[k]) == Peak(events)
    decreases |events|
  {
    hide Magnitude;
    var rest := events[..|events| - 1];
    if Magnitude(events[|events| - 1]) > Peak(rest) {
      k := |events| - 1;
    } else {
      k := PeakIsAttained(rest);
    }
  }

  /** Without a cap, pruning keeps exactly the events within 80 dB of the loudest. */
  lemma FloorKeeps(events: seq<Event>, maxEvents: int, e: Event, x: real, y: real)
    requires maxEvents <= 0 && LoudestIs(events, y) && LoudAs(e, x)
    ensures e in Pruned(events, maxEvents).0 <==> e in events && x > y * 0.0001
    ensures Pruned(events, maxEvents).1 == 0
  {
    hide Magnitude, LoudAs, Louder, Peak, SortBy;
    PeakIsLoudest(events, y);
    LoudnessIs(e);
    LoudnessIsUnique(e, x, Magnitude(e));
    LouderMembers(events, Peak(events) * EVENT_FLOOR, e);
  }

  lemma MagnitudeIsNonNegative(e: Event)
    ensures Magnitude(e) >= 0.0
  {
  }

  /** The events above a threshold, in their old order. */
  function Louder(events: seq<Event>, threshold: real): seq<Event> {
    if events == [] then []
    else
      var rest, last := Louder(events[..|events| - 1], threshold), events[|events| - 1];
      if Magnitude(last) > threshold then rest + [last] else rest
  }

  lemma {:induction false} LouderMembers(events: seq<Event>, threshold: real, e: Event)
    ensures e in Louder(events, threshold) <==> e in events && Magnitude(e) > threshold
    decreases |events|
  {
    hide Magnitude;
    if events != [] {
      LouderMembers(events[..|events| - 1], threshold, e);
      assert events == events[..|events| - 1] + [events[|events| - 1]];
    }
  }

  predicate AtLeastAsLoud(a: Event, b: Event) {
    Magnitude(a) >= Magnitude(b)
  }

  /** What pruning keeps, and how many events the cap removes. */
  function Pruned(events: seq<Event>, maxEvents: int): (seq<Event>, nat) {
    if events == [] || Peak(events) <= 0.0 then ([], 0)
    else
      var loud := Louder(events, Peak(events) * EVENT_FLOOR);
      if maxEvents > 0 && |loud| > maxEvents then (SortBy(AtLeastAsLoud, loud)[..maxEvents], |loud| - maxEvents)
      else (loud, 0)
  }

  method FindPeak(events: seq<Event>) returns (peak: real)
    ensures peak == Peak(events)
  {
    hide Magnitude;
    peak := 0.0;
    for k := 0 to |events|
      invariant peak == Peak(events[..k])
    {
      assert events[..k + 1][..k] == events[..k];
      peak := if Magnitude(events[k]) > peak then Magnitude(events[k]) else peak;
    }
    assert events[..|events|] == events;
  }

  method KeepLouder(events: seq<Event>, threshold: real) returns (kept: seq<Event>)
    ensures kept == Louder(events, threshold)
  {
    hide Magnitude;
    kept := [];
    for k := 0 to |events|
      invariant kept == Louder(events[..k], threshold)
    {
      assert events[..k + 1][..k] == events[..k];
      if Magnitude(events[k]) > threshold {
        kept := kept + [events[k]];
      }
    }
    assert events[..|events|] == events;
  }

  /** Drops what is below the floor, then what is beyond the cap. */
  method Prune(events: seq<Event>, maxEvents: int) returns (kept: seq<Event>, dropped: nat)
    ensures (kept, dropped) == Pruned(events, maxEvents)
  {
    hide Louder, Peak, SortBy;
    if events == [] {
      return events, 0;
    }
    var peak := FindPeak(events);
    if peak <= 0.0 {
      return [], 0;
    }
    kept := KeepLouder(events, peak * EVENT_FLOOR);
    dropped := 0;
    if maxEvents > 0 && |kept| > maxEvents {
      var sorted := SortBy(AtLeastAsLoud, kept);
      dropped := |kept| - maxEvents;
      kept := sorted[..maxEvents];
    }
  }

  lemma OrderedByLoudness()
    ensures TotalPreorder(AtLeastAsLoud)
  {
    hide Magnitude;
  }

  lemma PrunedMembers(events: seq<Event>, maxEvents: int, e: Event)
    requires e in Pruned(events, maxEvents).0
    ensures e in events
  {
    hide Magnitude, Louder, Peak, SortBy;
    var loud := Louder(events, Peak(events) * EVENT_FLOOR);
    SameElements(SortBy(AtLeastAsLoud, loud), loud);
    LouderMembers(events, Peak(events) * EVENT_FLOOR, e);
  }

  lemma PrefixIsLoudest(loud: seq<Event>, m: nat, e: Event, kept: Event)
    requires m <= |loud| && e in loud && e !in SortBy(AtLeastAsLoud, loud)[..m] && kept in SortBy(AtLeastAsLoud, loud)[..m]
    ensures Magnitude(kept) >= Magnitude(e)
  {
    var sorted := SortBy(AtLeastAsLoud, loud);
    hide Magnitude, SortBy, TotalPreorder;
    OrderedByLoudness();
    SortByIsSorted(AtLeastAsLoud, loud);
    SameElements(sorted, loud);
    var j :| 0 <= j < |sorted| && sorted[j] == e;
    var i :| 0 <= i < m && sorted[i] == kept;
    assert sorted == sorted[..m] + sorted[m..];
    assert AtLeastAsLoud(sorted[i], sorted[j]);
  }

  /** Everything the cap removes is no louder than anything kept. */
  lemma CapKeepsTheLoudest(events: seq<Event>, maxEvents: int, e: Event, kept: Event)
    requires e in Louder(events, Peak(events) * EVENT_FLOOR) && e !in Pruned(events, maxEvents).0 && kept in Pruned(events, maxEvents).0
    ensures kept in events && Magnitude(kept) >= Magnitude(e)
  {
    hide Magnitude, Louder, Peak, SortBy;
    PrunedMembers(events, maxEvents, kept);
    PrefixIsLoudest(Louder(events, Peak(events) * EVENT_FLOOR), maxEvents, e, kept);
  }

  /** Pruning removes only silence: every event is above the floor or silent, and the cap is not reached. */
  ghost predicate LosesNothing(events: seq<Event>, maxEvents: int) {
    var loud := Louder(events, Peak(events) * EVENT_FLOOR);
    && (maxEvents <= 0 || |loud| <= maxEvents)
    && forall k | 0 <= k < |events| :: Magnitude(events[k]) > Peak(events) * EVENT_FLOOR || Magnitude(events[k]) == 0.0
  }

  lemma ZeroFactor(x: real, y: real)
    requires x * y == 0.0
    ensures x == 0.0 || y == 0.0
  {
  }

  lemma SilentContribution(e: Event, b: nat)
    requires Magnitude(e) == 0.0 && (e.gain == [] || b < |e.gain|)
    ensures Contribution(e, b) == NOTHING
  {
    ZeroFactor(Abs(e.amplitude), if e.gain == [] then 1.0 else PeakGain(e.gain));
    if e.amplitude == 0.0 {
      assert e.phasor.Scaled(e.amplitude) == NOTHING;
      ZeroScaled(Weight(e, b));
    } else {
      assert Weight(e, b) == 0.0 by {
        assert e.gain != [] && PeakGain(e.gain) == 0.0;
        assert Abs(e.gain[b]) <= 0.0;
      }
      ScaledByZero(e.phasor.Scaled(e.amplitude), Weight(e, b));
    }
  }

  lemma ScaledByZero(z: Complex, k: real)
    requires k == 0.0
    ensures z.Scaled(k) == NOTHING
  {
  }

  lemma {:induction false} SilentTrain(events: seq<Event>, bandCount: nat, b: nat, n: int)
    requires Expanded(events, bandCount) && b < bandCount && forall k | 0 <= k < |events| :: Magnitude(events[k]) == 0.0
    ensures Train(events, b, n) == NOTHING
    decreases |events|
  {
    hide Contribution, Magnitude;
    if events != [] {
      SilentTrain(events[..|events| - 1], bandCount, b, n);
      SilentContribution(events[|events| - 1], b);
    }
  }

  lemma {:induction false} LouderTrain(events: seq<Event>, threshold: real, bandCount: nat, b: nat, n: int)
    requires Expanded(events, bandCount) && b < bandCount
    requires forall k | 0 <= k < |events| :: Magnitude(events[k]) > threshold || Magnitude(events[k]) == 0.0
    ensures Train(Louder(events, threshold), b, n) == Train(events, b, n)
    decreases |events|
  {
    hide Contribution, Magnitude;
    if events != [] {
      var front, last := events[..|events| - 1], events[|events| - 1];
      LouderTrain(front, threshold, bandCount, b, n);
      if Magnitude(last) > threshold {
        var loud := Louder(events, threshold);
        assert loud[..|loud| - 1] == Louder(front, threshold);
      } else {
        SilentContribution(last, b);
      }
    }
  }

  /** A prune that loses nothing leaves the train as it was. */
  lemma PrunedTrain(events: seq<Event>, maxEvents: int, bandCount: nat, b: nat, n: int)
    requires Expanded(events, bandCount) && b < bandCount && LosesNothing(events, maxEvents)
    ensures Train(Pruned(events, maxEvents).0, b, n) == Train(events, b, n)
  {
    hide Magnitude, Contribution;
    if events != [] {
      if Peak(events) <= 0.0 {
        PeakIsLargest(events);
        forall k | 0 <= k < |events|
          ensures Magnitude(events[k]) == 0.0
        {
          MagnitudeIsNonNegative(events[k]);
        }
        SilentTrain(events, bandCount, b, n);
      } else {
        LouderTrain(events, Peak(events) * EVENT_FLOOR, bandCount, b, n);
      }
    }
  }

  // ---------- Composing a path ----------

  function ExpandEvent(e: Event, bandCount: nat): Event {
    e.(gain := ExpandGain(e.gain, bandCount))
  }

  function ExpandEvents(events: seq<Event>, bandCount: nat): (r: seq<Event>)
    ensures |r| == |events| && Expanded(r, bandCount)
    ensures InTime(events) ==> InTime(r)
  {
    seq(|events|, k requires 0 <= k < |events| => ExpandEvent(events[k], bandCount))
  }

  lemma {:induction false} ExpandedTrain(events: seq<Event>, bandCount: nat, b: nat, n: int)
    requires b < bandCount
    ensures Train(ExpandEvents(events, bandCount), b, n) == Train(events, b, n)
    decreases |events|
  {
    hide Complex.Scaled;
    if events != [] {
      var front, r := events[..|events| - 1], ExpandEvents(events, bandCount);
      ExpandedTrain(front, bandCount, b, n);
      assert r[..|r| - 1] == ExpandEvents(front, bandCount);
    }
  }

  lemma {:induction false} RowShape(first: Event, next: seq<Event>, gain: seq<real>, bandCount: nat)
    requires |first.gain| == bandCount
    ensures Expanded(Row(first, next, gain, bandCount), bandCount)
    ensures first.sample >= 0 && InTime(next) ==> InTime(Row(first, next, gain, bandCount))
    decreases |next|
  {
    if next != [] {
      RowShape(first, next[..|next| - 1], gain, bandCount);
    }
  }

  lemma {:induction false} ProductShape(running: seq<Event>, next: seq<Event>, gain: seq<real>, bandCount: nat)
    requires Expanded(running, bandCount)
    ensures Expanded(Product(running, next, gain, bandCount), bandCount)
    ensures InTime(running) && InTime(next) ==> InTime(Product(running, next, gain, bandCount))
    decreases |running|
  {
    if running != [] {
      ProductShape(running[..|running| - 1], next, gain, bandCount);
      RowShape(running[|running| - 1], next, gain, bandCount);
    }
  }

  lemma PrunedShape(events: seq<Event>, maxEvents: int, bandCount: nat)
    requires Expanded(events, bandCount)
    ensures Expanded(Pruned(events, maxEvents).0, bandCount)
    ensures InTime(events) ==> InTime(Pruned(events, maxEvents).0)
  {
    hide Pruned;
    forall k | 0 <= k < |Pruned(events, maxEvents).0|
      ensures Pruned(events, maxEvents).0[k] in events
    {
      PrunedMembers(events, maxEvents, Pruned(events, maxEvents).0[k]);
    }
  }

  /** The running events after `k` handoffs. */
  function Composed(hops: seq<seq<Event>>, gains: seq<seq<real>>, bandCount: nat, maxEvents: int, k: nat): (r: seq<Event>)
    requires k < |hops| && |gains| == |hops| - 1
    ensures Expanded(r, bandCount)
  {
    if k == 0 then ExpandEvents(hops[0], bandCount)
    else
      var product := Product(Composed(hops, gains, bandCount, maxEvents, k - 1), hops[k], gains[k - 1], bandCount);
      ProductShape(Composed(hops, gains, bandCount, maxEvents, k - 1), hops[k], gains[k - 1], bandCount);
      PrunedShape(product, maxEvents, bandCount);
      Pruned(product, maxEvents).0
  }

  lemma {:induction false} ComposedInTime(hops: seq<seq<Event>>, gains: seq<seq<real>>, bandCount: nat, maxEvents: int, k: nat)
    requires k < |hops| && |gains| == |hops| - 1 && forall h | 0 <= h < |hops| :: InTime(hops[h])
    ensures InTime(Composed(hops, gains, bandCount, maxEvents, k))
  {
    hide Pruned, Product, ExpandEvents, InTime, Expanded;
    if k > 0 {
      ComposedInTime(hops, gains, bandCount, maxEvents, k - 1);
      var before := Composed(hops, gains, bandCount, maxEvents, k - 1);
      ProductShape(before, hops[k], gains[k - 1], bandCount);
      PrunedShape(Product(before, hops[k], gains[k - 1], bandCount), maxEvents, bandCount);
    }
  }

  method CombineEvents(running: seq<Event>, next: seq<Event>, gain: seq<real>, bandCount: nat, maxEvents: int)
    returns (kept: seq<Event>, dropped: nat)
    requires Expanded(running, bandCount)
    ensures (kept, dropped) == Pruned(Product(running, next, gain, bandCount), maxEvents)
  {
    var combined: seq<Event> := [];
    for i := 0 to |running|
      invariant combined == Product(running[..i], next, gain, bandCount)
    {
      ghost var before := combined;
      for j := 0 to |next|
        invariant combined == before + Row(running[i], next[..j], gain, bandCount)
      {
        assert next[..j + 1][..j] == next[..j];
        combined := combined + [Combined(running[i], next[j], gain, bandCount)];
      }
      assert next[..|next|] == next && running[..i + 1][..i] == running[..i];
    }
    assert running[..|running|] == running;
    kept, dropped := Prune(combined, maxEvents);
  }

  /** How many events the cap removes over `k` handoffs. */
  function Cut(hops: seq<seq<Event>>, gains: seq<seq<real>>, bandCount: nat, maxEvents: int, k: nat): nat
    requires k < |hops| && |gains| == |hops| - 1
  {
    if k == 0 then 0
    else Cut(hops, gains, bandCount, maxEvents, k - 1)
         + Pruned(Product(Composed(hops, gains, bandCount, maxEvents, k - 1), hops[k], gains[k - 1], bandCount), maxEvents).1
  }

  /** Expands a path into sparse events, hop by hop. */
  method ComposePathEvents(hops: seq<seq<Event>>, gains: seq<seq<real>>, bandCount: nat, maxEvents: int) returns (events: seq<Event>, dropped: nat)
    requires hops != [] ==> |gains| == |hops| - 1
    ensures hops == [] ==> events == [] && dropped == 0
    ensures hops != [] ==> events == Composed(hops, gains, bandCount, maxEvents, |hops| - 1)
    ensures hops != [] ==> dropped == Cut(hops, gains, bandCount, maxEvents, |hops| - 1)
  {
    hide Pruned, Product, ExpandEvents;
    if hops == [] {
      return [], 0;
    }
    events, dropped := ExpandEvents(hops[0], bandCount), 0;
    for k := 1 to |hops|
      invariant events == Composed(hops, gains, bandCount, maxEvents, k - 1) && dropped == Cut(hops, gains, bandCount, maxEvents, k - 1)
    {
      var cut: nat;
      events, cut := CombineEvents(events, hops[k], gains[k - 1], bandCount, maxEvents);
      dropped := dropped + cut;
    }
  }
}
