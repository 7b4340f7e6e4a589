/** The Monte Carlo ray tracer's work list (raytrace/raytrace.go). */
module RayTrace {
  import opened Histograms
  import opened RayBooks
  import opened RayRecord
  import opened RayWalk
  import opened WorkList
  import opened Wrappers

  // ---------- The tracer ----------

  class RayTracer {
    const hist: EnergyHistogram
    const groups: seq<EnergyHistogram>

    ghost function Ledger(): (r: Books)
      reads this, hist, groups
      ensures r.total == hist.Value() && |r.groups| == |groups| && forall d | 0 <= d < |groups| :: r.groups[d] == groups[d].Value()
    {
      Books(hist.Value(), seq(|groups|, d requires 0 <= d < |groups| reads this, groups => groups[d].Value()))
    }

    /** The histograms are separate objects on one grid and, with directions, add up. */
    ghost predicate Valid()
      reads this, hist, groups
    {
      && hist !in groups && (forall d, e | 0 <= d < e < |groups| :: groups[d] != groups[e])
      && Histograms.Valid(hist.Value()) && (forall d | 0 <= d < |groups| :: Histograms.Valid(groups[d].Value()))
      && Balance(Ledger())
    }

    constructor (hist: EnergyHistogram, groups: seq<EnergyHistogram>)
      requires hist !in groups && (forall d, e | 0 <= d < e < |groups| :: groups[d] != groups[e])
      requires Histograms.Valid(hist.Value()) && forall d | 0 <= d < |groups| :: groups[d].Value() == hist.Value()
      requires forall k: nat, b: nat :: At(hist.Value(), k, b) == 0.0
      ensures Valid() && this.hist == hist && this.groups == groups
    {
      this.hist, this.groups := hist, groups;
      new;
      EmptyAddsUp(hist.Value(), Ledger().groups);
    }

    /** Enters energy at the receiver, in the total and in the sector it came from. */
    method Enter(deposit: Deposit)
      requires Valid() && UsableDeposit(deposit, |groups|)
      modifies hist, groups
      ensures Valid() && Ledger() == Entered(old(Ledger()), [deposit])
    {
      hide AddEnergy, AddsUp;
      ghost var before := Ledger();
      OneEntry(before, deposit);
      EntriesBalance(before, [deposit]);
      AddEnergyAt(before.total, deposit.arrivalTime, deposit.energy, 0, 0);
      hist.Add(deposit.arrivalTime, deposit.energy);
      if |groups| > 0 {
        var d := ClassifyDirection(|groups|, deposit.distances);
        AddEnergyAt(before.groups[d], deposit.arrivalTime, deposit.energy, 0, 0);
        groups[d].Add(deposit.arrivalTime, deposit.energy);
      }
      assert Ledger().groups == Entered(before, [deposit]).groups;
    }

    /** Enters a deposit that arrives in time. */
    method EnterInTime(deposit: Option<Deposit>, maxTime: real)
      requires Valid() && (deposit.Some? ==> UsableDeposit(deposit.value, |groups|))
      modifies hist, groups
      ensures Valid() && Ledger() == Entered(old(Ledger()), InTime(deposit, maxTime))
    {
      hide Valid, Entered;
      EnteredNothing(Ledger());
      if deposit.Some? && deposit.value.arrivalTime <= maxTime {
        Enter(deposit.value);
      }
    }

    method EnterAll(deposits: seq<Deposit>)
      requires Valid() && forall i | 0 <= i < |deposits| :: UsableDeposit(deposits[i], |groups|)
      modifies hist, groups
      ensures Valid() && Ledger() == Entered(old(Ledger()), deposits)
    {
      hide Valid, Entered;
      EnteredNothing(Ledger());
      for i := 0 to |deposits|
        invariant Valid() && Ledger() == Entered(old(Ledger()), deposits[..i])
      {
        assert deposits[..i + 1] == deposits[..i] + [deposits[i]];
        EnteredInTurn(old(Ledger()), deposits[..i], [deposits[i]]);
        Enter(deposits[i]);
      }
      assert deposits[..|deposits|] == deposits;
    }

    /** One bounce: detects, rains, branches, and says what leg follows. */
    method Bounce(segment: Segment, leg: Leg, state: RayState, config: Config) returns (branches: seq<RayState>, next: Option<Leg>)
      requires Valid() && UsableSegment(segment, |groups|)
      modifies hist, groups
      ensures Valid()
      ensures var b := BounceOf(segment, leg, state, config);
              branches == b.branches && next == b.next && Ledger() == Entered(old(Ledger()), b.deposits)
    {
      hide Valid, Ledger, Entered, MaxEnergy, UsableDeposit, InTime, EdgeStates, WallStates;
      ghost var books, made: seq<Deposit> := Ledger(), [];
      EnteredNothing(books);
      if !segment.hit || segment.length <= 0.0 {
        return [], None;
      }
      branches := [];
      if !leg.covered {
        EnterInTime(segment.direct, config.maxTime);
        made := InTime(segment.direct, config.maxTime);
      }
      match config.mode {
        case KellerCone =>
          branches := EdgeStates(segment.edgeBranches, state);
        case DAPDFRain =>
          EnteredInTurn(books, made, segment.edgeDeposits);
          EnterAll(segment.edgeDeposits);
          made := made + segment.edgeDeposits;
        case NoDiffraction =>
      }
      assert made + [] == made && branches + [] == branches;
      var pathLength := leg.pathLength + segment.length;
      if pathLength >= config.maxTime * config.speed {
        return branches, None;
      }
      if config.diffuseRain {
        EnteredInTurn(books, made, InTime(segment.rain, config.maxTime));
        EnterInTime(segment.rain, config.maxTime);
      }
      var energy, covered;
      match config.strategy {
        case Blend =>
          energy, covered := segment.remaining, config.diffuseRain;
        case RussianRoulette =>
          branches := branches + WallStates(segment, pathLength, leg.bounce + 1, config.diffuseRain);
          energy, covered := [], leg.covered;
        case Sampled =>
          energy, covered := segment.remaining, segment.diffuse && config.diffuseRain;
      }
      next := if |energy| > 0 && MaxEnergy(energy) <= config.threshold then None else Some(Leg(energy, pathLength, leg.bounce + 1, covered));
    }

    /** Follows one state from bounce to bounce. */
    method Follow(state: RayState, config: Config, env: nat -> Segment, first: nat) returns (children: seq<RayState>, step: nat)
      requires Valid() && forall n: nat :: UsableSegment(env(n), |groups|)
      modifies hist, groups
      ensures Valid()
      ensures var w := Walk(Start(state), state, config, env, first);
              children == w.children && step == w.step && Ledger() == Entered(old(Ledger()), w.deposits)
    {
      hide Valid, Ledger, Entered, BounceOf, UsableSegment, Walk, After;
      ghost var whole, made: seq<Deposit> := Walk(Start(state), state, config, env, first), [];
      EnteredNothing(Ledger());
      var leg := Start(state);
      children, step := [], first;
      AfterNothing(whole);
      while leg.bounce <= config.maxBounces
        invariant Valid() && Ledger() == Entered(old(Ledger()), made)
        invariant whole == After(Bounced(made, children, None), Walk(leg, state, config, env, step))
        decreases config.maxBounces + 1 - leg.bounce
      {
        WalkStep(leg, state, config, env, step, made, children);
        if leg.pathLength >= config.maxTime * config.speed {
          break;
        }
        ghost var b := BounceOf(env(step), leg, state, config);
        EnteredInTurn(old(Ledger()), made, b.deposits);
        var branches, next := Bounce(env(step), leg, state, config);
        children, step, made := children + branches, step + 1, made + b.deposits;
        if next.None? {
          break;
        }
        leg := next.value;
      }
      if leg.bounce > config.maxBounces {
        WalkStep(leg, state, config, env, step, made, children);
      }
    }

    /** Works through the list until no state is left. */
    method Exhaust(launched: seq<RayState>, config: Config, env: nat -> Segment)
      requires Valid() && Bounded(env, config) && config.maxBounces >= 0 && forall n: nat :: UsableSegment(env(n), |groups|)
      modifies hist, groups
      ensures Valid() && Ledger() == Entered(old(Ledger()), Heard(launched, config, env, 0))
    {
      hide Valid, Walk, Load, UsableSegment, Bounded, Entered, MaxEnergy, BranchBound, Start;
      ghost var made: seq<Deposit> := [];
      var states, step := launched, 0;
      EnteredNothing(Ledger());
      while states != []
        invariant Valid() && Ledger() == Entered(old(Ledger()), made)
        invariant Heard(launched, config, env, 0) == made + Heard(states, config, env, step)
        decreases Load(BranchBound(config), config.maxBounces, states)
      {
        WorkShrinks(states, config, env, step);
        var state := states[|states| - 1];
        states := states[..|states| - 1];
        if MaxEnergy(state.energy) > config.threshold {
          ghost var w := Walk(Start(state), state, config, env, step);
          EnteredInTurn(old(Ledger()), made, w.deposits);
          var children;
          children, step := Follow(state, config, env, step);
          made := made + w.deposits;
          states := states + children;
        }
      }
      assert made + [] == made;
    }
  }

  method NewGroups(count: nat, maxTime: real, binDuration: real, bandCount: int) returns (groups: seq<EnergyHistogram>)
    ensures |groups| == count && fresh(groups) && forall d, e | 0 <= d < e < |groups| :: groups[d] != groups[e]
    ensures forall d | 0 <= d < |groups| :: groups[d].Value() == NewHistogram(maxTime, binDuration, bandCount)
  {
    groups := [];
    for d := 0 to count
      invariant |groups| == d && fresh(groups) && forall i, j | 0 <= i < j < |groups| :: groups[i] != groups[j]
      invariant forall i | 0 <= i < |groups| :: groups[i].Value() == NewHistogram(maxTime, binDuration, bandCount)
    {
      var g := new EnergyHistogram(maxTime, binDuration, bandCount);
      groups := groups + [g];
    }
  }

  const DEFAULT_BIN_DURATION: real := 0.01

  predicate Runnable(config: Config, sources: nat, receivers: nat, roomKnown: bool) {
    && sources == 1 && receivers == 1 && config.rays > 0 && config.maxBounces >= 0
    && config.maxTime > 0.0 && config.speed > 0.0 && roomKnown
  }

  /** Runs the tracer until no state is left. It ends for every environment. The books hold exactly what
      the flights of the run owe, each deposit in the total and in its own direction, and they balance. */
  method Trace(config: Config, sources: nat, receivers: nat, roomKnown: bool, bandCount: int, binDuration: real, groupCount: nat,
               launched: seq<seq<real>>, env: nat -> Segment) returns (r: Result<RayTracer>)
    requires Bounded(env, config) && forall n: nat :: UsableSegment(env(n), groupCount)
    ensures r.Ok? <==> && sources == 1 && receivers == 1 && roomKnown && config.rays >= 1 && config.maxBounces >= 0
                       && 0.0 < config.maxTime && 0.0 < config.speed
    ensures r.Ok? ==> r.value.Valid() && |r.value.groups| == groupCount && AllSetOut(Launch(launched))
    ensures r.Ok? ==> r.value.Ledger() == Entered(NewBooks(config, bandCount, binDuration, groupCount),
                                                  Owed(Flown(Launch(launched), config, env, 0), config, env, 0))
  {
    if !Runnable(config, sources, receivers, roomKnown) {
      return Err("the tracer cannot run on this scene");
    }
    var bin, bands := if binDuration <= 0.0 then DEFAULT_BIN_DURATION else binDuration, if bandCount <= 0 then 1 else bandCount;
    var groups := NewGroups(groupCount, config.maxTime, bin, bands);
    var hist := new EnergyHistogram(config.maxTime, bin, bands);
    var tracer := new RayTracer(hist, groups);
    assert tracer.Ledger() == NewBooks(config, bandCount, binDuration, groupCount);
    var states := seq(|launched|, i requires 0 <= i < |launched| => RayState(launched[i], 0.0, 0, false));
    LaunchSetsOut(launched);
    assert states == StatesOf(Launch(launched), config);
    HeardIsOwed(Launch(launched), config, env, 0);
    hide RayTracer.Valid, RayTracer.Ledger, Heard, Entered, Flown, Owed;
    tracer.Exhaust(states, config, env);
    r := Ok(tracer);
  }

  /** The empty books of a run. */
  function NewBooks(config: Config, bandCount: int, binDuration: real, groupCount: nat): Books {
    var h := NewHistogram(config.maxTime, if binDuration <= 0.0 then DEFAULT_BIN_DURATION else binDuration, if bandCount <= 0 then 1 else bandCount);
    Books(h, seq(groupCount, _ => h))
  }

  lemma EmptyAddsUp(total: Histogram, groups: seq<Histogram>)
    requires Histograms.Valid(total) && (forall k: nat, b: nat :: At(total, k, b) == 0.0) && forall d | 0 <= d < |groups| :: groups[d] == total
    ensures AddsUp(total, groups)
  {
    forall k: nat, b: nat
      ensures Balanced(total, groups, k, b)
    {
      EmptySum(total, groups, k, b);
    }
  }

  lemma {:induction false} EmptySum(zero: Histogram, groups: seq<Histogram>, k: nat, b: nat)
    requires (forall d | 0 <= d < |groups| :: groups[d] == zero) && At(zero, k, b) == 0.0
    ensures SumAt(groups, k, b) == 0.0
    decreases |groups|
  {
    if groups != [] {
      EmptySum(zero, groups[..|groups| - 1], k, b);
    }
  }
}
