/** The flight record of a run: every leg that is flown, where it comes from, and what it owes the books
    (raytrace/raytrace.go). Nothing here knows of the flags the tracer keeps. */
module RayRecord {
  import opened RayBooks
  import opened RayWalk
  import opened Wrappers

  // ---------- Flights ----------

  /** How a ray came to be on its way: from the source, off an edge, off a wall as a mirrored, a scattered
      or a blended ray, or with all its energy gone into the branches at a wall. */
  datatype Origin = Launched | OffEdge | Mirrored | Scattered | Blended | Spent(before: Origin)

  /** One leg: its origin, the segment it left, its energy, the way and the bounces behind it, and
      those behind the ray when it set out. */
  datatype Flight = Flight(origin: Origin, parent: int, energy: seq<real>, behind: real, bounce: nat, start: real, startBounce: nat)

  /** What a wall rained stands for scattered energy, so only other energy is detected. */
  predicate Detected(origin: Origin, rain: bool) {
    match origin
    case Launched => true
    case OffEdge => true
    case Mirrored => true
    case Scattered => !rain
    case Blended => !rain
    case Spent(before) => Detected(before, rain)
  }

  predicate MeetsWall(s: Segment) {
    s.hit && s.length > 0.0
  }

  /** The wall is met early enough for the ray to go on from it. */
  predicate WallInTime(f: Flight, s: Segment, config: Config) {
    MeetsWall(s) && f.behind + s.length < config.maxTime * config.speed
  }

  // ---------- What a flight owes ----------

  function DirectPart(f: Flight, s: Segment, config: Config): seq<Deposit> {
    if MeetsWall(s) && Detected(f.origin, config.diffuseRain) && s.direct.Some? && s.direct.value.arrivalTime <= config.maxTime
    then [s.direct.value] else []
  }

  function EdgePart(s: Segment, config: Config): seq<Deposit> {
    if MeetsWall(s) && config.mode == DAPDFRain then s.edgeDeposits else []
  }

  function RainPart(f: Flight, s: Segment, config: Config): seq<Deposit> {
    if WallInTime(f, s, config) && config.diffuseRain && s.rain.Some? && s.rain.value.arrivalTime <= config.maxTime
    then [s.rain.value] else []
  }

  function Dues(f: Flight, s: Segment, config: Config): seq<Deposit> {
    DirectPart(f, s, config) + EdgePart(s, config) + RainPart(f, s, config)
  }

  /** What the flights of the segments from `step` on owe, in order. */
  ghost function Owed(flights: seq<Flight>, config: Config, env: nat -> Segment, step: nat): seq<Deposit> {
    if flights == [] then [] else Dues(flights[0], env(step), config) + Owed(flights[1..], config, env, step + 1)
  }

  lemma {:induction false} OwedOfConcat(a: seq<Flight>, b: seq<Flight>, config: Config, env: nat -> Segment, step: nat)
    ensures Owed(a + b, config, env, step) == Owed(a, config, env, step) + Owed(b, config, env, step + |a|)
    decreases |a|
  {
    if a == [] {
      assert a + b == b;
    } else {
      assert (a + b)[1..] == a[1..] + b;
      OwedOfConcat(a[1..], b, config, env, step + 1);
      hide Dues;
    }
  }

  // ---------- What follows a flight ----------

  /** The ray goes on from the wall, with what energy the strategy leaves it. */
  function Onward(f: Flight, n: nat, s: Segment, config: Config): Flight {
    var (origin, energy) :=
      match config.strategy
      case Blend => (Blended, s.remaining)
      case RussianRoulette => (Spent(f.origin), [])
      case Sampled => (if s.diffuse then Scattered else Mirrored, s.remaining);
    Flight(origin, n, energy, f.behind + s.length, f.bounce + 1, f.start, f.startBounce)
  }

  function Goes(f: Flight, n: nat, s: Segment, config: Config): bool {
    WallInTime(f, s, config) && !(|Onward(f, n, s, config).energy| > 0 && MaxEnergy(Onward(f, n, s, config).energy) <= config.threshold)
  }

  function SettingOut(origin: Origin, n: int, energy: seq<real>, behind: real, bounce: nat): Flight {
    Flight(origin, n, energy, behind, bounce, behind, bounce)
  }

  /** Branches around edges set out from where the ray did. */
  function AroundEdges(f: Flight, n: nat, s: Segment): seq<Flight> {
    seq(|s.edgeBranches|, i requires 0 <= i < |s.edgeBranches| =>
      SettingOut(OffEdge, n, s.edgeBranches[i].energy, f.start + s.edgeBranches[i].reach, f.startBounce + 1))
  }

  /** Branches at a wall set out from there. */
  function OffWall(f: Flight, n: nat, s: Segment): seq<Flight> {
    (if s.specularBranch.Some? then [SettingOut(Mirrored, n, s.specularBranch.value, f.behind + s.length, f.bounce + 1)] else [])
    + if s.diffuseBranch.Some? then [SettingOut(Scattered, n, s.diffuseBranch.value, f.behind + s.length, f.bounce + 1)] else []
  }

  function Branches(f: Flight, n: nat, s: Segment, config: Config): seq<Flight> {
    (if MeetsWall(s) && config.mode == KellerCone then AroundEdges(f, n, s) else [])
    + if WallInTime(f, s, config) && config.strategy == RussianRoulette then OffWall(f, n, s) else []
  }

  // ---------- The record ----------

  predicate Airworthy(f: Flight, config: Config) {
    f.bounce <= config.maxBounces && f.behind < config.maxTime * config.speed
  }

  /** The legs of one ray, from the segment `step` on. */
  ghost function Legs(f: Flight, config: Config, env: nat -> Segment, step: nat): seq<Flight>
    decreases config.maxBounces + 1 - f.bounce
  {
    if !Airworthy(f, config) then []
    else [f] + if Goes(f, step, env(step), config) then Legs(Onward(f, step, env(step), config), config, env, step + 1) else []
  }

  /** The branches of a list of legs. */
  ghost function Offspring(legs: seq<Flight>, config: Config, env: nat -> Segment, step: nat): seq<Flight> {
    if legs == [] then [] else Branches(legs[0], step, env(step), config) + Offspring(legs[1..], config, env, step + 1)
  }

  /** The tracer's state for a ray that is about to set out. */
  function StateOf(f: Flight, config: Config): RayState {
    RayState(f.energy, f.behind, f.bounce, !Detected(f.origin, config.diffuseRain))
  }

  function StatesOf(flights: seq<Flight>, config: Config): (r: seq<RayState>)
    ensures |r| == |flights|
  {
    seq(|flights|, i requires 0 <= i < |flights| => StateOf(flights[i], config))
  }

  ghost predicate SetsOut(f: Flight) {
    f.start == f.behind && f.startBounce == f.bounce
  }

  /** The leg the tracer is on. */
  function LegOf(f: Flight, config: Config): Leg {
    Leg(f.energy, f.behind, f.bounce, !Detected(f.origin, config.diffuseRain))
  }

  lemma DuesMatch(f: Flight, state: RayState, config: Config, s: Segment)
    ensures BounceOf(s, LegOf(f, config), state, config).deposits == Dues(f, s, config)
  {
    hide MaxEnergy, EdgeStates, WallStates, NextLeg, Detected;
  }

  lemma NextMatches(f: Flight, state: RayState, config: Config, n: nat, s: Segment)
    ensures BounceOf(s, LegOf(f, config), state, config).next
            == if Goes(f, n, s, config) then Some(LegOf(Onward(f, n, s, config), config)) else None
  {
    OnwardMatches(f, config, n, s);
    hide MaxEnergy, EdgeStates, WallStates, InTime, NextLeg, Onward, LegOf;
  }

  lemma OnwardMatches(f: Flight, config: Config, n: nat, s: Segment)
    ensures NextLeg(s, LegOf(f, config), config) == LegOf(Onward(f, n, s, config), config)
    ensures LegOf(f, config).pathLength == f.behind
    ensures LegOf(Onward(f, n, s, config), config).energy == Onward(f, n, s, config).energy
  {
  }

  lemma EdgesMatch(f: Flight, state: RayState, n: nat, s: Segment, config: Config)
    requires state.pathLength == f.start && state.bounces == f.startBounce
    ensures EdgeStates(s.edgeBranches, state) == StatesOf(AroundEdges(f, n, s), config)
  {
  }

  lemma WallsMatch(f: Flight, n: nat, s: Segment, config: Config)
    ensures WallStates(s, f.behind + s.length, f.bounce + 1, config.diffuseRain) == StatesOf(OffWall(f, n, s), config)
  {
  }

  lemma StatesOfConcat(a: seq<Flight>, b: seq<Flight>, config: Config)
    ensures StatesOf(a + b, config) == StatesOf(a, config) + StatesOf(b, config)
  {
    hide StateOf;
  }

  lemma BranchesMatch(f: Flight, state: RayState, config: Config, n: nat, s: Segment)
    requires state.pathLength == f.start && state.bounces == f.startBounce
    ensures BounceOf(s, LegOf(f, config), state, config).branches == StatesOf(Branches(f, n, s, config), config)
  {
    EdgesMatch(f, state, n, s, config);
    WallsMatch(f, n, s, config);
    var around := if MeetsWall(s) && config.mode == KellerCone then AroundEdges(f, n, s) else [];
    var off := if WallInTime(f, s, config) && config.strategy == RussianRoulette then OffWall(f, n, s) else [];
    StatesOfConcat(around, off, config);
    hide MaxEnergy, InTime, NextLeg, EdgeStates, WallStates, AroundEdges, OffWall, Detected;
  }

  /** Walking a state is flying its legs. */
  lemma {:induction false} WalkIsLegs(f: Flight, state: RayState, config: Config, env: nat -> Segment, step: nat)
    requires state.pathLength == f.start && state.bounces == f.startBounce
    ensures var w, legs := Walk(LegOf(f, config), state, config, env, step), Legs(f, config, env, step);
            && w.deposits == Owed(legs, config, env, step) && w.step == step + |legs|
            && w.children == StatesOf(Offspring(legs, config, env, step), config)
    decreases config.maxBounces + 1 - f.bounce
  {
    hide BounceOf, Dues, Branches, Goes;
    if Airworthy(f, config) {
      var s := env(step);
      DuesMatch(f, state, config, s);
      NextMatches(f, state, config, step, s);
      BranchesMatch(f, state, config, step, s);
      StatesOfConcat(Branches(f, step, s, config), [], config);
      if Goes(f, step, s, config) {
        WalkIsLegs(Onward(f, step, s, config), state, config, env, step + 1);
      }
    }
  }

  // ---------- A whole run ----------

  ghost predicate AllSetOut(flights: seq<Flight>) {
    forall i | 0 <= i < |flights| :: SetsOut(flights[i])
  }

  lemma BranchesSetOut(f: Flight, n: nat, s: Segment, config: Config)
    ensures AllSetOut(Branches(f, n, s, config))
  {
  }

  lemma {:induction false} OffspringSetOut(legs: seq<Flight>, config: Config, env: nat -> Segment, step: nat)
    ensures AllSetOut(Offspring(legs, config, env, step))
    decreases |legs|
  {
    hide Branches, SetsOut;
    if legs != [] {
      BranchesSetOut(legs[0], step, env(step), config);
      OffspringSetOut(legs[1..], config, env, step + 1);
    }
  }

  /** Flying a ray and putting its branches in its place lightens the work list. */
  lemma FlightsShrink(pending: seq<Flight>, config: Config, env: nat -> Segment, step: nat)
    requires pending != [] && AllSetOut(pending) && Bounded(env, config) && config.maxBounces >= 0
    ensures var rest, legs := pending[..|pending| - 1], Legs(pending[|pending| - 1], config, env, step);
            && AllSetOut(rest) && AllSetOut(rest + Offspring(legs, config, env, step))
            && Load(BranchBound(config), config.maxBounces, StatesOf(rest, config))
               < Load(BranchBound(config), config.maxBounces, StatesOf(pending, config))
            && Load(BranchBound(config), config.maxBounces, StatesOf(rest + Offspring(legs, config, env, step), config))
               < Load(BranchBound(config), config.maxBounces, StatesOf(pending, config))
  {
    var rest, f := pending[..|pending| - 1], pending[|pending| - 1];
    var legs := Legs(f, config, env, step);
    LastState(pending, config);
    WorkShrinks(StatesOf(pending, config), config, env, step);
    WalkIsLegs(f, StateOf(f, config), config, env, step);
    OffspringSetOut(legs, config, env, step);
    StatesOfConcat(rest, Offspring(legs, config, env, step), config);
    hide Load, Walk, Legs, Offspring, Bounded, BranchBound;
  }

  lemma LastState(pending: seq<Flight>, config: Config)
    requires pending != [] && AllSetOut(pending)
    ensures var states, f := StatesOf(pending, config), pending[|pending| - 1];
            && states[..|states| - 1] == StatesOf(pending[..|pending| - 1], config) && states[|states| - 1] == StateOf(f, config)
            && Start(StateOf(f, config)) == LegOf(f, config)
            && StateOf(f, config).pathLength == f.start && StateOf(f, config).bounces == f.startBounce && StateOf(f, config).energy == f.energy
  {
    assert SetsOut(pending[|pending| - 1]);
  }

  /** Every leg of a run, in the order of the segments it meets. The ray added last flies first, and
      its branches are added when it is done. */
  ghost function Flown(pending: seq<Flight>, config: Config, env: nat -> Segment, step: nat): seq<Flight>
    requires AllSetOut(pending) && Bounded(env, config) && config.maxBounces >= 0
    decreases Load(BranchBound(config), config.maxBounces, StatesOf(pending, config))
  {
    if pending == [] then []
    else
      FlightsShrink(pending, config, env, step);
      var rest, f := pending[..|pending| - 1], pending[|pending| - 1];
      if MaxEnergy(f.energy) <= config.threshold then Flown(rest, config, env, step)
      else
        var legs := Legs(f, config, env, step);
        legs + Flown(rest + Offspring(legs, config, env, step), config, env, step + |legs|)
  }

  lemma FlownByLast(pending: seq<Flight>, config: Config, env: nat -> Segment, step: nat)
    requires pending != [] && AllSetOut(pending) && Bounded(env, config) && config.maxBounces >= 0
    ensures var rest, last := pending[..|pending| - 1], pending[|pending| - 1];
            var legs := Legs(last, config, env, step);
            var after := rest + Offspring(legs, config, env, step);
            && AllSetOut(rest) && AllSetOut(after)
            && Load(BranchBound(config), config.maxBounces, StatesOf(rest, config))
               < Load(BranchBound(config), config.maxBounces, StatesOf(pending, config))
            && Load(BranchBound(config), config.maxBounces, StatesOf(after, config))
               < Load(BranchBound(config), config.maxBounces, StatesOf(pending, config))
            && Flown(pending, config, env, step)
               == if MaxEnergy(last.energy) <= config.threshold then Flown(rest, config, env, step)
                  else legs + Flown(after, config, env, step + |legs|)
  {
    hide Load, Legs, Offspring, Bounded, BranchBound, StatesOf, AllSetOut, MaxEnergy;
    FlightsShrink(pending, config, env, step);
  }

  lemma NothingFlown(config: Config, env: nat -> Segment, step: nat)
    requires Bounded(env, config) && config.maxBounces >= 0
    ensures AllSetOut([]) && Flown([], config, env, step) == [] && StatesOf([], config) == [] && Owed([], config, env, step) == []
  {
  }

  /** What a run hears is what its flights owe. */
  lemma {:induction false} HeardIsOwed(pending: seq<Flight>, config: Config, env: nat -> Segment, step: nat)
    requires AllSetOut(pending) && Bounded(env, config) && config.maxBounces >= 0
    ensures Heard(StatesOf(pending, config), config, env, step) == Owed(Flown(pending, config, env, step), config, env, step)
    decreases Load(BranchBound(config), config.maxBounces, StatesOf(pending, config))
  {
    hide Load, Walk, Legs, Offspring, Bounded, BranchBound, Dues, Owed, StatesOf, StateOf, LegOf, AllSetOut, Start, MaxEnergy, Flown;
    NothingFlown(config, env, step);
    if pending != [] {
      FlownByLast(pending, config, env, step);
      LastState(pending, config);
      var rest, f := pending[..|pending| - 1], pending[|pending| - 1];
      if MaxEnergy(f.energy) <= config.threshold {
        HeardIsOwed(rest, config, env, step);
      } else {
        var legs := Legs(f, config, env, step);
        var after := rest + Offspring(legs, config, env, step);
        WalkIsLegs(f, StateOf(f, config), config, env, step);
        StatesOfConcat(rest, Offspring(legs, config, env, step), config);
        HeardIsOwed(after, config, env, step + |legs|);
        OwedOfConcat(legs, Flown(after, config, env, step + |legs|), config, env, step);
      }
    }
  }

  // ---------- Where flights come from ----------

  /** `f` goes on from the flight `g` of segment `m`, or is one of its branches. */
  ghost predicate ComesFrom(f: Flight, g: Flight, m: nat, env: nat -> Segment, config: Config) {
    || (Goes(g, m, env(m), config) && f == Onward(g, m, env(m), config))
    || f in Branches(g, m, env(m), config)
  }

  /** The flight of segment `step + i` was pending at the start or comes from an earlier flight. */
  ghost predicate HasSource(flights: seq<Flight>, pending: seq<Flight>, config: Config, env: nat -> Segment, step: nat, i: nat) {
    && i < |flights|
    && (flights[i] in pending
        || exists j: nat :: j < i && flights[i].parent == step + j && ComesFrom(flights[i], flights[j], step + j, env, config))
  }

  lemma ParentOf(f: Flight, g: Flight, m: nat, env: nat -> Segment, config: Config)
    requires ComesFrom(f, g, m, env, config)
    ensures f.parent == m
  {
  }

  lemma {:induction false} LegsHaveSources(f: Flight, config: Config, env: nat -> Segment, step: nat, i: nat)
    requires i < |Legs(f, config, env, step)|
    ensures HasSource(Legs(f, config, env, step), [f], config, env, step, i)
    decreases i
  {
    hide Goes, Onward, Branches;
    var legs := Legs(f, config, env, step);
    if i > 0 {
      var g := Onward(f, step, env(step), config);
      var tail := Legs(g, config, env, step + 1);
      LegsHaveSources(g, config, env, step + 1, i - 1);
      assert legs == [f] + tail;
      if tail[i - 1] in [g] {
        ParentOf(g, f, step, env, config);
        assert ComesFrom(legs[i], legs[0], step, env, config);
      } else {
        var j: nat :| j < i - 1 && tail[i - 1].parent == step + 1 + j && ComesFrom(tail[i - 1], tail[j], step + 1 + j, env, config);
        assert legs[j + 1] == tail[j] && ComesFrom(legs[i], legs[j + 1], step + (j + 1), env, config);
      }
    }
  }

  lemma {:induction false} OffspringHaveSources(legs: seq<Flight>, config: Config, env: nat -> Segment, step: nat, c: Flight)
    requires c in Offspring(legs, config, env, step)
    ensures exists j: nat :: j < |legs| && c.parent == step + j && ComesFrom(c, legs[j], step + j, env, config)
    decreases |legs|
  {
    hide Goes, Onward, Branches;
    if c in Branches(legs[0], step, env(step), config) {
      assert ComesFrom(c, legs[0], step, env, config);
      ParentOf(c, legs[0], step, env, config);
    } else {
      OffspringHaveSources(legs[1..], config, env, step + 1, c);
      var j: nat :| j < |legs| - 1 && c.parent == step + 1 + j && ComesFrom(c, legs[1..][j], step + 1 + j, env, config);
      assert ComesFrom(c, legs[j + 1], step + (j + 1), env, config);
    }
  }

  /** Every flight of a run was launched or comes from an earlier flight, by what its segment holds. */
  lemma {:induction false} FlightsHaveSources(pending: seq<Flight>, config: Config, env: nat -> Segment, step: nat, i: nat)
    requires AllSetOut(pending) && Bounded(env, config) && config.maxBounces >= 0 && i < |Flown(pending, config, env, step)|
    ensures HasSource(Flown(pending, config, env, step), pending, config, env, step, i)
    decreases Load(BranchBound(config), config.maxBounces, StatesOf(pending, config))
  {
    hide Load, Legs, Offspring, Bounded, BranchBound, StatesOf, AllSetOut, ComesFrom, HasSource;
    FlightsShrink(pending, config, env, step);
    var rest, f := pending[..|pending| - 1], pending[|pending| - 1];
    if MaxEnergy(f.energy) <= config.threshold {
      FlightsHaveSources(rest, config, env, step, i);
      StillPending(Flown(rest, config, env, step), rest, pending, config, env, step, i);
    } else {
      var legs := Legs(f, config, env, step);
      var after := rest + Offspring(legs, config, env, step);
      var later := Flown(after, config, env, step + |legs|);
      if i < |legs| {
        LegsHaveSources(f, config, env, step, i);
        EarlySource(legs, later, f, pending, config, env, step, i);
      } else {
        FlightsHaveSources(after, config, env, step + |legs|, i - |legs|);
        LateSource(legs, later, rest, pending, config, env, step, i - |legs|);
      }
    }
  }

  lemma StillPending(flights: seq<Flight>, rest: seq<Flight>, pending: seq<Flight>, config: Config, env: nat -> Segment, step: nat, i: nat)
    requires HasSource(flights, rest, config, env, step, i) && forall f | f in rest :: f in pending
    ensures HasSource(flights, pending, config, env, step, i)
  {
    hide ComesFrom;
  }

  lemma EarlySource(legs: seq<Flight>, later: seq<Flight>, f: Flight, pending: seq<Flight>, config: Config, env: nat -> Segment, step: nat, i: nat)
    requires HasSource(legs, [f], config, env, step, i) && f in pending
    ensures HasSource(legs + later, pending, config, env, step, i)
  {
    hide ComesFrom;
    var all := legs + later;
    if legs[i] !in [f] {
      var j: nat :| j < i && legs[i].parent == step + j && ComesFrom(legs[i], legs[j], step + j, env, config);
      assert ComesFrom(all[i], all[j], step + j, env, config);
    }
  }

  lemma LateSource(legs: seq<Flight>, later: seq<Flight>, rest: seq<Flight>, pending: seq<Flight>, config: Config, env: nat -> Segment,
                   step: nat, k: nat)
    requires HasSource(later, rest + Offspring(legs, config, env, step), config, env, step + |legs|, k)
    requires forall f | f in rest :: f in pending
    ensures HasSource(legs + later, pending, config, env, step, |legs| + k)
  {
    hide ComesFrom, Offspring;
    var all, c := legs + later, later[k];
    if c in Offspring(legs, config, env, step) {
      OffspringHaveSources(legs, config, env, step, c);
      var j: nat :| j < |legs| && c.parent == step + j && ComesFrom(c, legs[j], step + j, env, config);
      assert ComesFrom(all[|legs| + k], all[j], step + j, env, config);
    } else if c !in rest {
      var j: nat :| j < k && c.parent == step + |legs| + j && ComesFrom(c, later[j], step + |legs| + j, env, config);
      assert ComesFrom(all[|legs| + k], all[|legs| + j], step + (|legs| + j), env, config);
    }
  }

  // ---------- Who flies ----------

  ghost predicate Worthy(f: Flight, config: Config) {
    MaxEnergy(f.energy) > config.threshold && Airworthy(f, config)
  }

  /** Whatever follows a flight flies too, if it is worth following. */
  ghost predicate Followed(flights: seq<Flight>, config: Config, env: nat -> Segment, step: nat, i: nat) {
    && i < |flights|
    && var f, n := flights[i], step + i;
       && (Goes(f, n, env(n), config) && Airworthy(Onward(f, n, env(n), config), config) ==>
             i + 1 < |flights| && flights[i + 1] == Onward(f, n, env(n), config))
       && forall c | c in Branches(f, n, env(n), config) && Worthy(c, config) :: c in flights[i + 1..]
  }

  lemma {:induction false} LegsGoOn(f: Flight, config: Config, env: nat -> Segment, step: nat, i: nat)
    requires i < |Legs(f, config, env, step)|
    ensures var legs, n := Legs(f, config, env, step), step + i;
            Goes(legs[i], n, env(n), config) && Airworthy(Onward(legs[i], n, env(n), config), config) ==>
              i + 1 < |legs| && legs[i + 1] == Onward(legs[i], n, env(n), config)
    decreases i
  {
    hide Goes, Onward, Airworthy;
    if i > 0 {
      LegsGoOn(Onward(f, step, env(step), config), config, env, step + 1, i - 1);
    }
  }

  lemma {:induction false} OffspringListed(legs: seq<Flight>, config: Config, env: nat -> Segment, step: nat, i: nat, c: Flight)
    requires i < |legs| && c in Branches(legs[i], step + i, env(step + i), config)
    ensures c in Offspring(legs, config, env, step)
    decreases i
  {
    hide Branches;
    if i > 0 {
      OffspringListed(legs[1..], config, env, step + 1, i - 1, c);
    }
  }

  lemma {:induction false} PendingFlies(pending: seq<Flight>, config: Config, env: nat -> Segment, step: nat, f: Flight)
    requires AllSetOut(pending) && Bounded(env, config) && config.maxBounces >= 0 && f in pending && Worthy(f, config)
    ensures f in Flown(pending, config, env, step)
    decreases Load(BranchBound(config), config.maxBounces, StatesOf(pending, config))
  {
    hide Load, Legs, Offspring, Bounded, BranchBound, StatesOf, AllSetOut, Airworthy, MaxEnergy, Flown;
    FlownByLast(pending, config, env, step);
    var rest, last := pending[..|pending| - 1], pending[|pending| - 1];
    if MaxEnergy(last.energy) <= config.threshold {
      PendingFlies(rest, config, env, step, f);
    } else if f == last {
      FliesFirst(f, config, env, step);
    } else {
      var legs := Legs(last, config, env, step);
      assert f in rest;
      PendingFlies(rest + Offspring(legs, config, env, step), config, env, step + |legs|, f);
    }
  }

  lemma FliesFirst(f: Flight, config: Config, env: nat -> Segment, step: nat)
    requires Airworthy(f, config)
    ensures f in Legs(f, config, env, step)
  {
    hide Airworthy, Goes, Onward;
  }

  lemma {:induction false} FlightsAreFollowed(pending: seq<Flight>, config: Config, env: nat -> Segment, step: nat, i: nat)
    requires AllSetOut(pending) && Bounded(env, config) && config.maxBounces >= 0 && i < |Flown(pending, config, env, step)|
    ensures Followed(Flown(pending, config, env, step), config, env, step, i)
    decreases Load(BranchBound(config), config.maxBounces, StatesOf(pending, config))
  {
    hide Load, Legs, Offspring, Bounded, BranchBound, StatesOf, AllSetOut, MaxEnergy, Flown, Followed;
    SomePending(pending, config, env, step);
    FlownByLast(pending, config, env, step);
    var rest, last := pending[..|pending| - 1], pending[|pending| - 1];
    if MaxEnergy(last.energy) <= config.threshold {
      FlightsAreFollowed(rest, config, env, step, i);
    } else {
      var legs := Legs(last, config, env, step);
      var after := rest + Offspring(legs, config, env, step);
      if i < |legs| {
        LegIsFollowed(last, after, config, env, step, i);
      } else {
        FlightsAreFollowed(after, config, env, step + |legs|, i - |legs|);
        LaterIsFollowed(legs, Flown(after, config, env, step + |legs|), config, env, step, i - |legs|);
      }
    }
  }

  lemma SomePending(pending: seq<Flight>, config: Config, env: nat -> Segment, step: nat)
    requires AllSetOut(pending) && Bounded(env, config) && config.maxBounces >= 0 && Flown(pending, config, env, step) != []
    ensures pending != []
  {
  }

  lemma LegIsFollowed(last: Flight, after: seq<Flight>, config: Config, env: nat -> Segment, step: nat, i: nat)
    requires AllSetOut(after) && Bounded(env, config) && config.maxBounces >= 0 && i < |Legs(last, config, env, step)|
    requires forall c | c in Offspring(Legs(last, config, env, step), config, env, step) :: c in after
    ensures var legs := Legs(last, config, env, step);
            Followed(legs + Flown(after, config, env, step + |legs|), config, env, step, i)
  {
    hide Load, Legs, Offspring, Bounded, BranchBound, StatesOf, AllSetOut, Goes, Onward, Airworthy, Branches, MaxEnergy, Flown, Worthy;
    var legs := Legs(last, config, env, step);
    var later := Flown(after, config, env, step + |legs|);
    LegsGoOn(last, config, env, step, i);
    forall c | c in Branches(legs[i], step + i, env(step + i), config) && Worthy(c, config)
      ensures c in later
    {
      OffspringListed(legs, config, env, step, i, c);
      PendingFlies(after, config, env, step + |legs|, c);
    }
    assert (legs + later)[i + 1..] == legs[i + 1..] + later;
  }

  lemma LaterIsFollowed(legs: seq<Flight>, later: seq<Flight>, config: Config, env: nat -> Segment, step: nat, k: nat)
    requires Followed(later, config, env, step + |legs|, k)
    ensures Followed(legs + later, config, env, step, |legs| + k)
  {
    hide Goes, Onward, Airworthy, Branches, Worthy;
    var all := legs + later;
    assert all[|legs| + k] == later[k] && all[|legs| + k + 1..] == later[k + 1..];
  }

  // ---------- What is detected ----------

  /** The rays of a run as they leave the source. */
  function Launch(energies: seq<seq<real>>): seq<Flight> {
    seq(|energies|, i requires 0 <= i < |energies| => SettingOut(Launched, -1, energies[i], 0.0, 0))
  }

  /** What the bounce at segment `m` made of the energy of flight `f`, read off the segment. */
  ghost predicate MadeBy(f: Flight, s: Segment, config: Config) {
    match f.origin
    case Launched => false
    case OffEdge => config.mode == KellerCone && exists i :: 0 <= i < |s.edgeBranches| && s.edgeBranches[i].energy == f.energy
    case Mirrored =>
      || (config.strategy == Sampled && !s.diffuse && f.energy == s.remaining)
      || (config.strategy == RussianRoulette && s.specularBranch == Some(f.energy))
    case Scattered =>
      || (config.strategy == Sampled && s.diffuse && f.energy == s.remaining)
      || (config.strategy == RussianRoulette && s.diffuseBranch == Some(f.energy))
    case Blended => config.strategy == Blend && f.energy == s.remaining
    case Spent(_) => config.strategy == RussianRoulette && f.energy == []
  }

  lemma SourceTells(f: Flight, g: Flight, m: nat, env: nat -> Segment, config: Config)
    requires ComesFrom(f, g, m, env, config)
    ensures MadeBy(f, env(m), config) && MeetsWall(env(m))
    ensures f.origin != OffEdge ==> WallInTime(g, env(m), config) && f.behind == g.behind + env(m).length && f.bounce == g.bounce + 1
    ensures f.origin.Spent? ==> f.origin.before == g.origin
  {
    hide MaxEnergy;
  }

  ghost predicate Arrives(d: Option<Deposit>, config: Config) {
    d.Some? && d.value.arrivalTime <= config.maxTime
  }

  /** The rule of detection, for every flight of a run. The ray comes from the source, or from an earlier
      flight by the kind of the bounce that its segment shows. A ray that the last wall mirrored, that
      came off an edge, or that met no wall is detected. A ray that the last wall scattered or blended is
      detected if and only if that wall's rain was not entered: its energy is counted once, there or
      here. */
  lemma CountedOnce(energies: seq<seq<real>>, config: Config, env: nat -> Segment, i: nat)
    requires Bounded(env, config) && config.maxBounces >= 0 && AllSetOut(Launch(energies))
    requires i < |Flown(Launch(energies), config, env, 0)|
    ensures var flights := Flown(Launch(energies), config, env, 0);
            var f := flights[i];
            && (f.origin == Launched ==> f.energy in energies && f.behind == 0.0 && f.bounce == 0)
            && (f.origin != Launched ==> 0 <= f.parent < i && MeetsWall(env(f.parent)) && MadeBy(f, env(f.parent), config))
            && (MeetsWall(env(i)) && Arrives(env(i).direct, config) && f.origin in {Launched, OffEdge, Mirrored} ==>
                  DirectPart(f, env(i), config) == [env(i).direct.value])
            && (MeetsWall(env(i)) && Arrives(env(i).direct, config) && f.origin in {Scattered, Blended} && Arrives(env(f.parent).rain, config) ==>
                  (DirectPart(f, env(i), config) == [env(i).direct.value] && RainPart(flights[f.parent], env(f.parent), config) == [])
                  || (DirectPart(f, env(i), config) == [] && RainPart(flights[f.parent], env(f.parent), config) == [env(f.parent).rain.value]))
            && (f.origin.Spent? ==> Detected(f.origin, config.diffuseRain) == Detected(flights[f.parent].origin, config.diffuseRain))
  {
    hide ComesFrom, Flown, MadeBy;
    var flights := Flown(Launch(energies), config, env, 0);
    var f := flights[i];
    FlightsHaveSources(Launch(energies), config, env, 0, i);
    if f !in Launch(energies) {
      var j: nat :| j < i && f.parent == 0 + j && ComesFrom(f, flights[j], 0 + j, env, config);
      SourceTells(f, flights[j], j, env, config);
      NotLaunched(f, env(j), config);
    }
  }

  lemma NotLaunched(f: Flight, s: Segment, config: Config)
    requires MadeBy(f, s, config)
    ensures f.origin != Launched
  {
  }

  lemma LaunchSetsOut(energies: seq<seq<real>>)
    ensures AllSetOut(Launch(energies))
  {
  }
}
