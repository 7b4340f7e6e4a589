/** What a ray meets on its way and what follows from it (raytrace/raytrace.go). What a segment of a ray
    meets is supplied from outside. */
module RayWalk {
  import opened RayBooks
  import opened WorkList
  import opened Wrappers

  // ---------- What a ray meets ----------

  datatype RayState = RayState(energy: seq<real>, pathLength: real, bounces: nat, rainCovered: bool)

  datatype Strategy = Blend | RussianRoulette | Sampled

  datatype DiffractionMode = NoDiffraction | KellerCone | DAPDFRain

  datatype Config = Config(rays: int, maxBounces: int, maxTime: real, speed: real, threshold: real,
                           diffuseRain: bool, strategy: Strategy, mode: DiffractionMode, branchLimit: nat)

  /** A branch around an edge: its energy, and how far along the segment it starts. */
  datatype Branch = Branch(energy: seq<real>, reach: real)

  /** What happens on one segment of a ray: whether and where a wall is hit, what the receiver would
      see of it, the branches that edges and the wall would start, and the energy that is left. */
  datatype Segment = Segment(hit: bool, length: real, direct: Option<Deposit>, edgeBranches: seq<Branch>,
                             edgeDeposits: seq<Deposit>, rain: Option<Deposit>, remaining: seq<real>, diffuse: bool,
                             specularBranch: Option<seq<real>>, diffuseBranch: Option<seq<real>>)

  ghost predicate UsableSegment(s: Segment, groups: nat) {
    && (s.direct.Some? ==> UsableDeposit(s.direct.value, groups))
    && (s.rain.Some? ==> UsableDeposit(s.rain.value, groups))
    && forall i | 0 <= i < |s.edgeDeposits| :: UsableDeposit(s.edgeDeposits[i], groups)
  }

  /** A segment starts at most as many edge branches as the index has samples to offer. */
  ghost predicate Bounded(env: nat -> Segment, config: Config) {
    forall n: nat :: |env(n).edgeBranches| <= config.branchLimit
  }

  function MaxEnergy(energy: seq<real>): (r: real)
    ensures r >= 0.0 && (forall b | 0 <= b < |energy| :: energy[b] <= r) && (r == 0.0 || r in energy)
  {
    if energy == [] then 0.0
    else
      var rest, last := MaxEnergy(energy[..|energy| - 1]), energy[|energy| - 1];
      if last > rest then last else rest
  }

  // ---------- The termination measure of the work list ----------

  /** How many bounces a state may still make. */
  function Level(maxBounces: nat, s: RayState): nat {
    if s.bounces > maxBounces then 0 else maxBounces + 1 - s.bounces
  }

  function Load(width: nat, maxBounces: nat, states: seq<RayState>): nat {
    if states == [] then 0
    else Load(width, maxBounces, states[..|states| - 1]) + Weight(width, Level(maxBounces, states[|states| - 1]))
  }

  lemma {:induction false} LoadOfConcat(width: nat, maxBounces: nat, a: seq<RayState>, b: seq<RayState>)
    ensures Load(width, maxBounces, a + b) == Load(width, maxBounces, a) + Load(width, maxBounces, b)
    decreases |b|
  {
    hide Level;
    if b == [] {
      assert a + b == a;
    } else {
      assert (a + b)[..|a + b| - 1] == a + b[..|b| - 1];
      LoadOfConcat(width, maxBounces, a, b[..|b| - 1]);
    }
  }

  lemma {:induction false} WeightGrows(width: nat, low: nat, high: nat)
    requires low <= high
    ensures Weight(width, low) <= Weight(width, high)
    decreases high
  {
    if low < high {
      WeightGrows(width, low, high - 1);
    }
  }

  lemma {:induction false} ChildrenWeigh(width: nat, maxBounces: nat, children: seq<RayState>, level: nat)
    requires forall i | 0 <= i < |children| :: Level(maxBounces, children[i]) <= level
    ensures Load(width, maxBounces, children) <= |children| * Weight(width, level)
    decreases |children|
  {
    hide Level;
    if children != [] {
      var n := |children| - 1;
      ChildrenWeigh(width, maxBounces, children[..n], level);
      WeightGrows(width, Level(maxBounces, children[n]), level);
      OneMore(n, Weight(width, level));
      hide Weight;
    }
  }

  lemma OneMore(n: nat, weight: nat)
    ensures (n + 1) * weight == n * weight + weight
  {
  }

  /** The children of a state weigh less than the state. */
  lemma ChildrenAreLighter(width: nat, maxBounces: nat, s: RayState, children: seq<RayState>)
    requires |children| <= width && forall i | 0 <= i < |children| :: children[i].bounces > s.bounces
    requires s.bounces > maxBounces ==> children == []
    ensures Load(width, maxBounces, children) < Weight(width, Level(maxBounces, s))
  {
    if s.bounces <= maxBounces {
      var level := Level(maxBounces, s) - 1;
      ChildrenWeigh(width, maxBounces, children, level);
      SumFits(width, |children|, Weight(width, level), Load(width, maxBounces, children));
      hide Load;
    }
  }

  lemma SumFits(width: nat, count: nat, weight: nat, load: nat)
    requires count <= width && weight >= 1 && load <= count * weight
    ensures load < (width + 2) * weight
  {
    ChildFits(width, count, weight);
    assert (count + 1) * weight == count * weight + weight;
  }

  // ---------- One bounce ----------

  function InTime(deposit: Option<Deposit>, maxTime: real): seq<Deposit> {
    if deposit.Some? && deposit.value.arrivalTime <= maxTime then [deposit.value] else []
  }

  /** Branches around edges start from the path length and the bounce count the state was pushed with. */
  function EdgeStates(branches: seq<Branch>, state: RayState): (r: seq<RayState>)
    ensures |r| == |branches| && forall i | 0 <= i < |r| :: r[i].bounces == state.bounces + 1
  {
    seq(|branches|, i requires 0 <= i < |branches| => RayState(branches[i].energy, state.pathLength + branches[i].reach, state.bounces + 1, false))
  }

  /** Branches at a wall: the specular one, then the diffuse one, where roulette keeps them. */
  function WallStates(segment: Segment, pathLength: real, bounces: nat, diffuseRain: bool): (r: seq<RayState>)
    ensures |r| <= 2 && forall i | 0 <= i < |r| :: r[i].bounces == bounces
  {
    (if segment.specularBranch.Some? then [RayState(segment.specularBranch.value, pathLength, bounces, false)] else [])
    + if segment.diffuseBranch.Some? then [RayState(segment.diffuseBranch.value, pathLength, bounces, diffuseRain)] else []
  }

  /** Where a ray is: its energy, the way behind it, its bounce count, and whether the last wall's
      rain already stands for the next detection. */
  datatype Leg = Leg(energy: seq<real>, pathLength: real, bounce: nat, covered: bool)

  /** What a bounce deposits and starts, and the leg that follows, if one does. */
  datatype Bounced = Bounced(deposits: seq<Deposit>, branches: seq<RayState>, next: Option<Leg>)

  function BounceOf(s: Segment, leg: Leg, state: RayState, config: Config): (r: Bounced)
    ensures r.next.Some? ==> r.next.value.bounce == leg.bounce + 1
  {
    if !s.hit || s.length <= 0.0 then Bounced([], [], None)
    else
      var direct := if leg.covered then [] else InTime(s.direct, config.maxTime);
      var edges := if config.mode.DAPDFRain? then s.edgeDeposits else [];
      var around := if config.mode.KellerCone? then EdgeStates(s.edgeBranches, state) else [];
      var pathLength := leg.pathLength + s.length;
      if pathLength >= config.maxTime * config.speed then Bounced(direct + edges, around, None)
      else
        var rain := if config.diffuseRain then InTime(s.rain, config.maxTime) else [];
        var walls := if config.strategy.RussianRoulette? then WallStates(s, pathLength, leg.bounce + 1, config.diffuseRain) else [];
        var next := NextLeg(s, leg, config);
        Bounced(direct + edges + rain, around + walls, if |next.energy| > 0 && MaxEnergy(next.energy) <= config.threshold then None else Some(next))
  }

  function NextLeg(s: Segment, leg: Leg, config: Config): Leg {
    var pathLength, bounce := leg.pathLength + s.length, leg.bounce + 1;
    match config.strategy
    case Blend => Leg(s.remaining, pathLength, bounce, config.diffuseRain)
    case RussianRoulette => Leg([], pathLength, bounce, leg.covered)
    case Sampled => Leg(s.remaining, pathLength, bounce, s.diffuse && config.diffuseRain)
  }

  lemma BounceBranches(s: Segment, leg: Leg, state: RayState, config: Config)
    requires |s.edgeBranches| <= config.branchLimit && leg.bounce >= state.bounces
    ensures |BounceOf(s, leg, state, config).branches| <= config.branchLimit + 2
    ensures forall i | 0 <= i < |BounceOf(s, leg, state, config).branches| :: BounceOf(s, leg, state, config).branches[i].bounces > state.bounces
  {
    hide MaxEnergy, InTime;
  }

  // ---------- One state ----------

  /** All that following a state deposits and starts, and the number of segments looked at by then. */
  datatype Walked = Walked(deposits: seq<Deposit>, children: seq<RayState>, step: nat)

  ghost function Walk(leg: Leg, state: RayState, config: Config, env: nat -> Segment, step: nat): Walked
    decreases config.maxBounces + 1 - leg.bounce
  {
    if leg.bounce > config.maxBounces || leg.pathLength >= config.maxTime * config.speed then Walked([], [], step)
    else
      var b := BounceOf(env(step), leg, state, config);
      if b.next.None? then Walked(b.deposits, b.branches, step + 1)
      else After(b, Walk(b.next.value, state, config, env, step + 1))
  }

  function After(b: Bounced, rest: Walked): Walked {
    Walked(b.deposits + rest.deposits, b.branches + rest.children, rest.step)
  }

  lemma AfterNothing(w: Walked)
    ensures After(Bounced([], [], None), w) == w
  {
  }

  /** What has been walked so far grows by one bounce, and the rest shrinks by it. */
  lemma WalkStep(leg: Leg, state: RayState, config: Config, env: nat -> Segment, step: nat, made: seq<Deposit>, children: seq<RayState>)
    ensures var whole, b := After(Bounced(made, children, None), Walk(leg, state, config, env, step)), BounceOf(env(step), leg, state, config);
            if leg.bounce > config.maxBounces || leg.pathLength >= config.maxTime * config.speed then whole == Walked(made, children, step)
            else if b.next.None? then whole == Walked(made + b.deposits, children + b.branches, step + 1)
            else whole == After(Bounced(made + b.deposits, children + b.branches, None), Walk(b.next.value, state, config, env, step + 1))
  {
    hide BounceOf;
    assert made + [] == made && children + [] == children;
    var b := BounceOf(env(step), leg, state, config);
    if leg.bounce <= config.maxBounces && b.next.Some? {
      var rest := Walk(b.next.value, state, config, env, step + 1);
      assert made + (b.deposits + rest.deposits) == made + b.deposits + rest.deposits;
      assert children + (b.branches + rest.children) == children + b.branches + rest.children;
    }
  }

  /** The most branches one state can start. */
  function BranchBound(config: Config): nat
    requires config.maxBounces >= 0
  {
    (config.branchLimit + 2) * (config.maxBounces + 1)
  }

  /** Every branch has more bounces behind it than the state, and each bounce starts boundedly many. */
  lemma {:induction false} WalkBranches(leg: Leg, state: RayState, config: Config, env: nat -> Segment, step: nat)
    requires Bounded(env, config) && config.maxBounces >= 0 && leg.bounce >= state.bounces
    ensures var w := Walk(leg, state, config, env, step);
            && (forall i | 0 <= i < |w.children| :: w.children[i].bounces > state.bounces)
            && |w.children| <= (config.branchLimit + 2) * (if leg.bounce > config.maxBounces then 0 else config.maxBounces + 1 - leg.bounce)
    decreases config.maxBounces + 1 - leg.bounce
  {
    hide BounceOf;
    if leg.bounce <= config.maxBounces {
      var left := config.maxBounces - leg.bounce;
      BounceBranches(env(step), leg, state, config);
      assert (config.branchLimit + 2) * (left + 1) == (config.branchLimit + 2) * left + config.branchLimit + 2;
      var b := BounceOf(env(step), leg, state, config);
      if b.next.Some? {
        WalkBranches(b.next.value, state, config, env, step + 1);
      }
    }
  }

  function Start(state: RayState): Leg {
    Leg(state.energy, state.pathLength, state.bounces, state.rainCovered)
  }

  /** Replacing a state by its branches lightens the work list. */
  lemma WorkShrinks(states: seq<RayState>, config: Config, env: nat -> Segment, step: nat)
    requires states != [] && Bounded(env, config) && config.maxBounces >= 0
    ensures var rest, state := states[..|states| - 1], states[|states| - 1];
            && Load(BranchBound(config), config.maxBounces, rest) < Load(BranchBound(config), config.maxBounces, states)
            && Load(BranchBound(config), config.maxBounces, rest + Walk(Start(state), state, config, env, step).children)
               < Load(BranchBound(config), config.maxBounces, states)
  {
    hide Level, Weight, BranchBound, Walk;
    var rest, state := states[..|states| - 1], states[|states| - 1];
    var children := Walk(Start(state), state, config, env, step).children;
    BranchesFit(state, config, env, step);
    ChildrenAreLighter(BranchBound(config), config.maxBounces, state, children);
    LoadOfConcat(BranchBound(config), config.maxBounces, rest, children);
  }

  lemma BranchesFit(state: RayState, config: Config, env: nat -> Segment, step: nat)
    requires Bounded(env, config) && config.maxBounces >= 0
    ensures var children := Walk(Start(state), state, config, env, step).children;
            && |children| <= BranchBound(config) && (state.bounces > config.maxBounces ==> children == [])
            && forall i | 0 <= i < |children| :: children[i].bounces > state.bounces
  {
    WalkBranches(Start(state), state, config, env, step);
    if state.bounces <= config.maxBounces {
      Monotone(config.branchLimit + 2, config.maxBounces + 1 - state.bounces, config.maxBounces + 1);
    }
    hide BounceOf;
  }

  lemma Monotone(k: nat, x: nat, y: nat)
    requires x <= y
    ensures k * x <= k * y
  {
  }

  // ---------- A whole run ----------

  /** All deposits of a run that starts with the given work list, in the order they are made. */
  ghost function Heard(states: seq<RayState>, config: Config, env: nat -> Segment, step: nat): seq<Deposit>
    requires Bounded(env, config) && config.maxBounces >= 0
    decreases Load(BranchBound(config), config.maxBounces, states)
  {
    if states == [] then []
    else
      WorkShrinks(states, config, env, step);
      var rest, state := states[..|states| - 1], states[|states| - 1];
      if MaxEnergy(state.energy) <= config.threshold then Heard(rest, config, env, step)
      else
        var w := Walk(Start(state), state, config, env, step);
        w.deposits + Heard(rest + w.children, config, env, w.step)
  }
}
