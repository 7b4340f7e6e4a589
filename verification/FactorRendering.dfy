/** Rendering the factors of a path through a per-plan memo and a shared response cache
    (crossroom/paths.go, crossroom/network.go, crossroom/factors.go). */
module FactorRendering {
  import opened Finite
  import opened GroupSignature
  import opened Histograms
  import opened ImpulseTrains
  import opened RenderHistory
  import opened Wrappers
  import RC = ResponseCache

  datatype EarlyHalf = EarlyHalf(response: BandedResponse, events: seq<Event>)

  datatype LateHalf = LateHalf(energy: Histogram, groups: seq<Histogram>)

  /** What simulating a hop gives, as a function of the hop's content. */
  datatype Simulation = Simulation(early: CacheKey -> Option<EarlyHalf>, late: CacheKey -> Option<LateHalf>)

  /** A room group's transfer function between two ports, filled in half by half. */
  class GroupFactor {
    ghost const content: CacheKey
    var early: Option<EarlyHalf>
    var late: Option<LateHalf>

    constructor (ghost content: CacheKey)
      ensures this.content == content && early == None && late == None
    {
      this.content := content;
      early, late := None, None;
    }

    constructor Copy(f: GroupFactor)
      ensures content == f.content && early == f.early && late == f.late
    {
      content, early, late := f.content, f.early, f.late;
    }

    /** Every half that is present is the fresh simulation of the hop. */
    ghost predicate Correct(sim: Simulation)
      reads this
    {
      && (early.Some? ==> sim.early(content) == early)
      && (late.Some? ==> sim.late(content) == late)
    }

    function Present(): Needs
      reads this
    {
      Needs(early.Some?, late.Some?)
    }
  }

  // ---------- Hops ----------

  datatype NetworkPath = NetworkPath(groups: seq<nat>, portals: seq<nat>)

  predicate ValidPath(p: NetworkPath) {
    |p.groups| > 0 && |p.portals| == |p.groups| - 1
  }

  const PORTAL_NONE := -1

  function HopKeyAt(p: NetworkPath, i: nat): HopKey
    requires ValidPath(p) && i < |p.groups|
  {
    HopKey(p.groups[i], if i > 0 then p.portals[i - 1] else PORTAL_NONE, if i < |p.groups| - 1 then p.portals[i] else PORTAL_NONE)
  }

  datatype Port = Port(kind: RC.PortKind, index: int)

  function EntryPort(p: NetworkPath, i: nat): Port
    requires ValidPath(p) && i < |p.groups|
  {
    if i == 0 then Port(RC.SourcePort, 0) else Port(RC.PortalPort, p.portals[i - 1])
  }

  function ExitPort(p: NetworkPath, i: nat): Port
    requires ValidPath(p) && i < |p.groups|
  {
    if i == |p.groups| - 1 then Port(RC.ReceiverPort, 0) else Port(RC.PortalPort, p.portals[i])
  }

  datatype CachedFactor = CachedFactor(factor: GroupFactor, needs: Needs)

  class PathPlan {
    const signatures: seq<Signature>
    const endpoints: RC.Endpoints
    const config: string
    var memo: map<HopKey, CachedFactor>

    constructor (signatures: seq<Signature>, endpoints: RC.Endpoints, config: string)
      ensures memo == map[] && this.signatures == signatures && this.endpoints == endpoints && this.config == config
    {
      this.signatures, this.endpoints, this.config, memo := signatures, endpoints, config, map[];
    }

    /** The cache key of a hop through a group of this plan. */
    function ResponseKey(group: nat, from: Port, to: Port): CacheKey
      requires group < |signatures|
    {
      RC.CacheKey(signatures[group], endpoints, config, from.kind, to.kind, from.index, to.index)
    }

    /** The content of a hop, from its endpoints alone. */
    ghost function ContentOf(hop: HopKey): CacheKey
      requires hop.group < |signatures|
    {
      ResponseKey(hop.group,
                  if hop.entry == PORTAL_NONE then Port(RC.SourcePort, 0) else Port(RC.PortalPort, hop.entry),
                  if hop.exit == PORTAL_NONE then Port(RC.ReceiverPort, 0) else Port(RC.PortalPort, hop.exit))
    }

    ghost function Factors(): set<GroupFactor>
      reads this
    {
      set k | k in memo :: memo[k].factor
    }

    ghost predicate EntryOk(sim: Simulation, hop: HopKey)
      requires hop in memo
      reads this, memo[hop].factor
    {
      var c := memo[hop];
      hop.group < |signatures| && c.factor.content == ContentOf(hop) && c.factor.Correct(sim) && c.factor.Present().Covers(c.needs)
    }

    /** Every memoised factor belongs to its hop, is correct, and has the halves noted for it. */
    ghost predicate Coherent(sim: Simulation)
      reads this, Factors()
    {
      forall hop | hop in memo :: EntryOk(sim, hop)
    }

    /** Groups differ in their signatures; the halves noted are exactly those present, at least one;
        and no two hops share a factor. */
    ghost predicate Exact()
      reads this, Factors()
    {
      && NoRepeats(signatures) && (forall hop | hop in memo :: NotedExactly(hop))
      && (forall h, k | h in memo && k in memo && h != k :: memo[h].factor != memo[k].factor)
    }

    ghost predicate NotedExactly(hop: HopKey)
      requires hop in memo
      reads this, memo[hop].factor
    {
      memo[hop].needs == memo[hop].factor.Present() && !memo[hop].needs.Empty()
    }
  }

  /** A hop's endpoints determine its content: paths that share a hop share its simulation. */
  lemma HopDeterminesContent(plan: PathPlan, p: NetworkPath, i: nat)
    requires ValidPath(p) && i < |p.groups| && p.groups[i] < |plan.signatures|
    ensures plan.ResponseKey(p.groups[i], EntryPort(p, i), ExitPort(p, i)) == plan.ContentOf(HopKeyAt(p, i))
  {
  }

  /** Where groups differ in their signatures, hops differ in their contents. */
  lemma ContentIsOwn(plan: PathPlan, h: HopKey, k: HopKey)
    requires NoRepeats(plan.signatures) && h.group < |plan.signatures| && k.group < |plan.signatures|
    requires plan.ContentOf(h) == plan.ContentOf(k)
    ensures h == k
  {
  }

  ghost function CacheFactors(cache: RC.Cache<GroupFactor>): set<GroupFactor>
    reads cache
  {
    set k | k in cache.entries :: cache.entries[k].factor
  }

  ghost predicate StoredOk(cache: RC.Cache<GroupFactor>, sim: Simulation, key: CacheKey)
    requires key in cache.entries
    reads cache, cache.entries[key].factor
  {
    cache.entries[key].factor.content == key && cache.entries[key].factor.Correct(sim)
  }

  /** Every cached factor belongs to its key and is correct. */
  ghost predicate CacheCoherent(cache: RC.Cache<GroupFactor>, sim: Simulation)
    reads cache, CacheFactors(cache)
  {
    cache.Valid() && forall key | key in cache.entries :: StoredOk(cache, sim, key)
  }

  // ---------- Solving ----------

  /** What a failed simulation leaves behind: the early half, if only the late one failed. */
  ghost function Stranded(sim: Simulation, content: CacheKey, needs: Needs): Needs {
    Needs(needs.early && sim.early(content).Some?, false)
  }

  /** Simulates the wanted halves into a factor. If the late half fails, the early one stays. */
  method SolveFactor(sim: Simulation, ghost content: CacheKey, key: CacheKey, factor: GroupFactor, needs: Needs) returns (ok: bool)
    requires key == content == factor.content && factor.Correct(sim)
    modifies factor
    ensures factor.Correct(sim)
    ensures ok <==> (needs.early ==> sim.early(key).Some?) && (needs.late ==> sim.late(key).Some?)
    ensures ok ==> factor.Present() == old(factor.Present()).Union(needs)
    ensures factor.Present().Covers(old(factor.Present()))
    ensures old(factor.early.Some?) ==> factor.early == old(factor.early)
    ensures old(factor.late.Some?) ==> factor.late == old(factor.late)
    ensures !ok ==> factor.Present() == old(factor.Present()).Union(Stranded(sim, key, needs))
  {
    if needs.early {
      var early := sim.early(key);
      if early.None? {
        return false;
      }
      factor.early := early;
    }
    if needs.late {
      var late := sim.late(key);
      if late.None? {
        return false;
      }
      factor.late := late;
    }
    ok := true;
  }

  /** The size of the sample storage that a factor's halves hold. */
  function BytesOf(early: Option<EarlyHalf>, late: Option<LateHalf>): nat {
    (if early.Some? then EarlyBytes(early.value) else 0) + (if late.Some? then LateBytes(late.value) else 0)
  }

  function EarlyBytes(early: EarlyHalf): nat {
    |early.response.bands| * (if |early.response.bands| == 0 then 0 else |early.response.bands[0]|) * 8 + EventBytes(early.events)
  }

  function EventBytes(events: seq<Event>): nat {
    if events == [] then 0 else EventBytes(events[..|events| - 1]) + |events[|events| - 1].gain| * 8 + 64
  }

  function LateBytes(late: LateHalf): nat {
    if late.energy.bandCount > 0 then |late.energy.bins| * late.energy.bandCount * 8 else 0
  }

  method FactorBytes(f: GroupFactor) returns (size: nat)
    ensures size == BytesOf(f.early, f.late)
  {
    size := 0;
    if f.early.Some? {
      var early := f.early.value;
      size := |early.response.bands| * (if |early.response.bands| == 0 then 0 else |early.response.bands[0]|) * 8;
      ghost var samples := size;
      for i := 0 to |early.events|
        invariant size == samples + EventBytes(early.events[..i])
      {
        assert early.events[..i + 1][..i] == early.events[..i];
        size := size + |early.events[i].gain| * 8 + 64;
      }
      assert early.events[..|early.events|] == early.events;
    }
    if f.late.Some? && f.late.value.energy.bandCount > 0 {
      size := size + |f.late.value.energy.bins| * f.late.value.energy.bandCount * 8;
    }
  }

  // ---------- Rendering one hop ----------

  /** What memo and cache know. */
  ghost function ViewOf(plan: PathPlan, cache: RC.Cache<GroupFactor>): View
    reads plan, cache, CacheFactors(cache)
  {
    View(Notes(plan), CachedHalves(cache), cache.evictions)
  }

  ghost function Notes(plan: PathPlan): map<HopKey, Note>
    reads plan
  {
    map hop | hop in plan.memo :: Note(plan.memo[hop].factor.content, plan.memo[hop].needs)
  }

  ghost function CachedHalves(cache: RC.Cache<GroupFactor>): map<CacheKey, Needs>
    reads cache, CacheFactors(cache)
  {
    map key | key in cache.entries :: cache.entries[key].factor.Present()
  }

  /** The halves present before are as they were. */
  twostate predicate Grown(f: GroupFactor)
    reads f
  {
    (old(f.early).Some? ==> f.early == old(f.early)) && (old(f.late).Some? ==> f.late == old(f.late))
  }

  /** The memo has forgotten nothing. */
  ghost predicate Extends(memo: map<HopKey, CachedFactor>, memo': map<HopKey, CachedFactor>) {
    forall hop | hop in memo :: hop in memo' && memo'[hop].factor == memo[hop].factor && memo'[hop].needs.Covers(memo[hop].needs)
  }

  lemma ExtendsOn(a: map<HopKey, CachedFactor>, b: map<HopKey, CachedFactor>, c: map<HopKey, CachedFactor>)
    requires Extends(a, b) && Extends(b, c)
    ensures Extends(a, c)
  {
  }

  lemma PutKeepsCoherence(cache: RC.Cache<GroupFactor>, sim: Simulation, before: map<CacheKey, RC.Entry<GroupFactor>>, order: seq<CacheKey>,
                          key: CacheKey, factor: GroupFactor, size: nat)
    requires cache.Valid() && factor.content == key && factor.Correct(sim)
    requires forall k | k in before :: before[k].factor.content == k && before[k].factor.Correct(sim)
    requires RC.KeptBy(cache.order, cache.entries, order, before[key := RC.Entry(factor, size)], cache.maxBytes)
    ensures CacheCoherent(cache, sim)
  {
    forall k | k in cache.entries
      ensures StoredOk(cache, sim, k)
    {
      assert cache.entries[k] == before[key := RC.Entry(factor, size)][k];
    }
  }

  /** The factor to work on: the memoised one itself, a copy of the cached one, or a new one. */
  method StartFactor(sim: Simulation, plan: PathPlan, cache: RC.Cache<GroupFactor>, hop: HopKey, key: CacheKey)
    returns (factor: GroupFactor, have: Needs, found: bool)
    requires hop.group < |plan.signatures| && key == plan.ContentOf(hop) && plan.Coherent(sim) && CacheCoherent(cache, sim)
    modifies cache
    ensures CacheCoherent(cache, sim) && cache.entries == old(cache.entries) && ViewOf(plan, cache) == old(ViewOf(plan, cache))
    ensures factor.content == key && factor.Correct(sim) && factor.Present().Covers(have) && have == Known(ViewOf(plan, cache), hop, key)
    ensures found <==> hop in plan.memo || key in cache.entries
    ensures hop in plan.memo ==> factor == plan.memo[hop].factor
    ensures hop !in plan.memo ==> fresh(factor)
    ensures Started(plan, cache, hop, factor, have)
  {
    hide RC.ToFront, RC.Agrees, RC.SumBytes;
    InCache(plan, cache, hop, key);
    if hop in plan.memo {
      assert plan.EntryOk(sim, hop);
      return plan.memo[hop].factor, plan.memo[hop].needs, true;
    }
    var stored := cache.Get(key);
    if stored != [] {
      assert StoredOk(cache, sim, key);
      factor := new GroupFactor.Copy(stored[0]);
      have, found := factor.Present(), true;
    } else {
      factor := new GroupFactor(key);
      have, found := NO_HALF, false;
    }
  }

  /** Filling a factor in place leaves everything coherent that holds it. */
  method FillFactor(sim: Simulation, plan: PathPlan, cache: RC.Cache<GroupFactor>, key: CacheKey, factor: GroupFactor, needs: Needs) returns (ok: bool)
    requires plan.Coherent(sim) && CacheCoherent(cache, sim) && factor.content == key && factor.Correct(sim)
    modifies factor
    ensures plan.Coherent(sim) && CacheCoherent(cache, sim) && factor.Correct(sim) && Grown(factor)
    ensures ok <==> Solvable(sim, key, needs)
    ensures factor.Present() == old(factor.Present()).Union(if ok then needs else Stranded(sim, key, needs))
    ensures CachedHalves(cache).Keys == old(CachedHalves(cache)).Keys && Submap(CachedHalves(cache) - {key}, old(CachedHalves(cache)))
    ensures factor !in CacheFactors(cache) || factor.Present() == old(factor.Present()) ==> CachedHalves(cache) == old(CachedHalves(cache))
  {
    hide RC.Cache.Valid;
    OnlyUnderItsKey(sim, cache, factor);
    ok := SolveFactor(sim, key, key, factor, needs);
    forall hop | hop in plan.memo
      ensures plan.EntryOk(sim, hop)
    {
      assert old(plan.EntryOk(sim, hop));
    }
    forall k | k in cache.entries
      ensures StoredOk(cache, sim, k)
    {
      assert old(StoredOk(cache, sim, k));
    }
  }

  /** Notes a factor for a hop, replacing what was noted for it. */
  method StoreFactor(sim: Simulation, plan: PathPlan, ghost cache: RC.Cache<GroupFactor>, hop: HopKey, factor: GroupFactor, needs: Needs)
    requires plan.Coherent(sim) && CacheCoherent(cache, sim) && hop.group < |plan.signatures| && factor.content == plan.ContentOf(hop)
    requires factor.Correct(sim) && factor.Present().Covers(needs)
    modifies plan
    ensures plan.Coherent(sim) && CacheCoherent(cache, sim) && plan.memo == old(plan.memo)[hop := CachedFactor(factor, needs)]
    ensures Notes(plan) == old(Notes(plan))[hop := Note(factor.content, needs)] && CachedHalves(cache) == old(CachedHalves(cache))
  {
    hide RC.Cache.Valid;
    plan.memo := plan.memo[hop := CachedFactor(factor, needs)];
    forall k | k in plan.memo
      ensures plan.EntryOk(sim, k)
    {
      assert k != hop ==> old(plan.EntryOk(sim, k));
    }
  }

  /** Notes a factor in the memo and puts it, the same object, into the cache. */
  method Publish(sim: Simulation, plan: PathPlan, cache: RC.Cache<GroupFactor>, hop: HopKey, key: CacheKey, factor: GroupFactor, needs: Needs)
    requires plan.Coherent(sim) && CacheCoherent(cache, sim)
    requires hop.group < |plan.signatures| && factor.content == key == plan.ContentOf(hop)
    requires factor.Correct(sim) && factor.Present().Covers(needs)
    modifies plan, cache
    ensures plan.Coherent(sim) && CacheCoherent(cache, sim) && plan.memo == old(plan.memo)[hop := CachedFactor(factor, needs)]
    ensures Notes(plan) == old(Notes(plan))[hop := Note(key, needs)] && cache.evictions >= old(cache.evictions)
    ensures Submap(CachedHalves(cache), old(CachedHalves(cache))[key := factor.Present()])
    ensures cache.evictions == old(cache.evictions) ==> CachedHalves(cache) == old(CachedHalves(cache))[key := factor.Present()]
    ensures BytesOf(factor.early, factor.late) <= cache.maxBytes ==> key in cache.entries && cache.entries[key].factor == factor
  {
    hide RC.KeptBy, RC.Cache.Valid, RC.ToFront, PathPlan.ContentOf, BytesOf;
    StoreFactor(sim, plan, cache, hop, factor, needs);
    ghost var before, order := cache.entries, RC.ToFront(cache.order, key);
    var size := FactorBytes(factor);
    forall k | k in cache.entries
      ensures cache.entries[k].factor.content == k && cache.entries[k].factor.Correct(sim)
    {
      assert old(StoredOk(cache, sim, k));
    }
    cache.Put(key, factor, size);
    PutKeepsCoherence(cache, sim, before, order, key, factor, size);
  }

  /** The halves already there can be simulated, so only the whole want decides. */
  lemma MissingDecides(sim: Simulation, factor: GroupFactor, have: Needs, needs: Needs)
    requires factor.Correct(sim) && factor.Present().Covers(have)
    ensures Solvable(sim, factor.content, have.Missing(needs)) <==> Solvable(sim, factor.content, needs)
  {
  }

  /** The factor a hop is rendered with: the memoised one, or one that nothing else holds yet. */
  ghost predicate Started(plan: PathPlan, cache: RC.Cache<GroupFactor>, hop: HopKey, factor: GroupFactor, have: Needs)
    reads plan, cache, factor
  {
    if hop in plan.memo then plan.memo[hop] == CachedFactor(factor, have)
    else factor !in plan.Factors() && factor !in CacheFactors(cache) && factor.Present() == have
  }

  lemma OwnContentHere(sim: Simulation, plan: PathPlan, cache: RC.Cache<GroupFactor>, hop: HopKey)
    requires plan.Coherent(sim) && NoRepeats(plan.signatures) && hop.group < |plan.signatures|
    ensures OwnContent(ViewOf(plan, cache), hop, plan.ContentOf(hop))
  {
    hide PathPlan.ContentOf;
    var v := ViewOf(plan, cache);
    forall h | h in v.noted
      ensures v.noted[h].content == plan.ContentOf(hop) ==> h == hop
    {
      assert plan.EntryOk(sim, h);
      if v.noted[h].content == plan.ContentOf(hop) {
        ContentIsOwn(plan, h, hop);
      }
    }
    assert hop in plan.memo ==> plan.EntryOk(sim, hop);
  }

  /** Notes a hop whose wanted halves are all there. */
  method KeepHop(sim: Simulation, plan: PathPlan, ghost cache: RC.Cache<GroupFactor>, hop: HopKey, ghost key: CacheKey, factor: GroupFactor,
                 have: Needs, ghost needs: Needs)
    requires plan.Coherent(sim) && CacheCoherent(cache, sim) && hop.group < |plan.signatures|
    requires factor.content == key == plan.ContentOf(hop) && factor.Correct(sim) && factor.Present().Covers(have)
    requires Started(plan, cache, hop, factor, have) && have == Known(ViewOf(plan, cache), hop, key)
    requires have.Covers(needs) && (hop in plan.memo || key in cache.entries)
    modifies plan
    ensures plan.Coherent(sim) && CacheCoherent(cache, sim) && plan.memo == old(plan.memo)[hop := CachedFactor(factor, have)]
    ensures old(plan.Exact()) ==> RenderStep(old(ViewOf(plan, cache)), hop, key, needs, have.Missing(needs), true, ViewOf(plan, cache))
  {
    hide PathPlan.ContentOf, PathPlan.Coherent, CacheCoherent, RC.Cache.Valid, GroupFactor.Correct, OwnContent;
    InCache(plan, cache, hop, key);
    if NoRepeats(plan.signatures) {
      OwnContentHere(sim, plan, cache, hop);
    }
    hide Notes, CachedHalves;
    StoreFactor(sim, plan, cache, hop, factor, have);
    assert have.Union(needs) == have;
  }

  lemma InCache(plan: PathPlan, cache: RC.Cache<GroupFactor>, hop: HopKey, key: CacheKey)
    ensures key in CachedHalves(cache) <==> key in cache.entries
    ensures hop in Notes(plan) <==> hop in plan.memo
  {
  }

  /** A failure strands an early half only when both halves were tried. */
  lemma NothingStranded(sim: Simulation, content: CacheKey, have: Needs, needs: Needs)
    requires !have.Empty() && !Solvable(sim, content, have.Missing(needs))
    ensures Stranded(sim, content, have.Missing(needs)).Empty()
  {
  }

  /** Simulates what is missing of a hop, notes the factor and puts it into the cache. */
  method FillHop(sim: Simulation, plan: PathPlan, cache: RC.Cache<GroupFactor>, hop: HopKey, key: CacheKey, factor: GroupFactor,
                 have: Needs, needs: Needs) returns (ok: bool)
    requires plan.Coherent(sim) && CacheCoherent(cache, sim) && hop.group < |plan.signatures|
    requires factor.content == key == plan.ContentOf(hop) && factor.Correct(sim) && factor.Present().Covers(have)
    requires Started(plan, cache, hop, factor, have) && have == Known(ViewOf(plan, cache), hop, key)
    requires !have.Covers(needs) || (hop !in plan.memo && key !in cache.entries)
    modifies plan, cache, factor
    ensures plan.Coherent(sim) && CacheCoherent(cache, sim) && Grown(factor)
    ensures ok <==> Solvable(sim, key, needs)
    ensures plan.memo == if ok then old(plan.memo)[hop := CachedFactor(factor, have.Union(needs))] else old(plan.memo)
    ensures factor.Present() == old(factor.Present()).Union(if ok then have.Missing(needs) else Stranded(sim, key, have.Missing(needs)))
    ensures ok && BytesOf(factor.early, factor.late) <= cache.maxBytes ==> key in cache.entries && cache.entries[key].factor == factor
    ensures !ok ==> cache.entries == old(cache.entries)
    ensures old(plan.Exact()) ==> RenderStep(old(ViewOf(plan, cache)), hop, key, needs, have.Missing(needs), ok, ViewOf(plan, cache))
  {
    hide PathPlan.ContentOf, PathPlan.Coherent, CacheCoherent, RC.Cache.Valid, GroupFactor.Correct, BytesOf, Solvable, Stranded, OwnContent;
    InCache(plan, cache, hop, key);
    if NoRepeats(plan.signatures) {
      OwnContentHere(sim, plan, cache, hop);
    }
    hide Notes, CachedHalves;
    ghost var v, exact := ViewOf(plan, cache), plan.Exact();
    if exact {
      assert hop in plan.memo ==> plan.NotedExactly(hop);
    }
    MissingIsExact(have, needs);
    MissingDecides(sim, factor, have, needs);
    ok := FillFactor(sim, plan, cache, key, factor, have.Missing(needs));
    ghost var mid := CachedHalves(cache);
    if ok {
      Publish(sim, plan, cache, hop, key, factor, have.Union(needs));
      if exact {
        FilledStep(v, hop, key, have, needs, mid, ViewOf(plan, cache));
      }
    } else if exact && hop in plan.memo {
      NothingStranded(sim, key, have, needs);
    }
  }

  /** Filling the factor shows only under its own key, which putting it then overwrites. */
  lemma FilledStep(v: View, hop: HopKey, content: CacheKey, have: Needs, needs: Needs, mid: map<CacheKey, Needs>, v': View)
    requires OwnContent(v, hop, content) && have == Known(v, hop, content) && Submap(mid - {content}, v.cached) && mid.Keys == v.cached.Keys
    requires v'.noted == v.noted[hop := Note(content, have.Union(needs))] && v'.evictions >= v.evictions
    requires Submap(v'.cached, mid[content := have.Union(needs)])
    requires v'.evictions == v.evictions ==> v'.cached == mid[content := have.Union(needs)]
    requires !have.Covers(needs) || (hop !in v.noted && content !in v.cached)
    ensures RenderStep(v, hop, content, needs, have.Missing(needs), true, v')
  {
    hide OwnContent;
    var all, stored := mid[content := have.Union(needs)], Stored(v, content, have.Union(needs));
    assert all == stored by {
      assert all.Keys == stored.Keys;
      forall k | k in all
        ensures all[k] == stored[k]
      {
        assert k != content ==> k in mid - {content};
      }
    }
  }

  /** A factor is cached under its own content only. */
  lemma OnlyUnderItsKey(sim: Simulation, cache: RC.Cache<GroupFactor>, factor: GroupFactor)
    requires CacheCoherent(cache, sim)
    ensures forall k | k in cache.entries && cache.entries[k].factor == factor :: k == factor.content
  {
    forall k | k in cache.entries && cache.entries[k].factor == factor
      ensures k == factor.content
    {
      assert StoredOk(cache, sim, k);
    }
  }

  /** Supplies the missing halves of a hop's factor and notes it. */
  method FinishHop(sim: Simulation, plan: PathPlan, cache: RC.Cache<GroupFactor>, hop: HopKey, key: CacheKey, factor: GroupFactor,
                   have: Needs, found: bool, needs: Needs) returns (ok: bool)
    requires plan.Coherent(sim) && CacheCoherent(cache, sim) && hop.group < |plan.signatures|
    requires factor.content == key == plan.ContentOf(hop) && factor.Correct(sim) && factor.Present().Covers(have)
    requires Started(plan, cache, hop, factor, have) && have == Known(ViewOf(plan, cache), hop, key)
    requires found <==> hop in plan.memo || key in cache.entries
    modifies plan, cache, factor
    ensures plan.Coherent(sim) && CacheCoherent(cache, sim) && Grown(factor)
    ensures ok <==> Solvable(sim, key, needs)
    ensures plan.memo == if ok then old(plan.memo)[hop := CachedFactor(factor, have.Union(needs))] else old(plan.memo)
    ensures factor.Present() == old(factor.Present()).Union(if ok then have.Missing(needs) else Stranded(sim, key, have.Missing(needs)))
    ensures ok && !have.Covers(needs) && BytesOf(factor.early, factor.late) <= cache.maxBytes ==>
              key in cache.entries && cache.entries[key].factor == factor
    ensures old(plan.Exact()) ==> RenderStep(old(ViewOf(plan, cache)), hop, key, needs, have.Missing(needs), ok, ViewOf(plan, cache))
    ensures old(plan.Exact()) ==> (plan.Exact() <==> !have.Union(needs).Empty())
    ensures old(plan.Exact()) ==>
              forall f | f in old(CacheFactors(cache)) :: Changed(f) <==> ok && !have.Missing(needs).Empty() && hop in old(plan.memo) && f == factor
  {
    hide RC.Cache.Valid, PathPlan.ContentOf, PathPlan.Coherent, CacheCoherent, GroupFactor.Correct, ViewOf, RenderStep, BytesOf;
    MissingIsExact(have, needs);
    MissingDecides(sim, factor, have, needs);
    ghost var memo := plan.memo;
    ghost var exact := plan.Exact();
    if found && have.Missing(needs).Empty() {
      KeepHop(sim, plan, cache, hop, key, factor, have, needs);
      ok := true;
    } else {
      ok := FillHop(sim, plan, cache, hop, key, factor, have, needs);
    }
    if exact {
      assert hop in memo ==> old(plan.NotedExactly(hop));
      if !ok && hop in memo {
        NothingStranded(sim, key, have, needs);
      }
      forall h | h in plan.memo && h != hop
        ensures plan.NotedExactly(h)
      {
        assert memo[h].factor != factor && old(plan.NotedExactly(h));
      }
      assert hop in plan.memo ==> (plan.NotedExactly(hop) <==> !plan.memo[hop].needs.Empty());
    }
  }

  ghost predicate Solvable(sim: Simulation, content: CacheKey, needs: Needs) {
    (needs.early ==> sim.early(content).Some?) && (needs.late ==> sim.late(content).Some?)
  }

  /** A fresh simulation of the hop would give the wanted halves. */
  ghost predicate HopSolvable(sim: Simulation, plan: PathPlan, p: NetworkPath, i: nat, needs: Needs)
    requires ValidPath(p) && i < |p.groups|
  {
    p.groups[i] < |plan.signatures| && Solvable(sim, plan.ContentOf(HopKeyAt(p, i)), needs)
  }

  twostate predicate Changed(f: GroupFactor)
    reads f
  {
    f.early != old(f.early) || f.late != old(f.late)
  }

  /** From an exact memo a hop takes one step of the history, and the memo stays exact if and only if
      some half is wanted or known. */
  ghost predicate StepsOn(exact: bool, v: View, hop: HopKey, content: CacheKey, needs: Needs, solved: Needs, ok: bool, exact': bool, v': View) {
    && solved == Known(v, hop, content).Missing(needs)
    && (exact ==> RenderStep(v, hop, content, needs, solved, ok, v'))
    && (exact ==> (exact' <==> !Known(v, hop, content).Union(needs).Empty()))
  }

  /** Renders one hop, simulating exactly the halves not known yet; `solved` tells which were tried. */
  method RenderHop(sim: Simulation, plan: PathPlan, cache: RC.Cache<GroupFactor>, p: NetworkPath, i: nat, needs: Needs)
    returns (r: seq<GroupFactor>, solved: Needs)
    requires ValidPath(p) && i < |p.groups| && plan.Coherent(sim) && CacheCoherent(cache, sim)
    modifies plan, cache, plan.Factors()
    ensures plan.Coherent(sim) && CacheCoherent(cache, sim) && Extends(old(plan.memo), plan.memo)
    ensures forall f | f in old(plan.Factors()) :: Grown(f)
    ensures old(plan.Factors()) <= plan.Factors() && fresh(plan.Factors() - old(plan.Factors()))
    ensures |r| <= 1 && (r != [] <==> HopSolvable(sim, plan, p, i, needs))
    ensures r != [] ==> Memoised(plan.memo, p, i, r[0], needs)
    ensures p.groups[i] >= |plan.signatures| ==> solved == NO_HALF && ViewOf(plan, cache) == old(ViewOf(plan, cache)) && plan.Exact() == old(plan.Exact())
    ensures p.groups[i] < |plan.signatures| ==>
              StepsOn(old(plan.Exact()), old(ViewOf(plan, cache)), HopKeyAt(p, i), plan.ContentOf(HopKeyAt(p, i)), needs, solved, r != [],
                      plan.Exact(), ViewOf(plan, cache))
  {
    if p.groups[i] >= |plan.signatures| {
      return [], NO_HALF;
    }
    ghost var stored;
    r, solved, stored := RenderKnownGroup(sim, plan, cache, p, i, needs);
  }

  /** The same for a hop through a group of the plan. A cached factor is written through if and only if
      it is the memoised factor of the hop, something is missing, and it can be simulated. */
  method RenderKnownGroup(sim: Simulation, plan: PathPlan, cache: RC.Cache<GroupFactor>, p: NetworkPath, i: nat, needs: Needs)
    returns (r: seq<GroupFactor>, solved: Needs, ghost factor: GroupFactor)
    requires ValidPath(p) && i < |p.groups| && plan.Coherent(sim) && CacheCoherent(cache, sim) && p.groups[i] < |plan.signatures|
    modifies plan, cache, plan.Factors()
    ensures plan.Coherent(sim) && CacheCoherent(cache, sim) && Extends(old(plan.memo), plan.memo)
    ensures forall f | f in old(plan.Factors()) :: Grown(f)
    ensures old(plan.Factors()) <= plan.Factors() && fresh(plan.Factors() - old(plan.Factors()))
    ensures r == (if Solvable(sim, plan.ContentOf(HopKeyAt(p, i)), needs) then [factor] else [])
    ensures r != [] ==> Memoised(plan.memo, p, i, factor, needs)
    ensures StepsOn(old(plan.Exact()), old(ViewOf(plan, cache)), HopKeyAt(p, i), plan.ContentOf(HopKeyAt(p, i)), needs, solved, r != [],
                    plan.Exact(), ViewOf(plan, cache))
    ensures r != [] && !solved.Empty() && BytesOf(factor.early, factor.late) <= cache.maxBytes ==>
              plan.ContentOf(HopKeyAt(p, i)) in cache.entries && cache.entries[plan.ContentOf(HopKeyAt(p, i))].factor == factor
    ensures HopKeyAt(p, i) in old(plan.memo) ==> factor == old(plan.memo)[HopKeyAt(p, i)].factor
    ensures r == [] ==> plan.memo == old(plan.memo)
    ensures r == [] && HopKeyAt(p, i) in old(plan.memo) ==>
              factor.Present() == old(plan.memo[HopKeyAt(p, i)].factor.Present()).Union(Stranded(sim, plan.ContentOf(HopKeyAt(p, i)), solved))
    ensures old(plan.Exact()) ==>
              forall f | f in old(CacheFactors(cache)) :: Changed(f) <==> r != [] && !solved.Empty() && HopKeyAt(p, i) in old(plan.memo) && f == factor
  {
    hide RC.Cache.Valid, PathPlan.ResponseKey, PathPlan.ContentOf, PathPlan.Coherent, CacheCoherent, GroupFactor.Correct, RenderStep, BytesOf,
         ViewOf, Notes, CachedHalves, Known, PathPlan.Exact, Solvable, Stranded;
    var hop, key := HopKeyAt(p, i), plan.ResponseKey(p.groups[i], EntryPort(p, i), ExitPort(p, i));
    HopDeterminesContent(plan, p, i);
    var f, have, found := StartFactor(sim, plan, cache, hop, key);
    assert CacheFactors(cache) == old(CacheFactors(cache));
    factor, solved := f, have.Missing(needs);
    MissingIsExact(have, needs);
    var ok := FinishHop(sim, plan, cache, hop, key, f, have, found, needs);
    r := if ok then [f] else [];
  }

  // ---------- Two short sessions ----------

  lemma NoteOf(plan: PathPlan, cache: RC.Cache<GroupFactor>, hop: HopKey, content: CacheKey)
    ensures hop in ViewOf(plan, cache).noted <==> hop in plan.memo
    ensures hop in plan.memo ==> Known(ViewOf(plan, cache), hop, content) == plan.memo[hop].needs == ViewOf(plan, cache).noted[hop].needs
    ensures hop !in plan.memo && content !in cache.entries ==> Known(ViewOf(plan, cache), hop, content) == NO_HALF
  {
  }

  lemma HalvesOf(sim: Simulation, plan: PathPlan, hop: HopKey)
    requires plan.Coherent(sim) && hop in plan.memo
    ensures var f := plan.memo[hop].factor;
            && hop.group < |plan.signatures| && f.Present().Covers(plan.memo[hop].needs)
            && (f.early.Some? ==> f.early == sim.early(plan.ContentOf(hop))) && (f.late.Some? ==> f.late == sim.late(plan.ContentOf(hop)))
            && (plan.Exact() ==> f.Present() == plan.memo[hop].needs)
  {
    assert plan.EntryOk(sim, hop);
    assert plan.Exact() ==> plan.NotedExactly(hop);
  }

  /** Rendering a hop early, and then with both halves, writes to the factor that the cache holds. */
  method CachedFactorIsWritten(sim: Simulation, plan: PathPlan, cache: RC.Cache<GroupFactor>, p: NetworkPath)
    returns (f: GroupFactor, held: bool, was: Option<LateHalf>)
    requires ValidPath(p) && plan.Coherent(sim) && CacheCoherent(cache, sim) && plan.Exact() && plan.memo == map[] && p.groups[0] < |plan.signatures|
    requires var key := plan.ContentOf(HopKeyAt(p, 0));
             key !in cache.entries && Solvable(sim, key, Needs(true, true)) && BytesOf(sim.early(key), None) <= cache.maxBytes
    modifies plan, cache
    ensures held && was.None? && f.late.Some?
  {
    hide RC.Cache.Valid, PathPlan.ContentOf, PathPlan.ResponseKey, PathPlan.Coherent, CacheCoherent, GroupFactor.Correct, PathPlan.Exact, BytesOf,
         ViewOf, Known;
    ghost var hop := HopKeyAt(p, 0);
    var key := plan.ResponseKey(p.groups[0], EntryPort(p, 0), ExitPort(p, 0));
    HopDeterminesContent(plan, p, 0);
    NoteOf(plan, cache, hop, key);
    var r, _, _ := RenderKnownGroup(sim, plan, cache, p, 0, Needs(true, false));
    NoteOf(plan, cache, hop, key);
    HalvesOf(sim, plan, hop);
    f := r[0];
    held, was := key in cache.entries && cache.entries[key].factor == f, f.late;
    var again, _, _ := RenderKnownGroup(sim, plan, cache, p, 0, Needs(true, true));
    HalvesOf(sim, plan, hop);
  }

  /** After a want that names no half, an early half can be stranded by a late one that fails, and is
      then simulated again although it is there. */
  method StrandedHalfIsSimulatedAgain(sim: Simulation, plan: PathPlan, cache: RC.Cache<GroupFactor>, p: NetworkPath)
    returns (was: Option<EarlyHalf>, solved: Needs)
    requires ValidPath(p) && plan.Coherent(sim) && CacheCoherent(cache, sim) && plan.Exact() && plan.memo == map[] && p.groups[0] < |plan.signatures|
    requires var key := plan.ContentOf(HopKeyAt(p, 0)); key !in cache.entries && sim.early(key).Some? && sim.late(key).None?
    modifies plan, cache
    ensures was.Some? && solved.early
  {
    hide RC.Cache.Valid, PathPlan.ContentOf, PathPlan.ResponseKey, PathPlan.Coherent, CacheCoherent, GroupFactor.Correct, PathPlan.Exact, BytesOf,
         ViewOf, Known;
    var hop := HopKeyAt(p, 0);
    ghost var key := plan.ContentOf(hop);
    NoteOf(plan, cache, hop, key);
    var r, _, _ := RenderKnownGroup(sim, plan, cache, p, 0, NO_HALF);
    NoteOf(plan, cache, hop, key);
    var again, _, _ := RenderKnownGroup(sim, plan, cache, p, 0, Needs(true, true));
    NoteOf(plan, cache, hop, key);
    was := plan.memo[hop].factor.early;
    ghost var f;
    r, solved, f := RenderKnownGroup(sim, plan, cache, p, 0, Needs(true, false));
  }

  // ---------- Rendering a path ----------

  /** A returned factor is the simulation of its hop, in at least the wanted halves. */
  ghost predicate Rendered(sim: Simulation, plan: PathPlan, p: NetworkPath, i: nat, f: GroupFactor, needs: Needs)
    requires ValidPath(p) && i < |p.groups|
    reads f
  {
    && p.groups[i] < |plan.signatures|
    && (needs.early ==> f.early.Some? && sim.early(plan.ContentOf(HopKeyAt(p, i))) == f.early)
    && (needs.late ==> f.late.Some? && sim.late(plan.ContentOf(HopKeyAt(p, i))) == f.late)
  }

  ghost predicate Memoised(memo: map<HopKey, CachedFactor>, p: NetworkPath, i: nat, f: GroupFactor, needs: Needs)
    requires ValidPath(p) && i < |p.groups|
  {
    HopKeyAt(p, i) in memo && memo[HopKeyAt(p, i)].factor == f && memo[HopKeyAt(p, i)].needs.Covers(needs)
  }

  lemma StillMemoised(memo: map<HopKey, CachedFactor>, memo': map<HopKey, CachedFactor>, p: NetworkPath, i: nat, f: GroupFactor, needs: Needs)
    requires ValidPath(p) && i < |p.groups| && Extends(memo, memo') && Memoised(memo, p, i, f, needs)
    ensures Memoised(memo', p, i, f, needs)
  {
  }

  lemma MemoisedIsRendered(sim: Simulation, plan: PathPlan, p: NetworkPath, i: nat, f: GroupFactor, needs: Needs)
    requires ValidPath(p) && i < |p.groups| && plan.Coherent(sim) && Memoised(plan.memo, p, i, f, needs)
    ensures Rendered(sim, plan, p, i, f, needs)
  {
    assert plan.EntryOk(sim, HopKeyAt(p, i));
  }

  /** What was simulated for a hop, and whether the hop was rendered. */
  datatype Attempt = Attempt(solved: Needs, ok: bool)

  ghost predicate InRange(plan: PathPlan, p: NetworkPath, n: nat) {
    n <= |p.groups| && forall i | 0 <= i < n :: p.groups[i] < |plan.signatures|
  }

  /** The hops of a path that were tried, as turns of the history. */
  ghost function HopTurns(plan: PathPlan, p: NetworkPath, needs: Needs, attempts: seq<Attempt>): (turns: seq<Turn>)
    requires ValidPath(p) && InRange(plan, p, |attempts|)
    ensures |turns| == |attempts|
  {
    seq(|attempts|, i requires 0 <= i < |attempts| =>
      HopRendered(HopKeyAt(p, i), plan.ContentOf(HopKeyAt(p, i)), needs, attempts[i].solved, attempts[i].ok))
  }

  /** The history of a render, from the state it found to the state it left. */
  ghost predicate Told(before: View, views: seq<View>, turns: seq<Turn>, after: View) {
    History(views, turns) && views[0] == before && views[|turns|] == after
  }

  lemma OneMoreHop(plan: PathPlan, p: NetworkPath, needs: Needs, attempts: seq<Attempt>, a: Attempt, before: View, views: seq<View>, v: View, v': View)
    requires ValidPath(p) && InRange(plan, p, |attempts| + 1)
    requires Told(before, views, HopTurns(plan, p, needs, attempts), v)
    requires var hop := HopKeyAt(p, |attempts|); RenderStep(v, hop, plan.ContentOf(hop), needs, a.solved, a.ok, v')
    ensures Told(before, views + [v'], HopTurns(plan, p, needs, attempts + [a]), v')
  {
    hide RenderStep, PathPlan.ContentOf;
    var turns, hop := HopTurns(plan, p, needs, attempts), HopKeyAt(p, |attempts|);
    var turn := HopRendered(hop, plan.ContentOf(hop), needs, a.solved, a.ok);
    HistoryGrows(views, turns, turn, v');
    assert HopTurns(plan, p, needs, attempts + [a]) == turns + [turn];
  }

  /** Tries the next hop of a path and adds it to the attempts, unless its group is unknown. */
  method NextHop(sim: Simulation, plan: PathPlan, cache: RC.Cache<GroupFactor>, p: NetworkPath, needs: Needs, attempts: seq<Attempt>,
                 ghost exact: bool, ghost before: View, ghost views: seq<View>)
    returns (r: seq<GroupFactor>, tried: seq<Attempt>, ghost seen: seq<View>)
    requires ValidPath(p) && plan.Coherent(sim) && CacheCoherent(cache, sim) && |attempts| < |p.groups| && InRange(plan, p, |attempts|)
    requires exact ==> plan.Exact() && !needs.Empty() && Told(before, views, HopTurns(plan, p, needs, attempts), ViewOf(plan, cache))
    modifies plan, cache, plan.Factors()
    ensures plan.Coherent(sim) && CacheCoherent(cache, sim) && Extends(old(plan.memo), plan.memo)
    ensures forall f | f in old(plan.Factors()) :: Grown(f)
    ensures old(plan.Factors()) <= plan.Factors() && fresh(plan.Factors() - old(plan.Factors()))
    ensures |r| <= 1 && (r != [] <==> HopSolvable(sim, plan, p, |attempts|, needs))
    ensures r != [] ==> Memoised(plan.memo, p, |attempts|, r[0], needs) && |tried| == |attempts| + 1
    ensures InRange(plan, p, |tried|) && (tried == attempts || exists a :: tried == attempts + [a] && (a.ok <==> r != []))
    ensures exact ==> plan.Exact() && Told(before, seen, HopTurns(plan, p, needs, tried), ViewOf(plan, cache))
  {
    hide CacheCoherent, PathPlan.Coherent, Needs.Missing, Known, ViewOf, PathPlan.ContentOf, Solvable, HopKeyAt, PathPlan.Exact, HopSolvable,
         RenderStep, Told, HopTurns, BytesOf, CachedHalves, Notes;
    ghost var v := ViewOf(plan, cache);
    var solved;
    r, solved := RenderHop(sim, plan, cache, p, |attempts|, needs);
    tried, seen := attempts, views;
    if p.groups[|attempts|] >= |plan.signatures| {
      OutOfRange(sim, plan, p, |attempts|, needs);
      return;
    }
    var attempt := Attempt(solved, r != []);
    tried := attempts + [attempt];
    if exact {
      OneMoreHop(plan, p, needs, attempts, attempt, before, views, v, ViewOf(plan, cache));
      seen := views + [ViewOf(plan, cache)];
    }
  }

  /** Renders one factor per hop of a path, or fails with the memo and the cache still coherent. While
      every want names a half, the memo stays exact, also when the render fails, and the attempts are
      a history. */
  method RenderPathFactors(sim: Simulation, plan: PathPlan, cache: RC.Cache<GroupFactor>, p: NetworkPath, needs: Needs)
    returns (factors: seq<GroupFactor>, attempts: seq<Attempt>, ok: bool, ghost views: seq<View>)
    requires ValidPath(p) && plan.Coherent(sim) && CacheCoherent(cache, sim)
    modifies plan, cache, plan.Factors()
    ensures plan.Coherent(sim) && CacheCoherent(cache, sim) && Extends(old(plan.memo), plan.memo)
    ensures forall f | f in old(plan.Factors()) :: Grown(f)
    ensures old(plan.Factors()) <= plan.Factors() && fresh(plan.Factors() - old(plan.Factors()))
    ensures InRange(plan, p, |attempts|) && forall i: nat | i < |attempts| :: attempts[i].ok <==> HopSolvable(sim, plan, p, i, needs)
    ensures ok <==> forall i: nat | i < |p.groups| :: HopSolvable(sim, plan, p, i, needs)
    ensures ok ==> |factors| == |attempts| == |p.groups| && forall i | 0 <= i < |factors| :: Rendered(sim, plan, p, i, factors[i], needs)
    ensures old(plan.Exact()) && !needs.Empty() ==>
              plan.Exact() && Told(old(ViewOf(plan, cache)), views, HopTurns(plan, p, needs, attempts), ViewOf(plan, cache))
  {
    hide CacheCoherent, PathPlan.Coherent, ViewOf, PathPlan.ContentOf, HopKeyAt, PathPlan.Exact, HopSolvable, Told, HopTurns, Rendered, InRange,
         Extends, Memoised;
    ghost var exact, before := plan.Exact() && !needs.Empty(), ViewOf(plan, cache);
    factors, attempts, views := [], [], [before];
    NothingTold(plan, p, needs, before);
    NothingForgotten(plan.memo);
    for i := 0 to |p.groups|
      invariant plan.Coherent(sim) && CacheCoherent(cache, sim) && Extends(old(plan.memo), plan.memo)
      invariant old(plan.Factors()) <= plan.Factors() && fresh(plan.Factors() - old(plan.Factors()))
      invariant forall f | f in old(plan.Factors()) :: Grown(f)
      invariant |factors| == |attempts| == i && forall j | 0 <= j < i :: Memoised(plan.memo, p, j, factors[j], needs)
      invariant InRange(plan, p, i) && forall j: nat | j < i :: attempts[j].ok && HopSolvable(sim, plan, p, j, needs)
      invariant exact ==> plan.Exact() && Told(before, views, HopTurns(plan, p, needs, attempts), ViewOf(plan, cache))
    {
      ghost var memo := plan.memo;
      var r;
      r, attempts, views := NextHop(sim, plan, cache, p, needs, attempts, exact, before, views);
      ExtendsOn(old(plan.memo), memo, plan.memo);
      if r == [] {
        return [], attempts, false, views;
      }
      forall j | 0 <= j < i
        ensures Memoised(plan.memo, p, j, factors[j], needs)
      {
        StillMemoised(memo, plan.memo, p, j, factors[j], needs);
      }
      factors := factors + r;
    }
    forall i | 0 <= i < |factors|
      ensures Rendered(sim, plan, p, i, factors[i], needs)
    {
      assert Memoised(plan.memo, p, i, factors[i], needs);
      MemoisedIsRendered(sim, plan, p, i, factors[i], needs);
    }
    ok := true;
  }

  lemma NothingForgotten(memo: map<HopKey, CachedFactor>)
    ensures Extends(memo, memo)
  {
  }

  lemma OutOfRange(sim: Simulation, plan: PathPlan, p: NetworkPath, i: nat, needs: Needs)
    requires ValidPath(p) && i < |p.groups| && p.groups[i] >= |plan.signatures|
    ensures !HopSolvable(sim, plan, p, i, needs)
  {
  }

  lemma NothingTold(plan: PathPlan, p: NetworkPath, needs: Needs, v: View)
    requires ValidPath(p)
    ensures InRange(plan, p, 0) && Told(v, [v], HopTurns(plan, p, needs, []), v)
  {
  }

  /** Dropping a group's entries keeps the others, as they are. */
  method Invalidate(sim: Simulation, cache: RC.Cache<GroupFactor>, signature: Signature) returns (removed: nat)
    requires CacheCoherent(cache, sim)
    modifies cache
    ensures CacheCoherent(cache, sim) && cache.evictions == old(cache.evictions)
    ensures CachedHalves(cache) == map key | key in old(CachedHalves(cache)) && key.signature != signature :: old(CachedHalves(cache))[key]
  {
    ghost var before, order := cache.entries, cache.order;
    removed := cache.InvalidateSignature(signature);
    forall key
      ensures key in cache.entries <==> key in before && key.signature != signature
      ensures key in cache.entries ==> StoredOk(cache, sim, key)
    {
      RC.KeptOthers(order, signature, key);
    }
  }

  /** A portal toggle starts a new plan on the same cache; both are coherent whatever the cache holds. */
  method Replan(sim: Simulation, cache: RC.Cache<GroupFactor>, signatures: seq<Signature>, endpoints: RC.Endpoints, config: string)
    returns (plan: PathPlan)
    requires CacheCoherent(cache, sim)
    ensures fresh(plan) && plan.Coherent(sim) && CacheCoherent(cache, sim)
    ensures plan.Exact() <==> NoRepeats(signatures)
    ensures ViewOf(plan, cache) == View(map[], old(CachedHalves(cache)), cache.evictions) && plan.memo == map[]
    ensures plan.signatures == signatures && plan.endpoints == endpoints && plan.config == config
  {
    plan := new PathPlan(signatures, endpoints, config);
  }

  // ---------- Whole sessions ----------

  /** What can happen between a shared cache and the plans that use it, one after the other. */
  datatype Action =
    | Render(path: NetworkPath, needs: Needs)
    | Toggle(signatures: seq<Signature>, endpoints: RC.Endpoints, config: string)
    | Drop(signature: Signature)

  ghost predicate ValidAction(a: Action) {
    a.Render? ==> ValidPath(a.path)
  }

  /** A render gave the fresh simulation of every hop, or failed because one has none. */
  ghost predicate Answered(sim: Simulation, a: Action, plan: PathPlan, factors: seq<GroupFactor>, ok: bool)
    requires ValidAction(a)
    reads factors
  {
    a.Render? ==>
      && (ok <==> forall i: nat | i < |a.path.groups| :: HopSolvable(sim, plan, a.path, i, a.needs))
      && (ok ==> |factors| == |a.path.groups| && forall i | 0 <= i < |factors| :: Rendered(sim, plan, a.path, i, factors[i], a.needs))
  }

  /** Every want names a half, and the groups of every plan differ in their signatures. */
  ghost predicate Proper(a: Action) {
    (a.Render? ==> !a.needs.Empty()) && (a.Toggle? ==> NoRepeats(a.signatures))
  }

  ghost function ActionTurns(a: Action, plan: PathPlan, attempts: seq<Attempt>): seq<Turn>
    requires ValidAction(a) && (a.Render? ==> InRange(plan, a.path, |attempts|))
  {
    match a
    case Render(path, needs) => HopTurns(plan, path, needs, attempts)
    case Toggle(_, _, _) => [Replanned]
    case Drop(signature) => [Dropped(signature)]
  }

  ghost predicate Logged(actions: seq<Action>, plans: seq<PathPlan>, attempts: seq<seq<Attempt>>) {
    && |plans| == |attempts| == |actions|
    && forall k | 0 <= k < |actions| :: ValidAction(actions[k]) && (actions[k].Render? ==> InRange(plans[k], actions[k].path, |attempts[k]|))
  }

  /** Everything that happened, in order. */
  ghost function AllTurns(actions: seq<Action>, plans: seq<PathPlan>, attempts: seq<seq<Attempt>>): seq<Turn>
    requires Logged(actions, plans, attempts)
  {
    if actions == [] then []
    else
      var n := |actions| - 1;
      AllTurns(actions[..n], plans[..n], attempts[..n]) + ActionTurns(actions[n], plans[n], attempts[n])
  }

  lemma LogGrows(actions: seq<Action>, plans: seq<PathPlan>, attempts: seq<seq<Attempt>>, a: Action, plan: PathPlan, tried: seq<Attempt>)
    requires Logged(actions, plans, attempts) && ValidAction(a) && (a.Render? ==> InRange(plan, a.path, |tried|))
    ensures Logged(actions + [a], plans + [plan], attempts + [tried])
  {
  }

  lemma OneMoreAction(actions: seq<Action>, plans: seq<PathPlan>, attempts: seq<seq<Attempt>>, a: Action, plan: PathPlan, tried: seq<Attempt>,
                      before: View, views: seq<View>, v: View, more: seq<View>, v': View)
    requires Logged(actions, plans, attempts) && ValidAction(a) && (a.Render? ==> InRange(plan, a.path, |tried|))
    requires Told(before, views, AllTurns(actions, plans, attempts), v) && Told(v, more, ActionTurns(a, plan, tried), v')
    ensures Logged(actions + [a], plans + [plan], attempts + [tried]) && |more| > 0
    ensures Told(before, views + more[1..], AllTurns(actions + [a], plans + [plan], attempts + [tried]), v')
  {
    hide History, HopTurns, ValidAction, InRange, ActionTurns;
    var n := |actions|;
    var actions', plans', attempts' := actions + [a], plans + [plan], attempts + [tried];
    LogGrows(actions, plans, attempts, a, plan, tried);
    assert actions'[..n] == actions && plans'[..n] == plans && attempts'[..n] == attempts;
    var turns, last := AllTurns(actions, plans, attempts), ActionTurns(a, plan, tried);
    HistoriesJoin(views, turns, more, last);
    JoinedLength(views, turns, more, last);
  }

  lemma JoinedLength(views: seq<View>, turns: seq<Turn>, more: seq<View>, last: seq<Turn>)
    requires History(views, turns) && History(more, last) && views[|turns|] == more[0]
    ensures |more| > 0 && (views + more[1..])[0] == views[0] && (views + more[1..])[|turns + last|] == more[|last|]
  {
  }

  lemma OneTurn(v: View, turn: Turn, v': View)
    requires Step(v, turn, v')
    ensures Told(v, [v, v'], [turn], v')
  {
  }

  lemma CachedPart(plan: PathPlan, cache: RC.Cache<GroupFactor>)
    ensures ViewOf(plan, cache).cached == CachedHalves(cache)
  {
  }

  lemma NothingHappened(v: View)
    ensures Logged([], [], []) && Told(v, [v], AllTurns([], [], []), v)
  {
  }

  lemma NothingAsked(sim: Simulation)
    ensures AllAnswered(sim, [], [], [], [])
  {
  }

  lemma Ended(before: View, views: seq<View>, turns: seq<Turn>, after: View)
    requires Told(before, views, turns, after) && before.noted == map[]
    ensures History(views, turns) && NothingAgain(views, turns) && views[0] == before && views[|turns|] == after
  {
    HistoriesSimulateNothingAgain(views, turns);
  }

  /** Every factor ever returned. */
  ghost function Handed(answers: seq<seq<GroupFactor>>): set<GroupFactor> {
    set k, f | 0 <= k < |answers| && f in answers[k] :: f
  }

  /** All renders so far were answered right, and their answers still are. */
  ghost predicate AllAnswered(sim: Simulation, actions: seq<Action>, plans: seq<PathPlan>, answers: seq<seq<GroupFactor>>, oks: seq<bool>)
    requires forall k | 0 <= k < |actions| :: ValidAction(actions[k])
    reads Handed(answers)
  {
    && |plans| == |answers| == |oks| == |actions|
    && forall k | 0 <= k < |actions| ::
         assert forall f | f in answers[k] :: f in Handed(answers);
         Answered(sim, actions[k], plans[k], answers[k], oks[k])
  }

  /** One action on the current plan; a toggle makes a new one. Nothing answered before is undone. */
  method Act(sim: Simulation, cache: RC.Cache<GroupFactor>, current: PathPlan, a: Action,
             ghost actions: seq<Action>, ghost plans: seq<PathPlan>, ghost answers: seq<seq<GroupFactor>>, ghost oks: seq<bool>)
    returns (plan: PathPlan, factors: seq<GroupFactor>, attempts: seq<Attempt>, ok: bool, ghost views: seq<View>)
    requires CacheCoherent(cache, sim) && current.Coherent(sim) && ValidAction(a)
    requires (forall k | 0 <= k < |actions| :: ValidAction(actions[k])) && AllAnswered(sim, actions, plans, answers, oks)
    modifies cache, current, current.Factors()
    ensures AllAnswered(sim, actions + [a], plans + [plan], answers + [factors], oks + [ok])
    ensures CacheCoherent(cache, sim) && plan.Coherent(sim) && (plan == current || fresh(plan))
    ensures fresh(plan.Factors() - old(current.Factors())) && forall f | f in old(current.Factors()) :: Grown(f)
    ensures a.Render? ==> InRange(plan, a.path, |attempts|)
    ensures old(current.Exact()) && Proper(a) ==>
              plan.Exact() && Told(old(ViewOf(current, cache)), views, ActionTurns(a, plan, attempts), ViewOf(plan, cache))
  {
    hide CacheCoherent, PathPlan.Coherent, HopSolvable, PathPlan.ContentOf, PathPlan.Exact, Told, HopTurns, InRange;
    ghost var v := ViewOf(current, cache);
    plan, factors, attempts, ok, views := current, [], [], true, [];
    match a {
      case Render(path, needs) =>
        factors, attempts, ok, views := RenderPathFactors(sim, plan, cache, path, needs);
      case Toggle(signatures, endpoints, config) =>
        plan := Replan(sim, cache, signatures, endpoints, config);
        views := [v, ViewOf(plan, cache)];
        OneTurn(v, Replanned, ViewOf(plan, cache));
      case Drop(signature) =>
        var _ := Invalidate(sim, cache, signature);
        views := [v, ViewOf(plan, cache)];
        OneTurn(v, Dropped(signature), ViewOf(plan, cache));
    }
  }

  /** Runs any sequence of renders, portal toggles and invalidations, with the evictions they cause.
      At the end every factor ever returned still is the fresh simulation of its hop. What was
      simulated is a history from the cache's first to its last state, in which no half present in
      the memoised or the cached factor is simulated again. */
  method Run(sim: Simulation, cache: RC.Cache<GroupFactor>, signatures: seq<Signature>, endpoints: RC.Endpoints, config: string, actions: seq<Action>)
    returns (answers: seq<seq<GroupFactor>>, oks: seq<bool>, attempts: seq<seq<Attempt>>, ghost plans: seq<PathPlan>, ghost views: seq<View>)
    requires CacheCoherent(cache, sim) && forall k | 0 <= k < |actions| :: ValidAction(actions[k])
    modifies cache
    ensures CacheCoherent(cache, sim) && Logged(actions, plans, attempts)
    ensures AllAnswered(sim, actions, plans, answers, oks)
    ensures NoRepeats(signatures) && (forall k | 0 <= k < |actions| :: Proper(actions[k])) ==>
              && History(views, AllTurns(actions, plans, attempts)) && NothingAgain(views, AllTurns(actions, plans, attempts))
              && views[0] == old(View(map[], CachedHalves(cache), cache.evictions))
              && views[|AllTurns(actions, plans, attempts)|].cached == CachedHalves(cache)
  {
    hide CacheCoherent, PathPlan.Coherent, HopSolvable, PathPlan.ContentOf, PathPlan.Exact, ViewOf, Told, AllTurns, ActionTurns, HopTurns, InRange,
         Logged, History, NothingAgain, CachedHalves, AllAnswered, Answered;
    answers, oks, attempts, plans := [], [], [], [];
    ghost var proper := NoRepeats(signatures) && forall k | 0 <= k < |actions| :: Proper(actions[k]);
    var plan := Replan(sim, cache, signatures, endpoints, config);
    ghost var before := ViewOf(plan, cache);
    views := [before];
    NothingHappened(before);
    NothingAsked(sim);
    for k := 0 to |actions|
      invariant CacheCoherent(cache, sim) && plan.Coherent(sim) && fresh(plan) && fresh(plan.Factors())
      invariant Logged(actions[..k], plans, attempts) && AllAnswered(sim, actions[..k], plans, answers, oks)
      invariant proper ==> plan.Exact() && Told(before, views, AllTurns(actions[..k], plans, attempts), ViewOf(plan, cache))
    {
      ghost var v := ViewOf(plan, cache);
      ghost var more;
      var factors, tried, ok;
      plan, factors, tried, ok, more := Act(sim, cache, plan, actions[k], actions[..k], plans, answers, oks);
      assert actions[..k + 1] == actions[..k] + [actions[k]];
      LogGrows(actions[..k], plans, attempts, actions[k], plan, tried);
      if proper {
        assert Proper(actions[k]);
        OneMoreAction(actions[..k], plans, attempts, actions[k], plan, tried, before, views, v, more, ViewOf(plan, cache));
        views := views + more[1..];
      }
      answers, oks, attempts, plans := answers + [factors], oks + [ok], attempts + [tried], plans + [plan];
    }
    assert actions[..|actions|] == actions;
    if proper {
      Ended(before, views, AllTurns(actions, plans, attempts), ViewOf(plan, cache));
      assert ViewOf(plan, cache).cached == CachedHalves(cache) by {
        CachedPart(plan, cache);
      }
    }
  }
}
