/** What a plan's memo and a shared cache know of simulated halves, and what a whole history of
    renders, replannings and invalidations does to it (crossroom/paths.go, crossroom/network.go,
    crossroom/cache.go). */
module RenderHistory {
  import opened GroupSignature
  import RC = ResponseCache

  type CacheKey = RC.CacheKey

  // ---------- Which halves are wanted ----------

  datatype Needs = Needs(early: bool, late: bool) {
    function Union(other: Needs): Needs {
      Needs(early || other.early, late || other.late)
    }

    function Missing(want: Needs): Needs {
      Needs(want.early && !early, want.late && !late)
    }

    predicate Empty() {
      !early && !late
    }

    /** At least the halves of `other`. */
    predicate Covers(other: Needs) {
      (other.early ==> early) && (other.late ==> late)
    }

    ghost predicate Disjoint(other: Needs) {
      !(early && other.early) && !(late && other.late)
    }
  }

  const NO_HALF := Needs(false, false)

  /** Supplying what is missing satisfies a want, and nothing that was there is asked for again. */
  lemma MissingIsExact(have: Needs, want: Needs)
    ensures have.Union(have.Missing(want)).Covers(want) && have.Union(have.Missing(want)) == have.Union(want)
    ensures have.Missing(want).Empty() <==> have.Covers(want)
    ensures have.Missing(want).Disjoint(have)
    ensures forall extra: Needs :: have.Union(extra).Covers(want) ==> extra.Covers(have.Missing(want))
  {
  }

  // ---------- What is known ----------

  /** A hop by its endpoints within a plan. */
  datatype HopKey = HopKey(group: nat, entry: int, exit: int)

  /** What the memo notes for a hop: its content and the halves it has. */
  datatype Note = Note(content: CacheKey, needs: Needs)

  /** The halves noted in the memo, those of the cached factors, and the evictions so far. */
  datatype View = View(noted: map<HopKey, Note>, cached: map<CacheKey, Needs>, evictions: nat)

  /** The halves a render starts from: the memo's note wins, else what the cached factor has. */
  function Known(v: View, hop: HopKey, content: CacheKey): Needs {
    if hop in v.noted then v.noted[hop].needs
    else if content in v.cached then v.cached[content]
    else NO_HALF
  }

  /** The halves present anywhere, in the memoised or in the cached factor. */
  function Held(v: View, hop: HopKey, content: CacheKey): Needs {
    (if hop in v.noted then v.noted[hop].needs else NO_HALF).Union(if content in v.cached then v.cached[content] else NO_HALF)
  }

  /** The content belongs to this hop and to no other noted one. */
  ghost predicate OwnContent(v: View, hop: HopKey, content: CacheKey) {
    && (hop in v.noted ==> v.noted[hop].content == content)
    && forall h | h in v.noted && v.noted[h].content == content :: h == hop
  }

  /** The memo is at least as complete as the cache. */
  ghost predicate AsComplete(v: View, hop: HopKey) {
    hop in v.noted && (v.noted[hop].content in v.cached ==> v.noted[hop].needs.Covers(v.cached[v.noted[hop].content]))
  }

  ghost predicate Settled(v: View) {
    && (forall h, k | h in v.noted && k in v.noted && v.noted[h].content == v.noted[k].content :: h == k)
    && (forall h | h in v.noted :: AsComplete(v, h))
  }

  // ---------- What happens ----------

  datatype Turn =
    | HopRendered(hop: HopKey, content: CacheKey, needs: Needs, solved: Needs, ok: bool)
    | Replanned
    | Dropped(signature: Signature)

  /** The cache after a factor was put, before anything is evicted. */
  function Stored(v: View, content: CacheKey, halves: Needs): map<CacheKey, Needs> {
    v.cached[content := halves]
  }

  ghost predicate Submap(small: map<CacheKey, Needs>, large: map<CacheKey, Needs>) {
    forall key | key in small :: key in large && small[key] == large[key]
  }

  /** A hop that was rendered, or failed: exactly the missing halves were tried. A failure changes
      nothing. A success notes what is known now; unless everything was there already, the factor is
      put into the cache, which may evict. */
  ghost predicate RenderStep(v: View, hop: HopKey, content: CacheKey, needs: Needs, solved: Needs, ok: bool, v': View) {
    var known := Known(v, hop, content);
    && OwnContent(v, hop, content) && solved == known.Missing(needs)
    && v'.noted == (if ok then v.noted[hop := Note(content, known.Union(needs))] else v.noted)
    && if !ok || (known.Covers(needs) && (hop in v.noted || content in v.cached)) then
         v'.cached == v.cached && v'.evictions == v.evictions
       else
         && v'.evictions >= v.evictions && Submap(v'.cached, Stored(v, content, known.Union(needs)))
         && (v'.evictions == v.evictions ==> v'.cached == Stored(v, content, known.Union(needs)))
  }

  ghost predicate Step(v: View, e: Turn, v': View) {
    match e
    case HopRendered(hop, content, needs, solved, ok) => RenderStep(v, hop, content, needs, solved, ok, v')
    case Replanned => v' == v.(noted := map[])
    case Dropped(signature) => v' == v.(cached := map key | key in v.cached && key.signature != signature :: v.cached[key])
  }

  /** A history: the views before, between and after the turns. */
  ghost predicate History(views: seq<View>, turns: seq<Turn>) {
    |views| == |turns| + 1 && forall k | 0 <= k < |turns| :: StepAt(views, turns, k)
  }

  ghost predicate StepAt(views: seq<View>, turns: seq<Turn>, k: nat) {
    var next := k + 1;
    k < |turns| && next < |views| && Step(views[k], turns[k], views[next])
  }

  lemma HistoryGrows(views: seq<View>, turns: seq<Turn>, e: Turn, v: View)
    requires History(views, turns) && Step(views[|turns|], e, v)
    ensures History(views + [v], turns + [e])
  {
    var views', turns' := views + [v], turns + [e];
    forall k: nat | k < |turns'|
      ensures StepAt(views', turns', k)
    {
      assert k < |turns| ==> StepAt(views, turns, k);
    }
  }

  lemma {:induction false} HistoriesJoin(views: seq<View>, turns: seq<Turn>, views': seq<View>, turns': seq<Turn>)
    requires History(views, turns) && History(views', turns') && views[|turns|] == views'[0]
    ensures History(views + views'[1..], turns + turns')
    decreases |turns'|
  {
    if turns' == [] {
      assert views + views'[1..] == views && turns + turns' == turns;
    } else {
      var n := |turns'| - 1;
      var front, before := views'[..n + 1], turns'[..n];
      forall k: nat | k < n
        ensures StepAt(front, before, k)
      {
        assert StepAt(views', turns', k);
      }
      HistoriesJoin(views, turns, front, before);
      var joined, all := views + front[1..], turns + before;
      assert StepAt(views', turns', n);
      assert joined[|all|] == views'[n];
      HistoryGrows(joined, all, turns'[n], views'[n + 1]);
      assert joined + [views'[n + 1]] == views + views'[1..] && all + [turns'[n]] == turns + turns';
    }
  }

  // ---------- Nothing is simulated twice ----------

  /** The halves present anywhere are those a render starts from. */
  lemma HeldIsKnown(v: View, hop: HopKey, content: CacheKey)
    requires Settled(v) && OwnContent(v, hop, content)
    ensures Held(v, hop, content) == Known(v, hop, content)
  {
    assert hop in v.noted ==> AsComplete(v, hop);
  }

  /** No half that is present in the memoised or in the cached factor is tried again, whether or not
      the render succeeds. */
  lemma NothingPresentIsSimulated(v: View, e: Turn, v': View)
    requires Settled(v) && e.HopRendered? && Step(v, e, v')
    ensures var held := Held(v, e.hop, e.content); !(e.solved.early && held.early) && !(e.solved.late && held.late)
  {
    HeldIsKnown(v, e.hop, e.content);
  }

  lemma StepSettles(v: View, e: Turn, v': View)
    requires Settled(v) && Step(v, e, v')
    ensures Settled(v')
  {
    forall h | h in v'.noted
      ensures AsComplete(v', h)
    {
      if e.HopRendered? && h == e.hop && e.ok {
        assert h in v.noted ==> AsComplete(v, h);
      } else {
        assert AsComplete(v, h);
      }
    }
  }

  lemma {:induction false} AlwaysSettled(views: seq<View>, turns: seq<Turn>, n: nat)
    requires History(views, turns) && Settled(views[0]) && n < |views|
    ensures Settled(views[n])
    decreases n
  {
    if n > 0 {
      var m := n - 1;
      AlwaysSettled(views, turns, m);
      assert StepAt(views, turns, m);
      StepSettles(views[m], turns[m], views[n]);
    }
  }

  /** No turn tries a half that is present when its turn comes. */
  ghost predicate NothingAgain(views: seq<View>, turns: seq<Turn>) {
    |views| > |turns| && forall k | 0 <= k < |turns| && turns[k].HopRendered? :: turns[k].solved.Disjoint(Held(views[k], turns[k].hop, turns[k].content))
  }

  lemma HistoriesSimulateNothingAgain(views: seq<View>, turns: seq<Turn>)
    requires History(views, turns) && Settled(views[0])
    ensures NothingAgain(views, turns)
  {
    forall k: nat | k < |turns| && turns[k].HopRendered?
      ensures turns[k].solved.Disjoint(Held(views[k], turns[k].hop, turns[k].content))
    {
      AlwaysSettled(views, turns, k);
      assert StepAt(views, turns, k);
      NothingPresentIsSimulated(views[k], turns[k], views[k + 1]);
    }
  }

  /** The memo has the halves. */
  ghost predicate NotedWith(v: View, hop: HopKey, content: CacheKey, halves: Needs) {
    hop in v.noted && v.noted[hop].content == content && v.noted[hop].needs.Covers(halves)
  }

  /** The cached factor has the halves. */
  ghost predicate CachedWith(v: View, content: CacheKey, halves: Needs) {
    content in v.cached && v.cached[content].Covers(halves)
  }

  /** Until a new plan is made the memo forgets nothing, whatever is evicted or dropped. */
  lemma {:induction false} NotedStays(views: seq<View>, turns: seq<Turn>, hop: HopKey, content: CacheKey, halves: Needs, i: nat, j: nat)
    requires History(views, turns) && i <= j < |views| && NotedWith(views[i], hop, content, halves)
    requires forall k | i <= k < j :: !turns[k].Replanned?
    ensures NotedWith(views[j], hop, content, halves)
    decreases j - i
  {
    if i < j {
      var m := j - 1;
      NotedStays(views, turns, hop, content, halves, i, m);
      assert StepAt(views, turns, m);
    }
  }

  lemma {:induction false} EvictionsOnlyRise(views: seq<View>, turns: seq<Turn>, i: nat, j: nat)
    requires History(views, turns) && i <= j < |views|
    ensures views[i].evictions <= views[j].evictions
    decreases j - i
  {
    if i < j {
      var m := j - 1;
      EvictionsOnlyRise(views, turns, i, m);
      assert StepAt(views, turns, m);
    }
  }

  /** Until something is evicted or the group is dropped the cache forgets nothing, whatever is
      replanned. */
  lemma {:induction false} CachedStays(views: seq<View>, turns: seq<Turn>, content: CacheKey, halves: Needs, i: nat, j: nat)
    requires History(views, turns) && Settled(views[0]) && i <= j < |views| && CachedWith(views[i], content, halves)
    requires views[j].evictions == views[i].evictions && forall k | i <= k < j :: turns[k] != Dropped(content.signature)
    ensures CachedWith(views[j], content, halves)
    decreases j - i
  {
    if i < j {
      var m := j - 1;
      EvictionsOnlyRise(views, turns, i, m);
      EvictionsOnlyRise(views, turns, m, j);
      CachedStays(views, turns, content, halves, i, m);
      AlwaysSettled(views, turns, m);
      assert StepAt(views, turns, m);
      CachedStep(views[m], turns[m], views[j], content, halves);
    }
  }

  lemma CachedStep(v: View, e: Turn, v': View, content: CacheKey, halves: Needs)
    requires Settled(v) && Step(v, e, v') && CachedWith(v, content, halves)
    requires v'.evictions == v.evictions && e != Dropped(content.signature)
    ensures CachedWith(v', content, halves)
  {
    if e.HopRendered? {
      assert e.hop in v.noted ==> AsComplete(v, e.hop);
    }
  }

  /** A half once simulated with success is simulated again only if the memo was given up for a new
      plan, and the cache evicted something or dropped the group. */
  lemma NothingTwice(views: seq<View>, turns: seq<Turn>, i: nat, j: nat)
    requires History(views, turns) && Settled(views[0]) && i < j < |turns|
    requires turns[i].HopRendered? && turns[j].HopRendered? && turns[i].content == turns[j].content && turns[i].ok
    ensures || turns[j].solved.Disjoint(turns[i].solved)
            || (&& (exists k :: i < k < j && turns[k].Replanned?)
                && (views[j].evictions > views[i].evictions || exists k :: i < k < j && turns[k] == Dropped(turns[i].content.signature)))
  {
    var content, halves, next := turns[i].content, turns[i].solved, i + 1;
    assert StepAt(views, turns, i) && StepAt(views, turns, j);
    AlwaysSettled(views, turns, i);
    AlwaysSettled(views, turns, j);
    NothingPresentIsSimulated(views[j], turns[j], views[j + 1]);
    if !halves.Empty() {
      if !exists k :: i < k < j && turns[k].Replanned? {
        NotedStays(views, turns, turns[i].hop, content, halves, next, j);
      } else if views[j].evictions == views[i].evictions && !exists k :: i < k < j && turns[k] == Dropped(content.signature) {
        EvictionsOnlyRise(views, turns, i, next);
        EvictionsOnlyRise(views, turns, next, j);
        CachedStays(views, turns, content, halves, next, j);
      } else {
        EvictionsOnlyRise(views, turns, i, j);
      }
    }
  }
}
