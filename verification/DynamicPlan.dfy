/** Re-planning after a portal toggle (crossroom/dynamic.go). */
module DynamicPlan {
  import opened Finite
  import opened Portals
  import opened SceneGraph
  import opened GroupSignature

  // ---------- A toggle is local ----------

  ghost function Toggled(portals: seq<Portal>, i: nat, state: PortalState): seq<Portal>
    requires i < |portals|
  {
    portals[i := portals[i].(state := state)]
  }

  lemma OtherLinksStay(portals: seq<Portal>, i: nat, state: PortalState, u: nat, v: nat)
    requires i < |portals| && u != portals[i].first && u != portals[i].second
    ensures OpenLink(portals, u, v) <==> OpenLink(Toggled(portals, i, state), u, v)
  {
    var after := Toggled(portals, i, state);
    if OpenLink(portals, u, v) {
      var k :| 0 <= k < |portals| && IsOpen(portals[k]) && Joins(portals[k], u, v);
      assert IsOpen(after[k]) && Joins(after[k], u, v);
    }
    if OpenLink(after, u, v) {
      var k :| 0 <= k < |after| && IsOpen(after[k]) && Joins(after[k], u, v);
      assert IsOpen(portals[k]) && Joins(portals[k], u, v);
    }
  }

  /** Rooms not joined to either end keep their component. */
  lemma ComponentsStay(portals: seq<Portal>, roomCount: nat, i: nat, state: PortalState, x: nat, y: nat)
    requires ValidPortals(portals, roomCount) && i < |portals| && x < roomCount
    requires !Joined(portals, x, portals[i].first) && !Joined(portals, x, portals[i].second)
    ensures Joined(Toggled(portals, i, state), x, y) ==> Joined(portals, x, y)
  {
    var after := Toggled(portals, i, state);
    if Joined(after, x, y) {
      var rooms := set r: nat | r < roomCount && Joined(portals, x, r);
      JoinedRefl(portals, x);
      forall u: nat, v: nat | u in rooms && OpenLink(after, u, v)
        ensures v in rooms
      {
        OtherLinksStay(portals, i, state, u, v);
        JoinedStep(portals, x, u, v);
      }
      var w :| WalkBetween(after, w, x, y);
      ClosedSetHoldsJoined(after, rooms, w, x, y);
    }
  }

  lemma ToggleBack(portals: seq<Portal>, i: nat, state: PortalState)
    requires i < |portals|
    ensures Toggled(Toggled(portals, i, state), i, portals[i].state) == portals
  {
    assert Toggled(Toggled(portals, i, state), i, portals[i].state)[i] == portals[i];
  }

  /** A component without either end is a component before and after. */
  lemma UntouchedComponent(portals: seq<Portal>, roomCount: nat, i: nat, state: PortalState, x: nat, y: nat)
    requires ValidPortals(portals, roomCount) && i < |portals| && x < roomCount
    requires !Joined(portals, x, portals[i].first) && !Joined(portals, x, portals[i].second)
    ensures Joined(portals, x, y) <==> Joined(Toggled(portals, i, state), x, y)
  {
    var after := Toggled(portals, i, state);
    ComponentsStay(portals, roomCount, i, state, x, y);
    ComponentsStay(portals, roomCount, i, state, x, portals[i].first);
    ComponentsStay(portals, roomCount, i, state, x, portals[i].second);
    ToggleBack(portals, i, state);
    ComponentsStay(after, roomCount, i, portals[i].state, x, y);
  }

  // ---------- Which signatures survive a toggle ----------

  ghost predicate HoldsEnd(portals: seq<Portal>, i: nat, groupOf: seq<int>, g: int)
    requires ValidPortals(portals, |groupOf|) && i < |portals|
  {
    groupOf[portals[i].first] == g || groupOf[portals[i].second] == g
  }

  ghost predicate Grouped(sc: SceneContent, portals: seq<Portal>, groupOf: seq<int>, roomsOf: seq<seq<nat>>) {
    && ValidPortals(portals, |sc.rooms|) && IsGrouping(portals, |sc.rooms|, groupOf, roomsOf)
    && (forall g | 0 <= g < |roomsOf| :: InScene(sc, roomsOf[g]))
  }

  ghost predicate InScene(sc: SceneContent, rooms: seq<nat>) {
    forall i | 0 <= i < |rooms| :: rooms[i] < |sc.rooms|
  }

  ghost predicate IsSignature(sc: SceneContent, portals: seq<Portal>, roomsOf: seq<seq<nat>>, g: nat, s: Signature) {
    g < |roomsOf| && InScene(sc, roomsOf[g]) && s == SignatureOf(sc, portals, roomsOf[g])
  }

  lemma HeldEndIsTouched(portals: seq<Portal>, roomCount: nat, i: nat, groupOf: seq<int>, roomsOf: seq<seq<nat>>, g: nat)
    requires ValidPortals(portals, roomCount) && IsGrouping(portals, roomCount, groupOf, roomsOf) && i < |portals| && g < |roomsOf|
    ensures HoldsEnd(portals, i, groupOf, g) <==> Touches(portals[i], roomsOf[g])
  {
  }

  /** Two groups have equal signatures only if they are the same group. */
  lemma SignaturesDiffer(sc: SceneContent, portals: seq<Portal>, groupOf: seq<int>, roomsOf: seq<seq<nat>>, g: nat, h: nat, s: Signature)
    requires Grouped(sc, portals, groupOf, roomsOf)
    requires IsSignature(sc, portals, roomsOf, g, s) && IsSignature(sc, portals, roomsOf, h, s)
    ensures g == h
  {
    SignatureNamesRooms(sc, portals, roomsOf[g], sc, portals, roomsOf[h]);
    assert groupOf[roomsOf[g][0]] == g && groupOf[roomsOf[h][0]] == h;
  }

  /** A group without either end of the portal is found again, with the same signature. */
  lemma UntouchedGroupSurvives(sc: SceneContent, portals: seq<Portal>, i: nat, state: PortalState, groupOf: seq<int>, roomsOf: seq<seq<nat>>,
                               groupOf': seq<int>, roomsOf': seq<seq<nat>>, g: nat)
    requires i < |portals| && Grouped(sc, portals, groupOf, roomsOf) && Grouped(sc, Toggled(portals, i, state), groupOf', roomsOf')
    requires g < |roomsOf| && !HoldsEnd(portals, i, groupOf, g)
    ensures exists g' :: IsSignature(sc, Toggled(portals, i, state), roomsOf', g', SignatureOf(sc, portals, roomsOf[g]))
  {
    var after, n := Toggled(portals, i, state), |sc.rooms|;
    var x := roomsOf[g][0];
    assert groupOf[x] == g;
    var g' := groupOf'[x];
    forall r: nat
      ensures r in roomsOf[g] <==> r in roomsOf'[g']
    {
      UntouchedComponent(portals, n, i, state, x, r);
      assert r in roomsOf[g] <==> r < n && groupOf[r] == g;
      assert r in roomsOf'[g'] <==> r < n && groupOf'[r] == g';
    }
    AscendingIsUnique(roomsOf[g], roomsOf'[g']);
    HeldEndIsTouched(portals, n, i, groupOf, roomsOf, g);
    UntouchedEntries(sc, portals, after, roomsOf[g], |portals|);
    assert IsSignature(sc, after, roomsOf', g', SignatureOf(sc, portals, roomsOf[g]));
  }

  /** A group holding an end shows the portal's state, so a real change dissolves it. */
  lemma TouchedGroupDissolves(sc: SceneContent, portals: seq<Portal>, i: nat, state: PortalState, groupOf: seq<int>, roomsOf: seq<seq<nat>>,
                              groupOf': seq<int>, roomsOf': seq<seq<nat>>, g: nat, g': nat)
    requires i < |portals| && Grouped(sc, portals, groupOf, roomsOf) && Grouped(sc, Toggled(portals, i, state), groupOf', roomsOf')
    requires g < |roomsOf| && HoldsEnd(portals, i, groupOf, g) && state != portals[i].state
    ensures !IsSignature(sc, Toggled(portals, i, state), roomsOf', g', SignatureOf(sc, portals, roomsOf[g]))
  {
    HeldEndIsTouched(portals, |sc.rooms|, i, groupOf, roomsOf, g);
    if IsSignature(sc, Toggled(portals, i, state), roomsOf', g', SignatureOf(sc, portals, roomsOf[g])) {
      SignatureShowsPortal(sc, portals, roomsOf[g], Toggled(portals, i, state), roomsOf'[g'], i);
    }
  }

  ghost predicate Survives(sc: SceneContent, portals': seq<Portal>, roomsOf': seq<seq<nat>>, s: Signature) {
    exists g' :: IsSignature(sc, portals', roomsOf', g', s)
  }

  /** Toggling one portal changes exactly the signatures of groups holding one of its ends. */
  lemma ToggleIsLocal(sc: SceneContent, portals: seq<Portal>, i: nat, state: PortalState, groupOf: seq<int>, roomsOf: seq<seq<nat>>,
                      groupOf': seq<int>, roomsOf': seq<seq<nat>>, g: nat)
    requires i < |portals| && Grouped(sc, portals, groupOf, roomsOf) && Grouped(sc, Toggled(portals, i, state), groupOf', roomsOf')
    requires g < |roomsOf|
    ensures Survives(sc, Toggled(portals, i, state), roomsOf', SignatureOf(sc, portals, roomsOf[g]))
            <==> state == portals[i].state || !HoldsEnd(portals, i, groupOf, g)
  {
    if !HoldsEnd(portals, i, groupOf, g) {
      UntouchedGroupSurvives(sc, portals, i, state, groupOf, roomsOf, groupOf', roomsOf', g);
    } else if state == portals[i].state {
      assert Toggled(portals, i, state) == portals;
      GroupingIsUnique(portals, |sc.rooms|, groupOf, roomsOf, groupOf', roomsOf');
      assert IsSignature(sc, portals, roomsOf', g, SignatureOf(sc, portals, roomsOf[g]));
    } else {
      forall g'
        ensures !IsSignature(sc, Toggled(portals, i, state), roomsOf', g', SignatureOf(sc, portals, roomsOf[g]))
      {
        TouchedGroupDissolves(sc, portals, i, state, groupOf, roomsOf, groupOf', roomsOf', g, g');
      }
    }
  }

  /** Across an open portal the two ends share a group. */
  lemma OpenPortalJoinsEnds(portals: seq<Portal>, i: nat)
    requires i < |portals| && IsOpen(portals[i])
    ensures Joined(portals, portals[i].first, portals[i].second)
  {
    JoinedRefl(portals, portals[i].first);
    assert Joins(portals[i], portals[i].first, portals[i].second);
    JoinedStep(portals, portals[i].first, portals[i].first, portals[i].second);
  }

  // ---------- The change set ----------

  datatype ChangeSet = ChangeSet(removed: seq<Signature>, added: seq<Signature>, addedGroups: nat, reusedGroups: nat)

  datatype PortalStateChange = PortalStateChange(portalIndex: int, state: PortalState, aperture: real) {
    /** Only a fully open portal merges its rooms; a partly open one keeps the closed topology. */
    function EffectiveState(): PortalState {
      if state == PORTAL_OPEN && aperture < 1.0 then PORTAL_CLOSED else state
    }
  }

  ghost predicate Injective(m: map<nat, Signature>) {
    forall g, h | g in m && h in m && m[g] == m[h] :: g == h
  }

  ghost predicate Holds(m: map<nat, Signature>, s: Signature) {
    exists g :: g in m && m[g] == s
  }

  ghost predicate ListsOnly(list: seq<Signature>, m: map<nat, Signature>, other: map<nat, Signature>) {
    NoRepeats(list) && forall s :: s in list <==> Holds(m, s) && !Holds(other, s)
  }

  /** Splits the signatures of `m`, visited in any order, into those `other` lacks and those it has. */
  method Split(m: map<nat, Signature>, other: map<nat, Signature>) returns (missing: seq<Signature>, shared: nat)
    requires Injective(m)
    ensures ListsOnly(missing, m, other) && |missing| + shared == |m|
  {
    missing, shared := [], 0;
    var keys, values := m.Keys, other.Values;
    while keys != {}
      invariant keys <= m.Keys && NoRepeats(missing)
      invariant forall s :: s in missing <==> !Holds(other, s) && exists g :: g in m && g !in keys && m[g] == s
      invariant |missing| + shared + |keys| == |m|
      decreases |keys|
    {
      var g :| g in keys;
      assert m[g] in values <==> Holds(other, m[g]);
      if m[g] in values {
        shared := shared + 1;
      } else {
        missing := missing + [m[g]];
      }
      keys := keys - {g};
    }
  }

  ghost predicate SignaturesOk(sc: SceneContent, portals: seq<Portal>, roomsOf: seq<seq<nat>>, signatures: map<nat, Signature>) {
    && (forall g: nat :: g in signatures <==> g < |roomsOf|)
    && (forall g: nat | g in signatures :: IsSignature(sc, portals, roomsOf, g, signatures[g]))
  }

  lemma HeldSignatures(sc: SceneContent, portals: seq<Portal>, groupOf: seq<int>, roomsOf: seq<seq<nat>>, signatures: map<nat, Signature>)
    requires Grouped(sc, portals, groupOf, roomsOf) && SignaturesOk(sc, portals, roomsOf, signatures)
    ensures Injective(signatures)
    ensures forall s :: Holds(signatures, s) <==> Survives(sc, portals, roomsOf, s)
  {
    forall g, h | g in signatures && h in signatures && signatures[g] == signatures[h]
      ensures g == h
    {
      SignaturesDiffer(sc, portals, groupOf, roomsOf, g, h, signatures[g]);
    }
    forall s | Survives(sc, portals, roomsOf, s)
      ensures Holds(signatures, s)
    {
      var g: nat :| IsSignature(sc, portals, roomsOf, g, s);
      assert g in signatures && signatures[g] == s;
    }
  }

  /** The signatures a toggle takes away are those of the groups holding an end. */
  lemma LostSignatures(sc: SceneContent, portals: seq<Portal>, i: nat, state: PortalState, groupOf: seq<int>, roomsOf: seq<seq<nat>>,
                       groupOf': seq<int>, roomsOf': seq<seq<nat>>, signatures: map<nat, Signature>, signatures': map<nat, Signature>,
                       lost: seq<Signature>)
    requires i < |portals| && Grouped(sc, portals, groupOf, roomsOf) && Grouped(sc, Toggled(portals, i, state), groupOf', roomsOf')
    requires SignaturesOk(sc, portals, roomsOf, signatures) && SignaturesOk(sc, Toggled(portals, i, state), roomsOf', signatures')
    requires ListsOnly(lost, signatures, signatures')
    ensures |lost| == if state == portals[i].state then 0
                      else if Joined(portals, portals[i].first, portals[i].second) then 1 else 2
  {
    HeldSignatures(sc, portals, groupOf, roomsOf, signatures);
    HeldSignatures(sc, Toggled(portals, i, state), groupOf', roomsOf', signatures');
    var a, b := groupOf[portals[i].first], groupOf[portals[i].second];
    forall g: nat | g in signatures
      ensures signatures[g] in lost <==> state != portals[i].state && (g == a || g == b)
    {
      ToggleIsLocal(sc, portals, i, state, groupOf, roomsOf, groupOf', roomsOf', g);
    }
    assert a in signatures && b in signatures;
    forall s
      ensures s in lost <==> state != portals[i].state && (s == signatures[a] || s == signatures[b])
    {
      if s in lost {
        var g :| g in signatures && signatures[g] == s;
      }
    }
    CountEnds(lost, state != portals[i].state, signatures[a], signatures[b]);
  }

  class Plan {
    const sc: SceneContent
    /** Whether preparing a render succeeds for a portal configuration, apart from the graph. */
    const accepts: seq<Portal> -> bool
    var portals: seq<Portal>
    var groupOf: seq<int>
    var roomsOf: seq<seq<nat>>
    var signatures: map<nat, Signature>

    ghost predicate Valid()
      reads this
    {
      Grouped(sc, portals, groupOf, roomsOf) && SignaturesOk(sc, portals, roomsOf, signatures)
    }

    /** Computes the groups and their signatures for the current portal states. */
    method Prepare() returns (groups: seq<int>, rooms: seq<seq<nat>>, sigs: map<nat, Signature>)
      requires ValidPortals(portals, |sc.rooms|)
      ensures Grouped(sc, portals, groups, rooms) && SignaturesOk(sc, portals, rooms, sigs)
    {
      var graph := new AcousticSceneGraph(|sc.rooms|, portals);
      groups, rooms := graph.groupOfRoom, graph.roomsOfGroup;
      forall g | 0 <= g < |rooms|
        ensures InScene(sc, rooms[g])
      {
      }
      sigs := map[];
      for g := 0 to |rooms|
        invariant forall h: nat :: h in sigs <==> h < g
        invariant forall h: nat | h in sigs :: IsSignature(sc, portals, rooms, h, sigs[h])
      {
        var s := ComputeSignature(sc, portals, rooms[g]);
        sigs := sigs[g := s];
      }
    }

    /** Toggles a portal and rebuilds the plan, or leaves everything as it was. */
    method Apply(change: PortalStateChange) returns (ok: bool, set': ChangeSet)
      requires Valid()
      modifies this
      ensures Valid()
      ensures ok <==> 0 <= change.portalIndex < |old(portals)| &&
                      accepts(Toggled(old(portals), change.portalIndex, change.EffectiveState()))
      ensures !ok ==> portals == old(portals) && groupOf == old(groupOf) && roomsOf == old(roomsOf) && signatures == old(signatures)
      ensures ok ==> portals == Toggled(old(portals), change.portalIndex, change.EffectiveState())
      ensures ok ==> (portals[change.portalIndex].state == "open" <==> change.state == "open" && change.aperture >= 1.0)
      ensures ok && change.state == "open" && change.aperture < 1.0 ==> portals[change.portalIndex].state == "closed"
      ensures ok && change.state != "open" ==> portals[change.portalIndex].state == change.state
      ensures ok ==> ListsOnly(set'.added, signatures, old(signatures)) && ListsOnly(set'.removed, old(signatures), signatures)
      ensures ok ==> set'.addedGroups == |set'.added| && set'.addedGroups + set'.reusedGroups == |signatures|
      ensures ok ==> |set'.removed| == if change.EffectiveState() == old(portals)[change.portalIndex].state then 0
                                       else if Joined(old(portals), portals[change.portalIndex].first, portals[change.portalIndex].second) then 1 else 2
      ensures ok ==> |set'.added| == if change.EffectiveState() == old(portals)[change.portalIndex].state then 0
                                     else if Joined(portals, portals[change.portalIndex].first, portals[change.portalIndex].second) then 1 else 2
      ensures ok && old(portals)[change.portalIndex].state != PORTAL_OPEN == change.EffectiveState() ==>
                |set'.added| == 1 && 1 <= |set'.removed| <= 2
      ensures ok && old(portals)[change.portalIndex].state == PORTAL_OPEN != change.EffectiveState() ==>
                |set'.removed| == 1 && 1 <= |set'.added| <= 2
    {
      ok, set' := false, ChangeSet([], [], 0, 0);
      if change.portalIndex < 0 || change.portalIndex >= |portals| {
        return;
      }
      var i, state := change.portalIndex, change.EffectiveState();
      ghost var before := portals;
      var restore := portals[i].state;
      portals := portals[i := portals[i].(state := state)];
      if !accepts(portals) {
        portals := portals[i := portals[i].(state := restore)];
        ToggleBack(before, i, state);
        return;
      }
      assert portals == Toggled(before, i, state);
      var groups, rooms, sigs := Prepare();
      HeldSignatures(sc, before, groupOf, roomsOf, signatures);
      HeldSignatures(sc, portals, groups, rooms, sigs);
      var added, reused := Split(sigs, signatures);
      var removed, _ := Split(signatures, sigs);
      ToggleBack(before, i, state);
      LostSignatures(sc, before, i, state, groupOf, roomsOf, groups, rooms, signatures, sigs, removed);
      LostSignatures(sc, portals, i, restore, groups, rooms, groupOf, roomsOf, sigs, signatures, added);
      if before[i].state == PORTAL_OPEN {
        OpenPortalJoinsEnds(before, i);
      }
      if state == PORTAL_OPEN {
        OpenPortalJoinsEnds(portals, i);
      }
      groupOf, roomsOf, signatures := groups, rooms, sigs;
      ok, set' := true, ChangeSet(removed, added, |added|, reused);
    }
  }
}
