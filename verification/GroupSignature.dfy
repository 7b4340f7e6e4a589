/** Room-group signatures as the content they hash (scene/group_signature.go): a group's
    rooms with their materials, and every portal touching one of them, with its state. */
module GroupSignature {
  import opened Vectors
  import opened Portals

  datatype Room = Room(kind: string, geometry: seq<Vec3>, materials: seq<string>)

  datatype SceneContent = SceneContent(rooms: seq<Room>, materials: map<string, seq<real>>)

  datatype RoomEntry = RoomEntry(index: nat, room: Room, coefficients: seq<seq<real>>)

  datatype PortalEntry = PortalEntry(index: nat, portal: Portal, coefficients: seq<real>)

  datatype Signature = Signature(rooms: seq<RoomEntry>, portals: seq<PortalEntry>)

  function MaterialOf(sc: SceneContent, name: string): seq<real> {
    if name in sc.materials then sc.materials[name] else []
  }

  function RoomEntryOf(sc: SceneContent, r: nat): RoomEntry
    requires r < |sc.rooms|
  {
    var names := sc.rooms[r].materials;
    RoomEntry(r, sc.rooms[r], seq(|names|, i requires 0 <= i < |names| => MaterialOf(sc, names[i])))
  }

  predicate Touches(p: Portal, rooms: seq<nat>) {
    p.first in rooms || p.second in rooms
  }

  /** The entries of the portals below `n` that touch one of `rooms`, in index order. */
  function PortalEntries(sc: SceneContent, portals: seq<Portal>, rooms: seq<nat>, n: nat): seq<PortalEntry>
    requires n <= |portals|
  {
    if n == 0 then []
    else
      PortalEntries(sc, portals, rooms, n - 1)
      + if Touches(portals[n - 1], rooms) then [PortalEntry(n - 1, portals[n - 1], MaterialOf(sc, portals[n - 1].material))] else []
  }

  function SignatureOf(sc: SceneContent, portals: seq<Portal>, rooms: seq<nat>): Signature
    requires forall i | 0 <= i < |rooms| :: rooms[i] < |sc.rooms|
  {
    Signature(seq(|rooms|, i requires 0 <= i < |rooms| => RoomEntryOf(sc, rooms[i])), PortalEntries(sc, portals, rooms, |portals|))
  }

  /** Writes a group's content entry by entry, as the hash writer does. */
  method ComputeSignature(sc: SceneContent, portals: seq<Portal>, rooms: seq<nat>) returns (s: Signature)
    requires forall i | 0 <= i < |rooms| :: rooms[i] < |sc.rooms|
    ensures s == SignatureOf(sc, portals, rooms)
  {
    var entries := [];
    for k := 0 to |rooms|
      invariant |entries| == k && forall i | 0 <= i < k :: entries[i] == RoomEntryOf(sc, rooms[i])
    {
      entries := entries + [RoomEntryOf(sc, rooms[k])];
    }
    var touching := [];
    for k := 0 to |portals|
      invariant touching == PortalEntries(sc, portals, rooms, k)
    {
      if Touches(portals[k], rooms) {
        touching := touching + [PortalEntry(k, portals[k], MaterialOf(sc, portals[k].material))];
      }
    }
    s := Signature(entries, touching);
    assert s.rooms == SignatureOf(sc, portals, rooms).rooms;
  }

  // ---------- What a signature tells ----------

  /** Equal signatures name the same rooms. */
  lemma SignatureNamesRooms(sc: SceneContent, portals: seq<Portal>, rooms: seq<nat>, sc': SceneContent, portals': seq<Portal>, rooms': seq<nat>)
    requires forall i | 0 <= i < |rooms| :: rooms[i] < |sc.rooms|
    requires forall i | 0 <= i < |rooms'| :: rooms'[i] < |sc'.rooms|
    requires SignatureOf(sc, portals, rooms) == SignatureOf(sc', portals', rooms')
    ensures rooms == rooms'
  {
    var a, b := SignatureOf(sc, portals, rooms).rooms, SignatureOf(sc', portals', rooms').rooms;
    assert |a| == |rooms| && |b| == |rooms'|;
    forall i | 0 <= i < |rooms|
      ensures rooms[i] == rooms'[i]
    {
      assert a[i].index == rooms[i] && b[i].index == rooms'[i];
    }
  }

  lemma {:induction false} EntriesOfPortal(sc: SceneContent, portals: seq<Portal>, rooms: seq<nat>, n: nat, i: nat)
    requires n <= |portals| && i < |portals|
    ensures forall e | e in PortalEntries(sc, portals, rooms, n) && e.index == i :: e.portal == portals[i]
    ensures i < n && Touches(portals[i], rooms) ==>
            PortalEntry(i, portals[i], MaterialOf(sc, portals[i].material)) in PortalEntries(sc, portals, rooms, n)
  {
    if n > 0 {
      EntriesOfPortal(sc, portals, rooms, n - 1, i);
    }
  }

  /** A group touching a portal shows that portal's state. */
  lemma SignatureShowsPortal(sc: SceneContent, portals: seq<Portal>, rooms: seq<nat>, portals': seq<Portal>, rooms': seq<nat>, i: nat)
    requires forall k | 0 <= k < |rooms| :: rooms[k] < |sc.rooms|
    requires forall k | 0 <= k < |rooms'| :: rooms'[k] < |sc.rooms|
    requires i < |portals| == |portals'| && Touches(portals[i], rooms)
    requires SignatureOf(sc, portals, rooms) == SignatureOf(sc, portals', rooms')
    ensures portals[i] == portals'[i]
  {
    EntriesOfPortal(sc, portals, rooms, |portals|, i);
    EntriesOfPortal(sc, portals', rooms', |portals'|, i);
  }

  /** A group that does not touch the changed portal keeps its signature. */
  lemma {:induction false} UntouchedEntries(sc: SceneContent, portals: seq<Portal>, portals': seq<Portal>, rooms: seq<nat>, n: nat)
    requires n <= |portals| == |portals'|
    requires forall i | 0 <= i < |portals| :: portals[i] == portals'[i] || (!Touches(portals[i], rooms) && !Touches(portals'[i], rooms))
    ensures PortalEntries(sc, portals, rooms, n) == PortalEntries(sc, portals', rooms, n)
  {
    if n > 0 {
      UntouchedEntries(sc, portals, portals', rooms, n - 1);
    }
  }

  // ---------- What equal signatures mean ----------

  /** Both scenes give the material the same coefficients; an unknown material has none. */
  ghost predicate SameMaterial(sc: SceneContent, sc': SceneContent, name: string) {
    && (name in sc.materials && sc.materials[name] != [] ==> name in sc'.materials && sc'.materials[name] == sc.materials[name])
    && (name in sc'.materials && sc'.materials[name] != [] ==> name in sc.materials && sc.materials[name] == sc'.materials[name])
  }

  /** The portal is one of the first `n` and leads into one of the rooms. */
  ghost predicate LeadsInto(portals: seq<Portal>, n: nat, rooms: seq<nat>, i: nat) {
    i < n <= |portals| && exists k :: 0 <= k < |rooms| && (portals[i].first == rooms[k] || portals[i].second == rooms[k])
  }

  ghost predicate SameRoom(sc: SceneContent, sc': SceneContent, r: nat) {
    && r < |sc.rooms| && r < |sc'.rooms| && sc.rooms[r] == sc'.rooms[r]
    && forall m | 0 <= m < |sc.rooms[r].materials| :: SameMaterial(sc, sc', sc.rooms[r].materials[m])
  }

  ghost predicate SamePortal(sc: SceneContent, sc': SceneContent, portals: seq<Portal>, n: nat, portals': seq<Portal>, n': nat,
                             rooms: seq<nat>, i: nat) {
    && (LeadsInto(portals, n, rooms, i) <==> LeadsInto(portals', n', rooms, i))
    && (LeadsInto(portals, n, rooms, i) && LeadsInto(portals', n', rooms, i) ==>
          portals[i] == portals'[i] && SameMaterial(sc, sc', portals[i].material))
  }

  /** The two groups have the same rooms, bounded by the same portals, all of the same materials. */
  ghost predicate SameGroup(sc: SceneContent, sc': SceneContent, portals: seq<Portal>, portals': seq<Portal>, rooms: seq<nat>, rooms': seq<nat>) {
    && rooms == rooms'
    && (forall i | 0 <= i < |rooms| :: SameRoom(sc, sc', rooms[i]))
    && (forall i: nat :: SamePortal(sc, sc', portals, |portals|, portals', |portals'|, rooms, i))
  }

  lemma MaterialsShow(sc: SceneContent, sc': SceneContent, name: string)
    ensures MaterialOf(sc, name) == MaterialOf(sc', name) <==> SameMaterial(sc, sc', name)
  {
  }

  lemma RoomsShow(sc: SceneContent, sc': SceneContent, r: nat)
    requires r < |sc.rooms| && r < |sc'.rooms|
    ensures RoomEntryOf(sc, r) == RoomEntryOf(sc', r) <==> SameRoom(sc, sc', r)
  {
    hide MaterialOf;
    var a, b := RoomEntryOf(sc, r), RoomEntryOf(sc', r);
    if a.room == b.room {
      var names := a.room.materials;
      forall m | 0 <= m < |names|
        ensures a.coefficients[m] == b.coefficients[m] <==> SameMaterial(sc, sc', names[m])
      {
        MaterialsShow(sc, sc', names[m]);
      }
      assert |a.coefficients| == |names| == |b.coefficients|;
      assert a == b <==> forall m | 0 <= m < |names| :: a.coefficients[m] == b.coefficients[m];
    }
  }

  lemma TouchingLeadsInto(portals: seq<Portal>, n: nat, rooms: seq<nat>, i: nat)
    requires i < n <= |portals|
    ensures Touches(portals[i], rooms) <==> LeadsInto(portals, n, rooms, i)
  {
  }

  lemma {:induction false} PortalsShow(sc: SceneContent, sc': SceneContent, portals: seq<Portal>, n: nat, portals': seq<Portal>, n': nat, rooms: seq<nat>)
    requires n <= |portals| && n' <= |portals'|
    requires forall i: nat :: SamePortal(sc, sc', portals, n, portals', n', rooms, i)
    ensures PortalEntries(sc, portals, rooms, n) == PortalEntries(sc', portals', rooms, n')
    decreases n + n'
  {
    hide MaterialOf, Touches, SameMaterial, SamePortal, LeadsInto;
    var m, m' := n - 1, n' - 1;
    if n > 0 && !Touches(portals[m], rooms) {
      forall i: nat
        ensures SamePortal(sc, sc', portals, m, portals', n', rooms, i)
      {
        ForgetLast(sc, sc', portals, n, portals', n', rooms, i);
      }
      PortalsShow(sc, sc', portals, m, portals', n', rooms);
    } else if n' > 0 && !Touches(portals'[m'], rooms) {
      forall i: nat
        ensures SamePortal(sc, sc', portals, n, portals', m', rooms, i)
      {
        ForgetLast(sc', sc, portals', n', portals, n, rooms, i);
        Turned(sc, sc', portals, n, portals', n', rooms, i);
        Turned(sc', sc, portals', m', portals, n, rooms, i);
      }
      PortalsShow(sc, sc', portals, n, portals', m', rooms);
    } else if n > 0 || n' > 0 {
      LastsMatch(sc, sc', portals, n, portals', n', rooms);
      forall i: nat
        ensures SamePortal(sc, sc', portals, m, portals', m', rooms, i)
      {
        ForgetBoth(sc, sc', portals, n, portals', n', rooms, i);
      }
      PortalsShow(sc, sc', portals, m, portals', m', rooms);
    }
  }

  lemma Turned(sc: SceneContent, sc': SceneContent, portals: seq<Portal>, n: nat, portals': seq<Portal>, n': nat, rooms: seq<nat>, i: nat)
    ensures SamePortal(sc, sc', portals, n, portals', n', rooms, i) <==> SamePortal(sc', sc, portals', n', portals, n, rooms, i)
  {
  }

  lemma ForgetLast(sc: SceneContent, sc': SceneContent, portals: seq<Portal>, n: nat, portals': seq<Portal>, n': nat, rooms: seq<nat>, i: nat)
    requires 0 < n <= |portals| && !Touches(portals[n - 1], rooms)
    ensures SamePortal(sc, sc', portals, n, portals', n', rooms, i) <==> SamePortal(sc, sc', portals, n - 1, portals', n', rooms, i)
  {
    hide SameMaterial;
    assert LeadsInto(portals, n, rooms, i) <==> LeadsInto(portals, n - 1, rooms, i);
  }

  lemma LastsMatch(sc: SceneContent, sc': SceneContent, portals: seq<Portal>, n: nat, portals': seq<Portal>, n': nat, rooms: seq<nat>)
    requires n <= |portals| && n' <= |portals'| && (n > 0 || n' > 0)
    requires (n > 0 ==> Touches(portals[n - 1], rooms)) && (n' > 0 ==> Touches(portals'[n' - 1], rooms))
    requires forall i: nat :: SamePortal(sc, sc', portals, n, portals', n', rooms, i)
    ensures n == n' && portals[n - 1] == portals'[n' - 1]
    ensures MaterialOf(sc, portals[n - 1].material) == MaterialOf(sc', portals'[n' - 1].material)
  {
    hide MaterialOf, SameMaterial;
    if n > 0 {
      assert SamePortal(sc, sc', portals, n, portals', n', rooms, n - 1);
      TouchingLeadsInto(portals, n, rooms, n - 1);
    }
    if n' > 0 {
      assert SamePortal(sc, sc', portals, n, portals', n', rooms, n' - 1);
      TouchingLeadsInto(portals', n', rooms, n' - 1);
    }
    MaterialsShow(sc, sc', portals[n - 1].material);
  }

  lemma ForgetBoth(sc: SceneContent, sc': SceneContent, portals: seq<Portal>, n: nat, portals': seq<Portal>, n': nat, rooms: seq<nat>, i: nat)
    requires 0 < n <= |portals| && n == n' <= |portals'| && SamePortal(sc, sc', portals, n, portals', n', rooms, i)
    ensures SamePortal(sc, sc', portals, n - 1, portals', n' - 1, rooms, i)
  {
    hide SameMaterial;
    assert i < n - 1 ==> (LeadsInto(portals, n, rooms, i) <==> LeadsInto(portals, n - 1, rooms, i));
    assert i < n - 1 ==> (LeadsInto(portals', n', rooms, i) <==> LeadsInto(portals', n' - 1, rooms, i));
  }

  /** A list of entries shows which portals lead into the rooms, and their materials. */
  lemma {:induction false} EntriesShow(sc: SceneContent, portals: seq<Portal>, rooms: seq<nat>, n: nat, e: PortalEntry)
    requires n <= |portals|
    ensures e in PortalEntries(sc, portals, rooms, n) <==>
            LeadsInto(portals, n, rooms, e.index) && e.portal == portals[e.index] && e.coefficients == MaterialOf(sc, e.portal.material)
  {
    hide MaterialOf;
    if n > 0 {
      EntriesShow(sc, portals, rooms, n - 1, e);
      TouchingLeadsInto(portals, n, rooms, n - 1);
    }
  }

  lemma PortalShown(sc: SceneContent, sc': SceneContent, portals: seq<Portal>, portals': seq<Portal>, rooms: seq<nat>, i: nat)
    requires PortalEntries(sc, portals, rooms, |portals|) == PortalEntries(sc', portals', rooms, |portals'|)
    ensures LeadsInto(portals, |portals|, rooms, i) ==>
            LeadsInto(portals', |portals'|, rooms, i) && portals[i] == portals'[i] && SameMaterial(sc, sc', portals[i].material)
  {
    hide PortalEntries, SameMaterial, MaterialOf;
    if LeadsInto(portals, |portals|, rooms, i) {
      var e := PortalEntry(i, portals[i], MaterialOf(sc, portals[i].material));
      EntriesShow(sc, portals, rooms, |portals|, e);
      EntriesShow(sc', portals', rooms, |portals'|, e);
      MaterialsShow(sc, sc', portals[i].material);
    }
  }

  /** Two groups have one signature if and only if nothing that shapes their sound differs. */
  lemma SignatureIsContent(sc: SceneContent, portals: seq<Portal>, rooms: seq<nat>, sc': SceneContent, portals': seq<Portal>, rooms': seq<nat>)
    requires forall i | 0 <= i < |rooms| :: rooms[i] < |sc.rooms|
    requires forall i | 0 <= i < |rooms'| :: rooms'[i] < |sc'.rooms|
    ensures SignatureOf(sc, portals, rooms) == SignatureOf(sc', portals', rooms') <==> SameGroup(sc, sc', portals, portals', rooms, rooms')
  {
    hide RoomEntryOf, PortalEntries, SameRoom, SamePortal;
    var a, b := SignatureOf(sc, portals, rooms), SignatureOf(sc', portals', rooms');
    if a == b {
      SignatureNamesRooms(sc, portals, rooms, sc', portals', rooms');
      forall i | 0 <= i < |rooms|
        ensures SameRoom(sc, sc', rooms[i])
      {
        assert a.rooms[i] == b.rooms[i];
        RoomsShow(sc, sc', rooms[i]);
      }
      forall i: nat
        ensures SamePortal(sc, sc', portals, |portals|, portals', |portals'|, rooms, i)
      {
        PortalShownBothWays(sc, sc', portals, portals', rooms, i);
      }
    }
    if SameGroup(sc, sc', portals, portals', rooms, rooms') {
      forall i | 0 <= i < |rooms|
        ensures a.rooms[i] == b.rooms[i]
      {
        assert SameRoom(sc, sc', rooms[i]);
        RoomsShow(sc, sc', rooms[i]);
      }
      assert a.rooms == b.rooms;
      PortalsShow(sc, sc', portals, |portals|, portals', |portals'|, rooms);
    }
  }

  lemma PortalShownBothWays(sc: SceneContent, sc': SceneContent, portals: seq<Portal>, portals': seq<Portal>, rooms: seq<nat>, i: nat)
    requires PortalEntries(sc, portals, rooms, |portals|) == PortalEntries(sc', portals', rooms, |portals'|)
    ensures SamePortal(sc, sc', portals, |portals|, portals', |portals'|, rooms, i)
  {
    hide PortalEntries, SameMaterial, LeadsInto;
    PortalShown(sc, sc', portals, portals', rooms, i);
    PortalShown(sc', sc, portals', portals, rooms, i);
  }
}
