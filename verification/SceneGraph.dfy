/** The acoustic scene graph: rooms are nodes, portals are edges, and rooms joined by open
    portals collapse into room groups (scene/graph.go). */
module SceneGraph {
  import opened Portals
  import opened Sorting
  import opened Wrappers

  const NO_GROUP: int := -1

  // ---------- What a grouping is ----------

  ghost predicate Ascending(s: seq<nat>) {
    forall i, j | 0 <= i < j < |s| :: s[i] < s[j]
  }

  /** Groups are the connected components of open portals, numbered by lowest room. */
  ghost predicate IsGrouping(portals: seq<Portal>, roomCount: nat, groupOf: seq<int>, roomsOf: seq<seq<nat>>) {
    && |groupOf| == roomCount
    && (forall r | 0 <= r < roomCount :: 0 <= groupOf[r] < |roomsOf|)
    && (forall a, b | 0 <= a < roomCount && 0 <= b < roomCount :: groupOf[a] == groupOf[b] <==> Joined(portals, a, b))
    && ListsRooms(groupOf, roomsOf)
    && (forall g, h | 0 <= g < h < |roomsOf| :: roomsOf[g][0] < roomsOf[h][0])
  }

  /** Each group lists exactly its rooms, in ascending order. */
  ghost predicate ListsRooms(groupOf: seq<int>, roomsOf: seq<seq<nat>>) {
    && (forall g | 0 <= g < |roomsOf| :: roomsOf[g] != [] && Ascending(roomsOf[g]))
    && (forall g, i | 0 <= g < |roomsOf| && 0 <= i < |roomsOf[g]| ::
          roomsOf[g][i] < |groupOf| && groupOf[roomsOf[g][i]] == g)
    && (forall r | 0 <= r < |groupOf| && 0 <= groupOf[r] < |roomsOf| :: r in roomsOf[groupOf[r]])
  }

  /** The lowest room of a group is the lowest room outside the earlier groups. */
  lemma LowestRoom(portals: seq<Portal>, roomCount: nat, groupOf: seq<int>, roomsOf: seq<seq<nat>>, g: nat, r: nat)
    requires IsGrouping(portals, roomCount, groupOf, roomsOf) && g < |roomsOf|
    requires r < roomCount && groupOf[r] >= g
    ensures roomsOf[g][0] <= r
  {
    var h := groupOf[r];
    var i :| 0 <= i < |roomsOf[h]| && roomsOf[h][i] == r;
    assert roomsOf[h][0] <= r;
  }

  /** The labelling is determined by the portals: identifiers are stable for a given
      portal configuration. */
  lemma {:induction false} GroupingIsUnique(portals: seq<Portal>, roomCount: nat, groupOf1: seq<int>, roomsOf1: seq<seq<nat>>,
                                            groupOf2: seq<int>, roomsOf2: seq<seq<nat>>)
    requires IsGrouping(portals, roomCount, groupOf1, roomsOf1)
    requires IsGrouping(portals, roomCount, groupOf2, roomsOf2)
    ensures groupOf1 == groupOf2 && roomsOf1 == roomsOf2
  {
    var n := if |roomsOf1| < |roomsOf2| then |roomsOf1| else |roomsOf2|;
    assert n < |roomsOf1| ==> groupOf1[roomsOf1[n][0]] == n;
    assert n < |roomsOf2| ==> groupOf2[roomsOf2[n][0]] == n;
    LabelsAgreeBelow(portals, roomCount, groupOf1, roomsOf1, groupOf2, roomsOf2, n);
    forall g | 0 <= g < |roomsOf1|
      ensures roomsOf1[g] == roomsOf2[g]
    {
      assert forall r: nat :: r in roomsOf1[g] <==> r in roomsOf2[g];
      AscendingIsUnique(roomsOf1[g], roomsOf2[g]);
    }
  }

  lemma {:induction false} AscendingIsUnique(a: seq<nat>, b: seq<nat>)
    requires Ascending(a) && Ascending(b) && forall x: nat :: x in a <==> x in b
    ensures a == b
    decreases |a|
  {
    assert b != [] ==> b[0] in b;
    if a != [] {
      assert a[0] in b && b[0] in a;
      assert a[0] == b[0];
      forall x: nat
        ensures x in a[1..] <==> x in b[1..]
      {
        assert x in a <==> x == a[0] || x in a[1..];
        assert x in b <==> x == b[0] || x in b[1..];
      }
      AscendingIsUnique(a[1..], b[1..]);
      assert a == [a[0]] + a[1..] && b == [b[0]] + b[1..];
    }
  }

  lemma {:induction false} LabelsAgreeBelow(portals: seq<Portal>, roomCount: nat, groupOf1: seq<int>, roomsOf1: seq<seq<nat>>,
                                            groupOf2: seq<int>, roomsOf2: seq<seq<nat>>, g: nat)
    requires IsGrouping(portals, roomCount, groupOf1, roomsOf1)
    requires IsGrouping(portals, roomCount, groupOf2, roomsOf2)
    requires g <= |roomsOf1| && g <= |roomsOf2|
    ensures forall r | 0 <= r < roomCount && (groupOf1[r] < g || groupOf2[r] < g) :: groupOf1[r] == groupOf2[r]
  {
    hide IsGrouping;
    Labelled(portals, roomCount, groupOf1, roomsOf1);
    Labelled(portals, roomCount, groupOf2, roomsOf2);
    if g > 0 {
      var h := g - 1;
      LabelsAgreeBelow(portals, roomCount, groupOf1, roomsOf1, groupOf2, roomsOf2, h);
      var m1, m2 := roomsOf1[h][0], roomsOf2[h][0];
      LowestRoom(portals, roomCount, groupOf1, roomsOf1, h, m2);
      LowestRoom(portals, roomCount, groupOf2, roomsOf2, h, m1);
      forall r | 0 <= r < roomCount && (groupOf1[r] == h || groupOf2[r] == h)
        ensures groupOf1[r] == groupOf2[r]
      {
        SameCompany(portals, roomCount, groupOf1, roomsOf1, groupOf2, roomsOf2, r, m1);
      }
    }
  }

  lemma Labelled(portals: seq<Portal>, roomCount: nat, groupOf: seq<int>, roomsOf: seq<seq<nat>>)
    requires IsGrouping(portals, roomCount, groupOf, roomsOf)
    ensures |groupOf| == roomCount && forall r | 0 <= r < roomCount :: 0 <= groupOf[r] < |roomsOf|
    ensures forall g | 0 <= g < |roomsOf| :: roomsOf[g] != [] && roomsOf[g][0] < roomCount && groupOf[roomsOf[g][0]] == g
  {
  }

  lemma SameCompany(portals: seq<Portal>, roomCount: nat, groupOf1: seq<int>, roomsOf1: seq<seq<nat>>,
                    groupOf2: seq<int>, roomsOf2: seq<seq<nat>>, a: nat, b: nat)
    requires IsGrouping(portals, roomCount, groupOf1, roomsOf1)
    requires IsGrouping(portals, roomCount, groupOf2, roomsOf2)
    requires a < roomCount && b < roomCount
    ensures groupOf1[a] == groupOf1[b] <==> groupOf2[a] == groupOf2[b]
  {
    assert groupOf1[a] == groupOf1[b] <==> Joined(portals, a, b);
  }

  // ---------- Portal views ----------

  function ForwardView(i: nat, p: Portal): PortalView {
    PortalView(i, p.first, p.second, false)
  }

  /** `incident[r]` holds the two outward views of the portals: one per end lying in `r`. */
  ghost predicate IncidentOk(portals: seq<Portal>, roomCount: nat, incident: seq<seq<PortalView>>) {
    && |incident| == roomCount
    && (forall r, k | 0 <= r < roomCount && 0 <= k < |incident[r]| :: IsOutwardView(portals, r, incident[r][k]))
    && (forall i | 0 <= i < |portals| && portals[i].first < roomCount && portals[i].second < roomCount ::
          && PortalView(i, portals[i].first, portals[i].second, false) in incident[portals[i].first]
          && PortalView(i, portals[i].second, portals[i].first, true) in incident[portals[i].second])
    && (forall r | 0 <= r < roomCount :: forall k, l | 0 <= k < l < |incident[r]| :: incident[r][k] != incident[r][l])
  }

  ghost predicate IsOutwardView(portals: seq<Portal>, r: nat, v: PortalView) {
    && v.portalIndex < |portals| && v.fromRoom == r
    && var p := portals[v.portalIndex];
       if v.reversed then v.fromRoom == p.second && v.toRoom == p.first else v.fromRoom == p.first && v.toRoom == p.second
  }

  ghost predicate OpensTo(portals: seq<Portal>, views: seq<PortalView>, k: nat, s: nat) {
    k < |views| && views[k].portalIndex < |portals| && IsOpen(portals[views[k].portalIndex]) && views[k].toRoom == s
  }

  /** The open portals among `views` lead exactly to the rooms `r` is openly linked to. */
  ghost predicate ViewsOf(portals: seq<Portal>, roomCount: nat, r: nat, views: seq<PortalView>) {
    && (forall k | 0 <= k < |views| :: views[k].portalIndex < |portals| && views[k].toRoom < roomCount)
    && (forall s: nat :: OpenLink(portals, r, s) <==> exists k :: OpensTo(portals, views, k, s))
  }

  lemma IncidentViews(portals: seq<Portal>, roomCount: nat, incident: seq<seq<PortalView>>, r: nat)
    requires ValidPortals(portals, roomCount) && IncidentOk(portals, roomCount, incident) && r < roomCount
    ensures ViewsOf(portals, roomCount, r, incident[r])
  {
    forall k | 0 <= k < |incident[r]|
      ensures incident[r][k].portalIndex < |portals| && incident[r][k].toRoom < roomCount
    {
      assert IsOutwardView(portals, r, incident[r][k]);
    }
    forall s: nat
      ensures OpenLink(portals, r, s) <==> exists k :: OpensTo(portals, incident[r], k, s)
    {
      if OpenLink(portals, r, s) {
        var i :| 0 <= i < |portals| && IsOpen(portals[i]) && Joins(portals[i], r, s);
        var v := if portals[i].first == r && portals[i].second == s then ForwardView(i, portals[i]) else ForwardView(i, portals[i]).Counter();
        var k :| 0 <= k < |incident[r]| && incident[r][k] == v;
        assert OpensTo(portals, incident[r], k, s);
      }
      if k: nat :| OpensTo(portals, incident[r], k, s) {
        assert IsOutwardView(portals, r, incident[r][k]);
        assert Joins(portals[incident[r][k].portalIndex], r, s);
      }
    }
  }

  lemma OutwardViews(portals: seq<Portal>, roomCount: nat, incident: seq<seq<PortalView>>, r: nat)
    requires ValidPortals(portals, roomCount) && IncidentOk(portals, roomCount, incident) && r < roomCount
    ensures forall k | 0 <= k < |incident[r]| ::
              incident[r][k].portalIndex < |portals| && incident[r][k].toRoom < roomCount && IsOutwardView(portals, r, incident[r][k])
    ensures forall v: PortalView | IsOutwardView(portals, r, v) :: v in incident[r]
  {
  }

  /** One forward and one reversed view per portal, filed under the room each looks out of. */
  method BuildIncident(roomCount: nat, portals: seq<Portal>) returns (incident: seq<seq<PortalView>>)
    requires ValidPortals(portals, roomCount)
    ensures IncidentOk(portals, roomCount, incident)
  {
    incident := seq(roomCount, _ => []);
    for i := 0 to |portals|
      invariant IncidentOk(portals[..i], roomCount, incident)
    {
      IncidentGrows(portals, roomCount, incident, i);
      var first, second := portals[i].first, portals[i].second;
      incident := incident[first := incident[first] + [ForwardView(i, portals[i])]];
      incident := incident[second := incident[second] + [ForwardView(i, portals[i]).Counter()]];
    }
    assert portals[..|portals|] == portals;
  }

  lemma IncidentGrows(portals: seq<Portal>, roomCount: nat, incident: seq<seq<PortalView>>, i: nat)
    requires ValidPortals(portals, roomCount) && i < |portals| && IncidentOk(portals[..i], roomCount, incident)
    ensures var v := ForwardView(i, portals[i]);
            var one := incident[v.fromRoom := incident[v.fromRoom] + [v]];
            IncidentOk(portals[..i + 1], roomCount, one[v.toRoom := one[v.toRoom] + [v.Counter()]])
  {
    var v := ForwardView(i, portals[i]);
    var one := incident[v.fromRoom := incident[v.fromRoom] + [v]];
    var two := one[v.toRoom := one[v.toRoom] + [v.Counter()]];
    forall r, k | 0 <= r < roomCount && 0 <= k < |two[r]|
      ensures IsOutwardView(portals[..i + 1], r, two[r][k])
      ensures two[r][k].portalIndex < i <==> k < |incident[r]|
    {
      if k < |incident[r]| {
        assert IsOutwardView(portals[..i], r, incident[r][k]);
      }
    }
    forall j | 0 <= j < i + 1
      ensures ForwardView(j, portals[j]) in two[portals[j].first] && ForwardView(j, portals[j]).Counter() in two[portals[j].second]
    {
      if j < i {
        assert portals[..i][j] == portals[j];
      }
    }
  }

  // ---------- Sorting the members of a group ----------

  lemma SwapKeepsElements(s: seq<nat>, j: nat)
    requires 0 < j < |s|
    ensures multiset(s[j - 1 := s[j]][j := s[j - 1]]) == multiset(s)
  {
    var a, x, y, c := s[..j - 1], [s[j - 1]], [s[j]], s[j + 1..];
    assert s == a + (x + y) + c;
    assert s[j - 1 := s[j]][j := s[j - 1]] == a + (y + x) + c;
    assert multiset(x + y) == multiset(y + x);
    MultisetOfThree(a, x + y, c);
    MultisetOfThree(a, y + x, c);
  }

  lemma MultisetOfThree(a: seq<nat>, b: seq<nat>, c: seq<nat>)
    ensures multiset(a + b + c) == multiset(a) + multiset(b) + multiset(c)
  {
  }

  /** One pass of the insertion sort: sinks `s[i]` into the ascending prefix before it. */
  method Sink(s: seq<nat>, i: nat) returns (r: seq<nat>)
    requires i < |s| && (forall a, b | 0 <= a < b < i :: s[a] < s[b]) && (forall a | 0 <= a < i :: s[a] != s[i])
    ensures |r| == |s| && multiset(r) == multiset(s)
    ensures forall a, b | 0 <= a < b <= i :: r[a] < r[b]
    ensures forall a | i < a < |s| :: r[a] == s[a]
  {
    r := s;
    var j := i;
    while j > 0 && r[j - 1] > r[j]
      invariant 0 <= j <= i < |r| == |s| && multiset(r) == multiset(s)
      invariant r[j] == s[i]
      invariant forall a | 0 <= a < j || i < a < |s| :: r[a] == s[a]
      invariant forall a | j < a <= i :: r[a] == s[a - 1] && s[i] < r[a]
    {
      SwapKeepsElements(r, j);
      r := r[j - 1 := r[j]][j := r[j - 1]];
      j := j - 1;
    }
  }

  /** The insertion sort applied to a group's members. */
  method SortRooms(rooms: seq<nat>) returns (sorted: seq<nat>)
    requires forall a, b | 0 <= a < b < |rooms| :: rooms[a] != rooms[b]
    ensures Ascending(sorted) && multiset(sorted) == multiset(rooms)
  {
    sorted := rooms;
    if |rooms| == 0 {
      return;
    }
    for i := 1 to |rooms|
      invariant |sorted| == |rooms| && multiset(sorted) == multiset(rooms)
      invariant forall a, b | 0 <= a < b < i && b < |sorted| :: sorted[a] < sorted[b]
      invariant forall a | i <= a < |sorted| :: sorted[a] == rooms[a]
    {
      NotBefore(sorted, rooms, i);
      sorted := Sink(sorted, i);
    }
  }

  lemma NotBefore(s: seq<nat>, t: seq<nat>, i: nat)
    requires |s| == |t| && i < |s| && multiset(s) == multiset(t) && forall a | i <= a < |s| :: s[a] == t[a]
    requires forall a, b | 0 <= a < b < |t| :: t[a] != t[b]
    ensures forall a | 0 <= a < i :: s[a] != s[i]
  {
    assert s == s[..i] + s[i..] && t == t[..i] + t[i..] && s[i..] == t[i..];
    assert multiset(s)[t[i]] == multiset(s[..i])[t[i]] + multiset(s[i..])[t[i]];
    assert multiset(t)[t[i]] == multiset(t[..i])[t[i]] + multiset(t[i..])[t[i]];
    assert t[i] !in t[..i];
    assert t[i] !in multiset(t[..i]);
    assert t[i] !in multiset(s[..i]);
    assert forall a | 0 <= a < i :: s[a] == s[..i][a] && s[..i][a] in multiset(s[..i]);
  }

  // ---------- Computing the groups ----------

  /** Open portals do not leave a labelled set of rooms. */
  ghost predicate ClosedLabels(portals: seq<Portal>, labels: seq<int>) {
    forall r: nat, s: nat | r < |labels| && s < |labels| && labels[r] != NO_GROUP && OpenLink(portals, r, s) :: labels[s] == labels[r]
  }

  ghost function Unlabelled(labels: seq<int>): set<nat> {
    set r: nat | r < |labels| && labels[r] == NO_GROUP
  }

  /** The labels while the group of `start` is being collected: earlier labels stay, and
      the members found so far are joined to `start`. */
  ghost predicate Collecting(portals: seq<Portal>, before: seq<int>, labels: seq<int>, start: nat, id: int, members: seq<nat>) {
    && |labels| == |before| && start < |labels| && labels[start] == id
    && (forall r | 0 <= r < |labels| :: labels[r] == before[r] || (before[r] == NO_GROUP && labels[r] == id))
    && (forall r: nat | r < |labels| && labels[r] == id :: Joined(portals, start, r))
    && (forall i, j | 0 <= i < j < |members| :: members[i] != members[j])
    && (forall i | 0 <= i < |members| :: members[i] < |labels| && labels[members[i]] == id)
    && (forall r: nat | r < |labels| && labels[r] == id :: r in members)
  }

  /** Every member outside the queue, except `room`, has all its open neighbours labelled. */
  ghost predicate Explored(portals: seq<Portal>, labels: seq<int>, id: int, queue: seq<nat>, room: int) {
    forall r: nat, s: nat | r < |labels| && s < |labels| && labels[r] == id && r !in queue && r != room && OpenLink(portals, r, s) ::
      labels[s] == id
  }

  lemma CollectedAll(portals: seq<Portal>, roomCount: nat, before: seq<int>, labels: seq<int>, start: nat, id: int, members: seq<nat>)
    requires ValidPortals(portals, roomCount) && |before| == roomCount
    requires ClosedLabels(portals, before) && id != NO_GROUP && forall r | 0 <= r < |before| :: before[r] != id
    requires Collecting(portals, before, labels, start, id, members) && Explored(portals, labels, id, [], -1)
    ensures forall r: nat | r < roomCount :: labels[r] == id <==> Joined(portals, start, r)
    ensures ClosedLabels(portals, labels)
  {
    var group := set r: nat | r < roomCount && labels[r] == id;
    forall x: nat, y: nat | x in group && OpenLink(portals, x, y)
      ensures y in group
    {
    }
    forall r: nat | r < roomCount && Joined(portals, start, r)
      ensures labels[r] == id
    {
      var w :| WalkBetween(portals, w, start, r);
      ClosedSetHoldsJoined(portals, group, w, start, r);
    }
  }

  /** Labelling one more room reached by an open portal. */
  lemma LabelOne(portals: seq<Portal>, before: seq<int>, labels: seq<int>, start: nat, id: int, members: seq<nat>, room: nat, s: nat)
    requires Collecting(portals, before, labels, start, id, members) && id != NO_GROUP
    requires room < |labels| && labels[room] == id && s < |labels| && labels[s] == NO_GROUP && OpenLink(portals, room, s)
    ensures Collecting(portals, before, labels[s := id], start, id, members + [s])
    ensures Unlabelled(labels[s := id]) < Unlabelled(labels)
  {
    JoinedStep(portals, start, room, s);
    assert s in Unlabelled(labels) && s !in Unlabelled(labels[s := id]);
  }

  /** Labels every open neighbour of `room` that has no group yet and queues it. */
  method VisitRoom(portals: seq<Portal>, roomCount: nat, views: seq<PortalView>, room: nat, id: int, start: nat,
                   ghost before: seq<int>, labels0: seq<int>, queue0: seq<nat>, members0: seq<nat>)
    returns (labels: seq<int>, queue: seq<nat>, members: seq<nat>)
    requires |before| == roomCount && ClosedLabels(portals, before) && id != NO_GROUP
    requires Collecting(portals, before, labels0, start, id, members0) && room < roomCount
    requires ViewsOf(portals, roomCount, room, views) && labels0[room] == id && before[room] != id
    requires (forall i | 0 <= i < |queue0| :: queue0[i] in members0) && Explored(portals, labels0, id, queue0, room)
    ensures Collecting(portals, before, labels, start, id, members)
    ensures (forall i | 0 <= i < |queue| :: queue[i] in members) && Explored(portals, labels, id, queue, -1)
    ensures (labels == labels0 && queue == queue0) || Unlabelled(labels) < Unlabelled(labels0)
  {
    labels, queue, members := labels0, queue0, members0;
    for k := 0 to |views|
      invariant Collecting(portals, before, labels, start, id, members) && labels[room] == id
      invariant (forall i | 0 <= i < |queue| :: queue[i] in members) && Explored(portals, labels, id, queue, room)
      invariant forall l, s: nat | 0 <= l < k && s < roomCount && OpensTo(portals, views, l, s) :: labels[s] != NO_GROUP
      invariant (labels == labels0 && queue == queue0) || Unlabelled(labels) < Unlabelled(labels0)
    {
      var s := views[k].toRoom;
      if portals[views[k].portalIndex].state == PORTAL_OPEN && labels[s] == NO_GROUP {
        assert OpensTo(portals, views, k, s);
        LabelOne(portals, before, labels, start, id, members, room, s);
        labels, members, queue := labels[s := id], members + [s], queue + [s];
      }
    }
    forall s: nat | s < roomCount && OpenLink(portals, room, s)
      ensures labels[s] == id
    {
      var k: nat :| OpensTo(portals, views, k, s);
      assert OpenLink(portals, s, room);
    }
  }

  /** The breadth-first search that collects the group of `start`. */
  method CollectGroup(portals: seq<Portal>, roomCount: nat, incident: seq<seq<PortalView>>, start: nat, id: int, before: seq<int>)
    returns (labels: seq<int>, members: seq<nat>)
    requires ValidPortals(portals, roomCount) && IncidentOk(portals, roomCount, incident)
    requires |before| == roomCount && ClosedLabels(portals, before) && id != NO_GROUP
    requires start < roomCount && before[start] == NO_GROUP && forall r | 0 <= r < |before| :: before[r] != id
    ensures Collecting(portals, before, labels, start, id, members) && ClosedLabels(portals, labels)
    ensures forall r: nat | r < roomCount :: labels[r] == id <==> Joined(portals, start, r)
  {
    JoinedRefl(portals, start);
    labels, members := before[start := id], [start];
    var queue := [start];
    while |queue| > 0
      invariant Collecting(portals, before, labels, start, id, members)
      invariant (forall i | 0 <= i < |queue| :: queue[i] in members) && Explored(portals, labels, id, queue, -1)
      decreases Unlabelled(labels), |queue|
    {
      var room := queue[0];
      assert queue == [room] + queue[1..];
      IncidentViews(portals, roomCount, incident, room);
      labels, queue, members :=
        VisitRoom(portals, roomCount, incident[room], room, id, start, before, labels, queue[1..], members);
    }
    assert queue == [];
    CollectedAll(portals, roomCount, before, labels, start, id, members);
  }

  /** The grouping while rooms below `start` are done. */
  ghost predicate PartialGrouping(portals: seq<Portal>, labels: seq<int>, rooms: seq<seq<nat>>, start: nat) {
    && start <= |labels|
    && ClosedLabels(portals, labels) && ListsRooms(labels, rooms)
    && (forall r | 0 <= r < |labels| :: labels[r] < |rooms| && (labels[r] >= 0 || labels[r] == NO_GROUP))
    && (forall r | 0 <= r < start :: labels[r] != NO_GROUP)
    && (forall a: nat, b: nat | a < |labels| && b < |labels| && labels[a] == labels[b] != NO_GROUP :: Joined(portals, a, b))
    && (forall g, h | 0 <= g < h < |rooms| :: rooms[g][0] < rooms[h][0])
    && (forall g | 0 <= g < |rooms| :: rooms[g][0] < start)
  }

  lemma FinishedGrouping(portals: seq<Portal>, roomCount: nat, labels: seq<int>, rooms: seq<seq<nat>>)
    requires ValidPortals(portals, roomCount) && |labels| == roomCount && PartialGrouping(portals, labels, rooms, roomCount)
    ensures IsGrouping(portals, roomCount, labels, rooms)
  {
    forall a: nat, b: nat | a < roomCount && b < roomCount && Joined(portals, a, b)
      ensures labels[a] == labels[b]
    {
      var group := set r: nat | r < roomCount && labels[r] == labels[a];
      var w :| WalkBetween(portals, w, a, b);
      ClosedSetHoldsJoined(portals, group, w, a, b);
    }
  }

  lemma AddGroup(portals: seq<Portal>, before: seq<int>, rooms: seq<seq<nat>>, start: nat, labels: seq<int>, members: seq<nat>, sorted: seq<nat>)
    requires PartialGrouping(portals, before, rooms, start) && start < |before| && before[start] == NO_GROUP
    requires Collecting(portals, before, labels, start, |rooms|, members) && ClosedLabels(portals, labels)
    requires Ascending(sorted) && multiset(sorted) == multiset(members)
    ensures PartialGrouping(portals, labels, rooms + [sorted], start + 1)
  {
    assert forall r: nat :: r in sorted <==> r in multiset(sorted);
    assert forall r: nat :: r in members <==> r in multiset(members);
    assert forall i | 0 <= i < |sorted| :: sorted[i] in sorted;
    assert start in sorted && sorted[0] == start;
    AddGroupLists(before, rooms, labels, sorted);
    forall a: nat, b: nat | a < |labels| && b < |labels| && labels[a] == labels[b] != NO_GROUP
      ensures Joined(portals, a, b)
    {
      if labels[a] == |rooms| {
        JoinedSym(portals, start, a);
        JoinedTrans(portals, a, start, b);
      }
    }
  }

  lemma AddGroupLists(before: seq<int>, rooms: seq<seq<nat>>, labels: seq<int>, sorted: seq<nat>)
    requires ListsRooms(before, rooms) && |before| == |labels|
    requires forall r | 0 <= r < |labels| :: before[r] < |rooms| && (labels[r] == before[r] || (before[r] == NO_GROUP && labels[r] == |rooms|))
    requires sorted != [] && Ascending(sorted)
    requires forall i | 0 <= i < |sorted| :: sorted[i] < |labels| && labels[sorted[i]] == |rooms|
    requires forall r: nat | r < |labels| && labels[r] == |rooms| :: r in sorted
    ensures ListsRooms(labels, rooms + [sorted])
  {
  }

  /** A portal's state is not part of how it is wired. */
  lemma StateIsNotWiring(portals: seq<Portal>, roomCount: nat, incident: seq<seq<PortalView>>, i: nat, state: PortalState)
    requires ValidPortals(portals, roomCount) && IncidentOk(portals, roomCount, incident) && i < |portals|
    ensures var portals' := portals[i := portals[i].(state := state)];
            ValidPortals(portals', roomCount) && IncidentOk(portals', roomCount, incident)
  {
    var portals' := portals[i := portals[i].(state := state)];
    assert forall j | 0 <= j < |portals| :: ForwardView(j, portals'[j]) == ForwardView(j, portals[j]);
    forall r, k | 0 <= r < roomCount && 0 <= k < |incident[r]|
      ensures IsOutwardView(portals', r, incident[r][k])
    {
      assert IsOutwardView(portals, r, incident[r][k]);
    }
  }

  // ---------- Edges of the group graph ----------

  /** A closed portal leading out of group `from`. */
  ghost predicate IsGroupEdge(portals: seq<Portal>, groupOf: seq<int>, from: int, v: GroupPortalView) {
    && v.view.fromRoom < |groupOf| && v.view.toRoom < |groupOf|
    && IsOutwardView(portals, v.view.fromRoom, v.view)
    && !IsOpen(portals[v.view.portalIndex])
    && groupOf[v.view.fromRoom] == from == v.fromGroup
    && groupOf[v.view.toRoom] == v.toGroup != from
  }

  /** The closed portals of the views of one room that lead out of group `from`. */
  method RoomEdges(portals: seq<Portal>, groupOf: seq<int>, views: seq<PortalView>, room: nat, from: nat)
    returns (edges: seq<GroupPortalView>)
    requires room < |groupOf| && groupOf[room] == from && (forall r | 0 <= r < |groupOf| :: groupOf[r] >= 0)
    requires forall k | 0 <= k < |views| ::
               views[k].portalIndex < |portals| && views[k].toRoom < |groupOf| && IsOutwardView(portals, room, views[k])
    requires forall k, l | 0 <= k < l < |views| :: views[k] != views[l]
    ensures forall i | 0 <= i < |edges| :: IsGroupEdge(portals, groupOf, from, edges[i]) && edges[i].view.fromRoom == room
    ensures forall k | 0 <= k < |views| && !IsOpen(portals[views[k].portalIndex]) && groupOf[views[k].toRoom] != from ::
              GroupPortalView(views[k], from, groupOf[views[k].toRoom]) in edges
    ensures forall i, j | 0 <= i < j < |edges| :: edges[i] != edges[j]
  {
    edges := [];
    for k := 0 to |views|
      invariant forall i | 0 <= i < |edges| :: IsGroupEdge(portals, groupOf, from, edges[i]) && edges[i].view.fromRoom == room
      invariant forall i | 0 <= i < |edges| :: edges[i].view in views[..k]
      invariant forall l | 0 <= l < k && !IsOpen(portals[views[l].portalIndex]) && groupOf[views[l].toRoom] != from ::
                  GroupPortalView(views[l], from, groupOf[views[l].toRoom]) in edges
      invariant forall i, j | 0 <= i < j < |edges| :: edges[i] != edges[j]
    {
      var view := views[k];
      var target := groupOf[view.toRoom];
      assert view !in views[..k];
      assert views[..k + 1] == views[..k] + [view];
      if portals[view.portalIndex].state != PORTAL_OPEN && target != from {
        edges := edges + [GroupPortalView(view, from, target)];
      }
    }
  }

  predicate EdgeOrder(a: GroupPortalView, b: GroupPortalView) {
    a.view.portalIndex < b.view.portalIndex ||
    (a.view.portalIndex == b.view.portalIndex && a.view.fromRoom <= b.view.fromRoom)
  }

  class AcousticSceneGraph {
    const roomCount: nat
    var portals: seq<Portal>
    var incident: seq<seq<PortalView>>
    var groupOfRoom: seq<int>
    var roomsOfGroup: seq<seq<nat>>

    ghost predicate Wired()
      reads this
    {
      ValidPortals(portals, roomCount) && IncidentOk(portals, roomCount, incident)
    }

    ghost predicate Valid()
      reads this
    {
      Wired() && IsGrouping(portals, roomCount, groupOfRoom, roomsOfGroup)
    }

    /** Recomputes the connected components of rooms joined by open portals. */
    method UpdateRoomGroups()
      requires Wired()
      modifies this`groupOfRoom, this`roomsOfGroup
      ensures Valid()
    {
      var labels := seq(roomCount, _ => NO_GROUP);
      var rooms: seq<seq<nat>> := [];
      for start := 0 to roomCount
        invariant |labels| == roomCount && PartialGrouping(portals, labels, rooms, start)
      {
        if labels[start] == NO_GROUP {
          var before := labels;
          var members;
          labels, members := CollectGroup(portals, roomCount, incident, start, |rooms|, before);
          var sorted := SortRooms(members);
          AddGroup(portals, before, rooms, start, labels, members, sorted);
          rooms := rooms + [sorted];
        }
      }
      FinishedGrouping(portals, roomCount, labels, rooms);
      groupOfRoom, roomsOfGroup := labels, rooms;
    }

    constructor (roomCount: nat, portals: seq<Portal>)
      requires ValidPortals(portals, roomCount)
      ensures Valid() && this.roomCount == roomCount && this.portals == portals
    {
      this.roomCount, this.portals := roomCount, portals;
      incident, groupOfRoom, roomsOfGroup := [], [], [];
      new;
      incident := BuildIncident(roomCount, portals);
      UpdateRoomGroups();
    }

    /** Changes a portal's state and recomputes the room groups. */
    method SetPortalState(portalIndex: int, state: PortalState) returns (ok: bool)
      requires Valid()
      modifies this`portals, this`groupOfRoom, this`roomsOfGroup
      ensures Valid()
      ensures ok <==> 0 <= portalIndex < |old(portals)| && (state == PORTAL_OPEN || state == PORTAL_CLOSED)
      ensures ok ==> portals == old(portals)[portalIndex := old(portals)[portalIndex].(state := state)]
      ensures !ok ==> portals == old(portals) && groupOfRoom == old(groupOfRoom) && roomsOfGroup == old(roomsOfGroup)
    {
      ok := 0 <= portalIndex < |portals| && (state == PORTAL_OPEN || state == PORTAL_CLOSED);
      if !ok || portals[portalIndex].state == state {
        return;
      }
      StateIsNotWiring(portals, roomCount, incident, portalIndex, state);
      portals := portals[portalIndex := portals[portalIndex].(state := state)];
      UpdateRoomGroups();
    }

    /** The closed portals leading out of a group. */
    method GroupPortalViews(from: int) returns (edges: seq<GroupPortalView>)
      requires Valid()
      ensures forall v :: v in edges <==> IsGroupEdge(portals, groupOfRoom, from, v)
      ensures forall i, j | 0 <= i < j < |edges| :: edges[i] != edges[j]
    {
      edges := [];
      if from < 0 || from >= |roomsOfGroup| {
        return;
      }
      var rooms := roomsOfGroup[from];
      for k := 0 to |rooms|
        invariant forall i | 0 <= i < |edges| :: IsGroupEdge(portals, groupOfRoom, from, edges[i]) && edges[i].view.fromRoom in rooms[..k]
        invariant forall v | IsGroupEdge(portals, groupOfRoom, from, v) && v.view.fromRoom in rooms[..k] :: v in edges
        invariant forall i, j | 0 <= i < j < |edges| :: edges[i] != edges[j]
      {
        var room := rooms[k];
        OutwardViews(portals, roomCount, incident, room);
        var more := RoomEdges(portals, groupOfRoom, incident[room], room, from);
        assert rooms[..k + 1] == rooms[..k] + [room];
        forall v | IsGroupEdge(portals, groupOfRoom, from, v) && v.view.fromRoom == room
          ensures v in more
        {
          assert v.view in incident[room];
        }
        edges := edges + more;
      }
      assert rooms[..|rooms|] == rooms;
    }

    /** The same edges in the order the path search visits them. */
    method SortedGroupEdges(from: int) returns (edges: seq<GroupPortalView>)
      requires Valid()
      ensures forall v :: v in edges <==> IsGroupEdge(portals, groupOfRoom, from, v)
      ensures forall i, j | 0 <= i < j < |edges| :: edges[i] != edges[j]
      ensures forall i, j | 0 <= i < j < |edges| ::
                edges[i].view.portalIndex < edges[j].view.portalIndex ||
                (edges[i].view.portalIndex == edges[j].view.portalIndex && edges[i].view.fromRoom <= edges[j].view.fromRoom)
    {
      var views := GroupPortalViews(from);
      edges := SortBy(EdgeOrder, views);
      SortByIsSorted(EdgeOrder, views);
      SameElements(edges, views);
      DistinctPermutation(edges, views);
    }
  }

  /** Builds the graph of a scene. Without rooms, or with a portal to an unknown room, there is none. */
  method NewAcousticSceneGraph(roomCount: nat, portals: seq<Portal>) returns (graph: Option<AcousticSceneGraph>)
    ensures graph.Some? <==> roomCount > 0 && ValidPortals(portals, roomCount)
    ensures graph.Some? ==> graph.value.Valid() && graph.value.roomCount == roomCount && graph.value.portals == portals
  {
    for i := 0 to |portals|
      invariant forall j | 0 <= j < i :: portals[j].first < roomCount && portals[j].second < roomCount
    {
      if portals[i].first >= roomCount || portals[i].second >= roomCount {
        return None;
      }
    }
    if roomCount == 0 {
      return None;
    }
    var g := new AcousticSceneGraph(roomCount, portals);
    graph := Some(g);
  }
}
