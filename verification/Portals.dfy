/** Portals and the views of them the scene graph hands out (scene/portal.go, scene/graph.go). */
module Portals {
  import opened Vectors

  type PortalState = string

  const PORTAL_OPEN: PortalState := "open"
  const PORTAL_CLOSED: PortalState := "closed"

  /** A planar polygon shared by two rooms. */
  datatype Portal = Portal(first: nat, second: nat, polygon: seq<Vec3>, material: string, state: PortalState)

  /** A portal seen from one of the two rooms it joins. */
  datatype PortalView = PortalView(portalIndex: nat, fromRoom: nat, toRoom: nat, reversed: bool) {
    /** The same portal seen from the adjacent room. */
    function Counter(): PortalView {
      PortalView(portalIndex, toRoom, fromRoom, !reversed)
    }
  }

  /** A closed portal lifted to the group graph. */
  datatype GroupPortalView = GroupPortalView(view: PortalView, fromGroup: nat, toGroup: nat)

  ghost predicate ValidPortals(portals: seq<Portal>, roomCount: nat) {
    forall i | 0 <= i < |portals| :: portals[i].first < roomCount && portals[i].second < roomCount
  }

  ghost predicate IsOpen(p: Portal) {
    p.state == PORTAL_OPEN
  }

  // ---------- Being joined by open portals ----------

  ghost predicate Joins(p: Portal, a: nat, b: nat) {
    (p.first == a && p.second == b) || (p.first == b && p.second == a)
  }

  ghost predicate OpenLink(portals: seq<Portal>, a: nat, b: nat) {
    exists i :: 0 <= i < |portals| && IsOpen(portals[i]) && Joins(portals[i], a, b)
  }

  ghost predicate OpenWalk(portals: seq<Portal>, w: seq<nat>) {
    |w| > 0 && forall i | 0 <= i < |w| - 1 :: OpenLink(portals, w[i], w[i + 1])
  }

  ghost predicate WalkBetween(portals: seq<Portal>, w: seq<nat>, a: nat, b: nat) {
    OpenWalk(portals, w) && w[0] == a && w[|w| - 1] == b
  }

  /** A chain of open portals leads from room `a` to room `b`. */
  ghost predicate Joined(portals: seq<Portal>, a: nat, b: nat) {
    exists w :: WalkBetween(portals, w, a, b)
  }

  lemma JoinedRefl(portals: seq<Portal>, a: nat)
    ensures Joined(portals, a, a)
  {
    assert WalkBetween(portals, [a], a, a);
  }

  lemma JoinedStep(portals: seq<Portal>, a: nat, b: nat, c: nat)
    requires Joined(portals, a, b) && OpenLink(portals, b, c)
    ensures Joined(portals, a, c)
  {
    var w :| WalkBetween(portals, w, a, b);
    assert WalkBetween(portals, w + [c], a, c);
  }

  lemma JoinedSym(portals: seq<Portal>, a: nat, b: nat)
    requires Joined(portals, a, b)
    ensures Joined(portals, b, a)
  {
    var w :| WalkBetween(portals, w, a, b);
    var r := seq(|w|, i requires 0 <= i < |w| => w[|w| - 1 - i]);
    forall i | 0 <= i < |r| - 1
      ensures OpenLink(portals, r[i], r[i + 1])
    {
      var k := |w| - 2 - i;
      assert OpenLink(portals, w[k], w[k + 1]);
    }
    assert WalkBetween(portals, r, b, a);
  }

  lemma JoinedTrans(portals: seq<Portal>, a: nat, b: nat, c: nat)
    requires Joined(portals, a, b) && Joined(portals, b, c)
    ensures Joined(portals, a, c)
  {
    var v :| WalkBetween(portals, v, a, b);
    var w :| WalkBetween(portals, w, b, c);
    var u := v + w[1..];
    forall i | 0 <= i < |u| - 1
      ensures OpenLink(portals, u[i], u[i + 1])
    {
      if i >= |v| - 1 {
        assert OpenLink(portals, w[i - (|v| - 1)], w[i - (|v| - 1) + 1]);
      }
    }
    assert WalkBetween(portals, u, a, c);
  }

  /** A set of rooms that open portals do not leave holds everything joined to a member. */
  lemma {:induction false} ClosedSetHoldsJoined(portals: seq<Portal>, rooms: set<nat>, w: seq<nat>, a: nat, b: nat)
    requires forall x: nat, y: nat :: x in rooms && OpenLink(portals, x, y) ==> y in rooms
    requires a in rooms && WalkBetween(portals, w, a, b)
    ensures b in rooms
    decreases |w|
  {
    if |w| > 1 {
      var v := w[..|w| - 1];
      assert WalkBetween(portals, v, a, v[|v| - 1]);
      ClosedSetHoldsJoined(portals, rooms, v, a, v[|v| - 1]);
      assert OpenLink(portals, w[|w| - 2], w[|w| - 1]);
    }
  }
}
