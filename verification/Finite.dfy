/** Counting facts about sequences of indices. */
module Finite {
  ghost predicate NoRepeats<T>(s: seq<T>) {
    forall i, j | 0 <= i < j < |s| :: s[i] != s[j]
  }

  ghost function Below(n: nat): (r: set<nat>)
    ensures forall x: nat :: x in r <==> x < n
    ensures |r| == n
  {
    if n == 0 then {} else Below(n - 1) + {n - 1}
  }

  ghost function Elements<T(!new)>(s: seq<T>): (r: set<T>)
    ensures forall x :: x in r <==> x in s
  {
    set x | x in s
  }

  lemma {:induction false} ElementCount<T(!new)>(s: seq<T>)
    requires NoRepeats(s)
    ensures |Elements(s)| == |s|
    decreases |s|
  {
    if s != [] {
      var rest := s[..|s| - 1];
      ElementCount(rest);
      assert s == rest + [s[|s| - 1]];
      assert Elements(s) == Elements(rest) + {s[|s| - 1]};
      assert s[|s| - 1] !in Elements(rest);
    }
  }

  lemma {:induction false} SubsetSize<T>(a: set<T>, b: set<T>)
    requires a <= b
    ensures |a| <= |b|
    ensures |a| == |b| ==> a == b
    decreases a
  {
    assert b == a + (b - a);
    assert |b| == |a| + |b - a|;
  }

  /** Distinct indices below `n` number at most `n`, and `n` of them are all of them. */
  lemma DistinctBelow(s: seq<nat>, n: nat)
    requires NoRepeats(s) && forall i | 0 <= i < |s| :: s[i] < n
    ensures |s| <= n
    ensures |s| == n ==> forall x: nat | x < n :: x in s
  {
    ElementCount(s);
    SubsetSize(Elements(s), Below(n));
  }

  lemma Pigeonhole(s: seq<nat>, n: nat)
    requires |s| > n && forall i | 0 <= i < |s| :: s[i] < n
    ensures exists i, j :: 0 <= i < j < |s| && s[i] == s[j]
  {
    if NoRepeats(s) {
      DistinctBelow(s, n);
    }
  }

  /** Fewer than `n` distinct indices below `n` leave one out. */
  lemma OneLeftOut(s: seq<nat>, n: nat)
    requires |s| < n && NoRepeats(s)
    ensures exists x: nat :: x < n && x !in s
  {
    ElementCount(s);
    if Below(n) <= Elements(s) {
      SubsetSize(Below(n), Elements(s));
    } else {
      var x :| x in Below(n) && x !in Elements(s);
    }
  }

  /** A list without repeats that holds `a` and `b` and nothing else, or nothing at all. */
  lemma CountEnds<T(!new)>(s: seq<T>, any: bool, a: T, b: T)
    requires NoRepeats(s) && forall x :: x in s <==> any && (x == a || x == b)
    ensures |s| == if !any then 0 else if a == b then 1 else 2
  {
    ElementCount(s);
    assert Elements(s) == if !any then {} else if a == b then {a} else {a, b};
  }
}
