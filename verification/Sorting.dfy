/** The library sorts used across the program, as a stable insertion sort over a relation. */
module Sorting {
  ghost predicate TotalPreorder<T(!new)>(leq: (T, T) -> bool) {
    && (forall a, b :: leq(a, b) || leq(b, a))
    && (forall a, b, c :: leq(a, b) && leq(b, c) ==> leq(a, c))
  }

  ghost predicate SortedBy<T>(leq: (T, T) -> bool, s: seq<T>) {
    forall i, j | 0 <= i < j < |s| :: leq(s[i], s[j])
  }

  function Insert<T>(leq: (T, T) -> bool, x: T, s: seq<T>): (r: seq<T>)
    ensures |r| == |s| + 1 && multiset(r) == multiset(s) + multiset{x}
  {
    if s == [] then [x]
    else if leq(x, s[0]) then [x] + s
    else
      assert s == [s[0]] + s[1..];
      [s[0]] + Insert(leq, x, s[1..])
  }

  /** The stable sort of `s`: a permutation of it, in order of `leq`. */
  function SortBy<T>(leq: (T, T) -> bool, s: seq<T>): (r: seq<T>)
    ensures |r| == |s| && multiset(r) == multiset(s)
  {
    if s == [] then []
    else
      assert s == [s[0]] + s[1..];
      Insert(leq, s[0], SortBy(leq, s[1..]))
  }

  lemma {:induction false} InsertIsSorted<T(!new)>(leq: (T, T) -> bool, x: T, s: seq<T>)
    requires TotalPreorder(leq) && SortedBy(leq, s)
    ensures SortedBy(leq, Insert(leq, x, s))
    decreases |s|
  {
    if s != [] && !leq(x, s[0]) {
      var rest := Insert(leq, x, s[1..]);
      InsertIsSorted(leq, x, s[1..]);
      assert s == [s[0]] + s[1..];
      forall j | 0 <= j < |rest|
        ensures leq(s[0], rest[j])
      {
        assert rest[j] in multiset(rest);
      }
    }
  }

  lemma {:induction false} SortByIsSorted<T(!new)>(leq: (T, T) -> bool, s: seq<T>)
    requires TotalPreorder(leq)
    ensures SortedBy(leq, SortBy(leq, s))
    decreases |s|
  {
    if s != [] {
      SortByIsSorted(leq, s[1..]);
      InsertIsSorted(leq, s[0], SortBy(leq, s[1..]));
    }
  }

  lemma SameElements<T>(a: seq<T>, b: seq<T>)
    requires multiset(a) == multiset(b)
    ensures |a| == |b| && forall x :: x in a <==> x in b
  {
    assert |multiset(a)| == |a| && |multiset(b)| == |b|;
    assert forall x :: x in a <==> x in multiset(a);
    assert forall x :: x in b <==> x in multiset(b);
  }

  lemma DistinctPermutation<T>(a: seq<T>, b: seq<T>)
    requires multiset(a) == multiset(b) && forall i, j | 0 <= i < j < |b| :: b[i] != b[j]
    ensures forall i, j | 0 <= i < j < |a| :: a[i] != a[j]
  {
    DistinctCounts(b);
    forall i, j | 0 <= i < j < |a|
      ensures a[i] != a[j]
    {
      assert a == a[..i] + [a[i]] + a[i + 1..];
      assert multiset(a) == multiset(a[..i]) + multiset{a[i]} + multiset(a[i + 1..]);
      assert a[j] == a[i + 1..][j - i - 1];
      assert a[j] in multiset(a[i + 1..]);
      assert multiset(b)[a[i]] <= 1;
    }
  }

  lemma {:induction false} DistinctCounts<T>(b: seq<T>)
    requires forall i, j | 0 <= i < j < |b| :: b[i] != b[j]
    ensures forall x :: multiset(b)[x] <= 1
    decreases |b|
  {
    if b != [] {
      DistinctCounts(b[1..]);
      assert b == [b[0]] + b[1..];
      assert b[0] !in b[1..];
    }
  }
}
