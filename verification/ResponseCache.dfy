/** The byte-budgeted cache of room-group responses, least recently used out first
    (crossroom/cache.go). A key holds the content that its hashes stand for. */
module ResponseCache {
  import opened Finite
  import opened GroupSignature
  import opened Vectors

  const DEFAULT_CACHE_BYTES := 268435456

  datatype PortKind = SourcePort | PortalPort | ReceiverPort

  datatype Endpoints = Endpoints(source: Vec3, receiver: Vec3, bands: seq<real>)

  datatype CacheKey = CacheKey(signature: Signature, endpoints: Endpoints, config: string,
                               fromKind: PortKind, toKind: PortKind, fromIndex: int, toIndex: int)

  datatype Entry<V> = Entry(factor: V, bytes: nat)

  // ---------- Recency lists ----------

  /** The recorded sizes of the listed entries. */
  function SumBytes<V>(order: seq<CacheKey>, entries: map<CacheKey, Entry<V>>): nat {
    if order == [] then 0 else SumBytes(order[..|order| - 1], entries) + SizeOf(entries, order[|order| - 1])
  }

  function SizeOf<V>(entries: map<CacheKey, Entry<V>>, key: CacheKey): nat {
    if key in entries then entries[key].bytes else 0
  }

  function Without(order: seq<CacheKey>, key: CacheKey): (r: seq<CacheKey>)
    ensures forall k :: k in r <==> k in order && k != key
  {
    if order == [] then []
    else
      var front, last := order[..|order| - 1], order[|order| - 1];
      assert forall k :: k in order <==> k in front || k == last;
      if last == key then Without(front, key) else Without(front, key) + [last]
  }

  lemma NoRepeatsAppend(front: seq<CacheKey>, last: CacheKey)
    requires NoRepeats(front) && last !in front
    ensures NoRepeats(front + [last]) && NoRepeats([last] + front)
  {
  }

  lemma NoRepeatsFront(order: seq<CacheKey>)
    requires NoRepeats(order) && order != []
    ensures NoRepeats(order[..|order| - 1]) && order[|order| - 1] !in order[..|order| - 1]
  {
  }

  lemma {:induction false} WithoutKeepsDistinct(order: seq<CacheKey>, key: CacheKey)
    requires NoRepeats(order)
    ensures NoRepeats(Without(order, key)) && NoRepeats(ToFront(order, key))
    decreases |order|
  {
    hide NoRepeats;
    if order == [] {
      assert NoRepeats<CacheKey>([]) by {
        OneKey(key);
      }
      OneKey(key);
      assert ToFront(order, key) == [key];
    } else {
      NoRepeatsFront(order);
      var front, last := order[..|order| - 1], order[|order| - 1];
      WithoutKeepsDistinct(front, key);
      if last != key {
        NoRepeatsAppend(Without(front, key), last);
      }
      NoRepeatsAppend(Without(order, key), key);
    }
  }

  lemma OneKey(key: CacheKey)
    ensures NoRepeats([key]) && NoRepeats<CacheKey>([])
  {
  }

  function Removed(order: seq<CacheKey>, i: nat): (r: seq<CacheKey>)
    requires i < |order|
    ensures |r| == |order| - 1
  {
    order[..i] + order[i + 1..]
  }

  function ToFront(order: seq<CacheKey>, key: CacheKey): seq<CacheKey> {
    [key] + Without(order, key)
  }

  lemma {:induction false} SumFrame<V>(order: seq<CacheKey>, a: map<CacheKey, Entry<V>>, b: map<CacheKey, Entry<V>>)
    requires forall k | k in order :: SizeOf(a, k) == SizeOf(b, k)
    ensures SumBytes(order, a) == SumBytes(order, b)
    decreases |order|
  {
    if order != [] {
      SumFrame(order[..|order| - 1], a, b);
    }
  }

  lemma {:induction false} SumWithout<V>(order: seq<CacheKey>, entries: map<CacheKey, Entry<V>>, key: CacheKey)
    requires NoRepeats(order)
    ensures SumBytes(Without(order, key), entries) == SumBytes(order, entries) - if key in order then SizeOf(entries, key) else 0
    decreases |order|
  {
    if order != [] {
      var front, last := order[..|order| - 1], order[|order| - 1];
      SumWithout(front, entries, key);
      if last == key {
        assert key !in front;
      } else {
        var r := Without(order, key);
        assert r[..|r| - 1] == Without(front, key);
      }
    }
  }

  lemma {:induction false} SumOfCons<V>(key: CacheKey, order: seq<CacheKey>, entries: map<CacheKey, Entry<V>>)
    ensures SumBytes([key] + order, entries) == SizeOf(entries, key) + SumBytes(order, entries)
    decreases |order|
  {
    var all := [key] + order;
    if order == [] {
      assert all[..0] == [];
    } else {
      SumOfCons(key, order[..|order| - 1], entries);
      assert all[..|all| - 1] == [key] + order[..|order| - 1];
    }
  }

  lemma {:induction false} SumOfPrefix<V>(order: seq<CacheKey>, entries: map<CacheKey, Entry<V>>, n: nat)
    requires n <= |order|
    ensures SumBytes(order[..n], entries) <= SumBytes(order, entries)
    decreases |order|
  {
    if n < |order| {
      SumOfPrefix(order[..|order| - 1], entries, n);
      assert order[..|order| - 1][..n] == order[..n];
    } else {
      assert order[..n] == order;
    }
  }

  // ---------- What eviction keeps ----------

  /** The first `n` entries fit the budget, and one more would not. */
  ghost predicate LongestFit<V>(order: seq<CacheKey>, entries: map<CacheKey, Entry<V>>, maxBytes: nat, n: nat) {
    && n <= |order| && SumBytes(order[..n], entries) <= maxBytes
    && (n < |order| ==> SumBytes(order[..n + 1], entries) > maxBytes)
  }

  /** Only one prefix is the longest that fits. */
  lemma LongestFitIsUnique<V>(order: seq<CacheKey>, entries: map<CacheKey, Entry<V>>, maxBytes: nat, m: nat, n: nat)
    requires LongestFit(order, entries, maxBytes, m) && LongestFit(order, entries, maxBytes, n)
    ensures m == n
  {
    if m < n {
      assert order[..n][..m + 1] == order[..m + 1];
      SumOfPrefix(order[..n], entries, m + 1);
    } else if n < m {
      assert order[..m][..n + 1] == order[..n + 1];
      SumOfPrefix(order[..m], entries, n + 1);
    }
  }

  /** An entry that fits by itself survives its own insertion. */
  lemma FitsAlone<V>(order: seq<CacheKey>, entries: map<CacheKey, Entry<V>>, maxBytes: nat, n: nat)
    requires order != [] && LongestFit(order, entries, maxBytes, n)
    ensures n > 0 <==> SizeOf(entries, order[0]) <= maxBytes
  {
    assert order[..1] == [order[0]] && [order[0]][..0] == [];
    assert SumBytes(order[..1], entries) == SizeOf(entries, order[0]);
    if n > 0 {
      assert order[..n][..1] == order[..1];
      SumOfPrefix(order[..n], entries, 1);
    }
  }

  function Restrict<V>(entries: map<CacheKey, Entry<V>>, order: seq<CacheKey>): map<CacheKey, Entry<V>> {
    map k | k in entries && k in order :: entries[k]
  }

  /** The keys of other room groups, in their old order. */
  function KeepOthers(order: seq<CacheKey>, signature: Signature): (r: seq<CacheKey>)
    ensures |r| <= |order|
  {
    if order == [] then []
    else
      var front, last := order[..|order| - 1], order[|order| - 1];
      if last.signature == signature then KeepOthers(front, signature) else KeepOthers(front, signature) + [last]
  }

  lemma {:induction false} KeptOthers(order: seq<CacheKey>, signature: Signature, key: CacheKey)
    ensures key in KeepOthers(order, signature) <==> key in order && key.signature != signature
    decreases |order|
  {
    if order != [] {
      KeptOthers(order[..|order| - 1], signature, key);
      assert order == order[..|order| - 1] + [order[|order| - 1]];
    }
  }

  /** The list and the map hold the same distinct keys. */
  ghost predicate Agrees<V>(order: seq<CacheKey>, entries: map<CacheKey, Entry<V>>) {
    NoRepeats(order) && forall k :: k in order <==> k in entries
  }

  lemma RestrictedDrop<V>(order: seq<CacheKey>, entries: map<CacheKey, Entry<V>>)
    requires NoRepeats(order) && order != []
    ensures var n := |order| - 1; Restrict(entries, order) - {order[n]} == Restrict(entries, order[..n])
  {
    NoRepeatsFront(order);
    assert order == order[..|order| - 1] + [order[|order| - 1]];
  }

  class Cache<V> {
    const maxBytes: nat
    var bytes: nat
    var order: seq<CacheKey>
    var entries: map<CacheKey, Entry<V>>
    var hits: nat
    var misses: nat
    var evictions: nat

    /** The list and the map hold the same distinct keys, and the byte count is right. */
    ghost predicate Consistent()
      reads this
    {
      Agrees(order, entries) && bytes == SumBytes(order, entries)
    }

    ghost predicate Valid()
      reads this
    {
      Consistent() && bytes <= maxBytes
    }

    constructor (maxBytes: int)
      ensures Valid() && entries == map[] && this.maxBytes == if maxBytes <= 0 then DEFAULT_CACHE_BYTES else maxBytes
      ensures hits == 0 && misses == 0 && evictions == 0
    {
      this.maxBytes := if maxBytes <= 0 then DEFAULT_CACHE_BYTES else maxBytes;
      bytes, order, entries, hits, misses, evictions := 0, [], map[], 0, 0, 0;
    }

    /** Finds an entry and makes it the most recent. */
    method Get(key: CacheKey) returns (factor: seq<V>)
      requires Valid()
      modifies this
      ensures Valid() && entries == old(entries) && bytes == old(bytes) && evictions == old(evictions)
      ensures key in entries ==> factor == [entries[key].factor] && order == ToFront(old(order), key) && hits == old(hits) + 1 && misses == old(misses)
      ensures key !in entries ==> factor == [] && order == old(order) && misses == old(misses) + 1 && hits == old(hits)
    {
      if key !in entries {
        misses := misses + 1;
        return [];
      }
      MovedToFront(order, entries, key);
      hide Agrees, ToFront;
      order := ToFront(order, key);
      hits := hits + 1;
      factor := [entries[key].factor];
    }

    /** Stores an entry as the most recent and evicts from the back. What is left is the longest
        prefix of the updated recency order that fits the budget. */
    method Put(key: CacheKey, factor: V, size: nat)
      requires Valid()
      modifies this
      ensures Valid() && hits == old(hits) && misses == old(misses)
      ensures KeptBy(order, entries, ToFront(old(order), key), old(entries)[key := Entry(factor, size)], maxBytes)
      ensures evictions == old(evictions) + |ToFront(old(order), key)| - |order| >= old(evictions)
      ensures size <= maxBytes <==> key in entries
      ensures PartOf(entries, old(entries)[key := Entry(factor, size)])
      ensures evictions == old(evictions) ==> entries == old(entries)[key := Entry(factor, size)]
    {
      hide Agrees, SumBytes, Without, LongestFit, Restrict, NoRepeats, KeptBy;
      ghost var updated := ToFront(order, key);
      ghost var all := entries[key := Entry(factor, size)];
      PutBytes(order, entries, key, factor, size);
      bytes := bytes + size - SizeOf(entries, key);
      entries := entries[key := Entry(factor, size)];
      order := [key] + Without(order, key);
      Evict();
      OwnInsertion(order, entries, updated, all, maxBytes, key);
      NothingMadeUp(order, entries, updated, all, maxBytes);
    }

    /** Takes one element out of the list, the map and the byte count. */
    method RemoveLocked(i: nat)
      requires Consistent() && i < |order|
      modifies this`bytes, this`order, this`entries
      ensures Consistent() && order == Removed(old(order), i) && entries == old(entries) - {old(order)[i]} && bytes <= old(bytes)
    {
      hide SumBytes, Agrees;
      RemoveAt(order, entries, i);
      var key := order[i];
      order := Removed(order, i);
      bytes := bytes - entries[key].bytes;
      entries := entries - {key};
    }

    /** Removes entries from the back until the rest fits. */
    method Evict()
      requires Consistent()
      modifies this`bytes, this`order, this`entries, this`evictions
      ensures Valid() && KeptBy(order, entries, old(order), old(entries), maxBytes)
      ensures evictions == old(evictions) + |old(order)| - |order|
    {
      ghost var order0, entries0 := order, entries;
      AllKept(order, entries);
      hide SumBytes, Restrict, NoRepeats, Agrees, KeptBy, Removed;
      while bytes > maxBytes
        invariant Consistent() && |order| <= |order0| && Evicting(order, entries, order0, entries0, maxBytes)
        invariant evictions == old(evictions) + |order0| - |order|
        decreases |order|
      {
        NonEmpty(order, entries);
        EvictStep(order, entries, order0, entries0, maxBytes);
        RemoveLocked(|order| - 1);
        evictions := evictions + 1;
      }
      EvictEnd(order, entries, order0, entries0, maxBytes);
    }

    /** Drops every entry of a room group, from the front of the list to its end. */
    method InvalidateSignature(signature: Signature) returns (removed: nat)
      requires Valid()
      modifies this
      ensures Valid() && hits == old(hits) && misses == old(misses) && evictions == old(evictions)
      ensures order == KeepOthers(old(order), signature) && entries == Restrict(old(entries), order)
      ensures removed == |old(order)| - |order|
    {
      hide SumBytes, Restrict, Agrees, KeepOthers, Swept, Sweeping, Removed;
      removed := 0;
      ghost var order0, entries0 := order, entries;
      AllKept(order, entries);
      var i := 0;
      ghost var seen := 0;
      KeepOthersStart(order, entries, signature);
      while i < |order|
        invariant i <= |order| && Consistent() && bytes <= maxBytes
        invariant seen == i + removed && seen <= |order0| == |order| + removed && Sweeping(order, entries, order0, entries0, signature, seen, i)
        invariant hits == old(hits) && misses == old(misses) && evictions == old(evictions)
        decreases |order| - i
      {
        KeepOthersStep(order, entries, order0, entries0, signature, seen, i);
        if order[i].signature == signature {
          RemoveLocked(i);
          removed := removed + 1;
        } else {
          i := i + 1;
        }
        seen := seen + 1;
      }
      SweptAll(order, entries, order0, entries0, signature, i);
    }
  }

  /** What is left is a prefix of the old list with its entries, and one more would not fit. */
  ghost predicate Evicting<V>(order: seq<CacheKey>, entries: map<CacheKey, Entry<V>>, order0: seq<CacheKey>, entries0: map<CacheKey, Entry<V>>, maxBytes: nat) {
    && Agrees(order0, entries0) && |order| <= |order0| && order == order0[..|order|] && entries == Restrict(entries0, order)
    && (|order| < |order0| ==> SumBytes(order0[..|order| + 1], entries0) > maxBytes)
  }

  lemma EvictStep<V>(order: seq<CacheKey>, entries: map<CacheKey, Entry<V>>, order0: seq<CacheKey>, entries0: map<CacheKey, Entry<V>>, maxBytes: nat)
    requires Evicting(order, entries, order0, entries0, maxBytes) && order != [] && Agrees(order, entries) && SumBytes(order, entries) > maxBytes
    ensures var n := |order| - 1;
            Evicting(Removed(order, n), entries - {order[n]}, order0, entries0, maxBytes)
  {
    var n := |order| - 1;
    PrefixSum(order0, entries0, |order|);
    FrontIsDistinct(order, entries);
    RestrictedDrop(order, entries0);
    hide SumBytes, Restrict, NoRepeats, Agrees;
    assert Removed(order, n) == order0[..n];
    assert order0[..n] == order[..n];
  }

  lemma EvictEnd<V>(order: seq<CacheKey>, entries: map<CacheKey, Entry<V>>, order0: seq<CacheKey>, entries0: map<CacheKey, Entry<V>>, maxBytes: nat)
    requires Evicting(order, entries, order0, entries0, maxBytes) && SumBytes(order, entries) <= maxBytes
    ensures KeptBy(order, entries, order0, entries0, maxBytes)
  {
    PrefixSum(order0, entries0, |order|);
  }

  /** The first `m` old keys have been looked at, leaving `i` of them. */
  ghost predicate Swept(order: seq<CacheKey>, order0: seq<CacheKey>, signature: Signature, m: nat, i: nat) {
    m <= |order0| && order == KeepOthers(order0[..m], signature) + order0[m..] && i == |KeepOthers(order0[..m], signature)|
  }

  ghost predicate Sweeping<V>(order: seq<CacheKey>, entries: map<CacheKey, Entry<V>>, order0: seq<CacheKey>, entries0: map<CacheKey, Entry<V>>,
                              signature: Signature, m: nat, i: nat) {
    Swept(order, order0, signature, m, i) && entries == Restrict(entries0, order)
  }

  lemma SweptAll<V>(order: seq<CacheKey>, entries: map<CacheKey, Entry<V>>, order0: seq<CacheKey>, entries0: map<CacheKey, Entry<V>>, signature: Signature, i: nat)
    requires Sweeping(order, entries, order0, entries0, signature, |order0|, i)
    ensures order == KeepOthers(order0, signature) && entries == Restrict(entries0, order)
  {
    assert order0[..|order0|] == order0;
  }

  /** What is left is the longest prefix of `updated` that fits, with its entries. */
  ghost predicate KeptBy<V>(order: seq<CacheKey>, entries: map<CacheKey, Entry<V>>, updated: seq<CacheKey>, all: map<CacheKey, Entry<V>>, maxBytes: nat) {
    && LongestFit(updated, all, maxBytes, |order|) && order == updated[..|order|] && entries == Restrict(all, order)
  }

  lemma OwnInsertion<V>(order: seq<CacheKey>, entries: map<CacheKey, Entry<V>>, updated: seq<CacheKey>, all: map<CacheKey, Entry<V>>, maxBytes: nat, key: CacheKey)
    requires KeptBy(order, entries, updated, all, maxBytes) && updated != [] && updated[0] == key
    ensures SizeOf(all, key) <= maxBytes && key in all <==> key in entries
  {
    FitsAlone(updated, all, maxBytes, |order|);
    if key in order && order != [] {
      assert order[0] == key;
    }
  }

  ghost predicate PartOf<V>(small: map<CacheKey, Entry<V>>, large: map<CacheKey, Entry<V>>) {
    forall k | k in small :: k in large && small[k] == large[k]
  }

  /** What is left was there, and without evictions it is everything. */
  lemma NothingMadeUp<V>(order: seq<CacheKey>, entries: map<CacheKey, Entry<V>>, updated: seq<CacheKey>, all: map<CacheKey, Entry<V>>, maxBytes: nat)
    requires KeptBy(order, entries, updated, all, maxBytes) && Agrees(updated, all)
    ensures PartOf(entries, all) && |order| <= |updated|
    ensures |order| == |updated| ==> entries == all
  {
    AllKept(updated, all);
  }

  lemma AllKept<V>(order: seq<CacheKey>, entries: map<CacheKey, Entry<V>>)
    requires Agrees(order, entries)
    ensures order[..|order|] == order && Restrict(entries, order) == entries
  {
  }

  lemma FrontIsDistinct<V>(order: seq<CacheKey>, entries: map<CacheKey, Entry<V>>)
    requires Agrees(order, entries)
    ensures NoRepeats(order)
  {
  }

  lemma NonEmpty<V>(order: seq<CacheKey>, entries: map<CacheKey, Entry<V>>)
    requires SumBytes(order, entries) > 0
    ensures order != []
  {
  }

  lemma PrefixSum<V>(order: seq<CacheKey>, entries: map<CacheKey, Entry<V>>, n: nat)
    requires Agrees(order, entries) && n <= |order|
    ensures SumBytes(order[..n], Restrict(entries, order[..n])) == SumBytes(order[..n], entries)
  {
    SumFrame(order[..n], entries, Restrict(entries, order[..n]));
  }

  lemma KeepOthersStart<V>(order: seq<CacheKey>, entries: map<CacheKey, Entry<V>>, signature: Signature)
    requires Restrict(entries, order) == entries
    ensures Sweeping(order, entries, order, entries, signature, 0, 0)
  {
    assert order[0..] == order && order[..0] == [];
  }

  lemma SweptStep(order0: seq<CacheKey>, signature: Signature, m: nat, order: seq<CacheKey>, i: nat)
    requires m < |order0| && Swept(order, order0, signature, m, i)
    ensures i < |order| && order[i] == order0[m]
    ensures order[i].signature == signature ==> Swept(Removed(order, i), order0, signature, m + 1, i)
    ensures order[i].signature != signature ==> Swept(order, order0, signature, m + 1, i + 1)
  {
    assert order0[..m + 1][..m] == order0[..m];
    var kept := KeepOthers(order0[..m], signature);
    assert order[..i] == kept && order[i + 1..] == order0[m + 1..];
    assert order == kept + [order0[m]] + order0[m + 1..];
  }

  lemma KeepOthersStep<V>(order: seq<CacheKey>, entries: map<CacheKey, Entry<V>>, order0: seq<CacheKey>, entries0: map<CacheKey, Entry<V>>,
                          signature: Signature, m: nat, i: nat)
    requires m < |order0| && Sweeping(order, entries, order0, entries0, signature, m, i) && Agrees(order, entries)
    ensures i < |order|
    ensures order[i].signature == signature ==> Sweeping(Removed(order, i), entries - {order[i]}, order0, entries0, signature, m + 1, i)
    ensures order[i].signature != signature ==> Sweeping(order, entries, order0, entries0, signature, m + 1, i + 1)
  {
    SweptStep(order0, signature, m, order, i);
    hide Swept;
    RestrictedRemove(order, entries0, i);
  }

  lemma SplitMembers(order: seq<CacheKey>, i: nat)
    requires NoRepeats(order) && i < |order|
    ensures NoRepeats(Removed(order, i))
    ensures forall k :: k in Removed(order, i) <==> k in order && k != order[i]
  {
    assert order == order[..i] + [order[i]] + order[i + 1..];
  }

  lemma {:induction false} SumOfConcat<V>(a: seq<CacheKey>, b: seq<CacheKey>, entries: map<CacheKey, Entry<V>>)
    ensures SumBytes(a + b, entries) == SumBytes(a, entries) + SumBytes(b, entries)
    decreases |b|
  {
    if b == [] {
      assert a + b == a;
    } else {
      assert (a + b)[..|a + b| - 1] == a + b[..|b| - 1];
      SumOfConcat(a, b[..|b| - 1], entries);
    }
  }

  lemma RemoveAt<V>(order: seq<CacheKey>, entries: map<CacheKey, Entry<V>>, i: nat)
    requires Agrees(order, entries) && i < |order|
    ensures order[i] in entries
    ensures var rest := entries - {order[i]}; var left := Removed(order, i);
            Agrees(left, rest) && SumBytes(left, rest) + entries[order[i]].bytes == SumBytes(order, entries)
  {
    var key, left := order[i], Removed(order, i);
    SplitMembers(order, i);
    hide NoRepeats, SumBytes;
    assert order == order[..i] + ([key] + order[i + 1..]);
    SumOfConcat(order[..i], [key] + order[i + 1..], entries);
    SumOfCons(key, order[i + 1..], entries);
    SumOfConcat(order[..i], order[i + 1..], entries);
    SumFrame(left, entries, entries - {key});
  }

  lemma RestrictedRemove<V>(order: seq<CacheKey>, entries: map<CacheKey, Entry<V>>, i: nat)
    requires Agrees(order, Restrict(entries, order)) && i < |order|
    ensures Restrict(entries, order) - {order[i]} == Restrict(entries, Removed(order, i))
  {
    SplitMembers(order, i);
  }

  lemma MovedToFront<V>(order: seq<CacheKey>, entries: map<CacheKey, Entry<V>>, key: CacheKey)
    requires Agrees(order, entries) && key in entries
    ensures Agrees(ToFront(order, key), entries)
    ensures SumBytes(ToFront(order, key), entries) == SumBytes(order, entries)
  {
    WithoutKeepsDistinct(order, key);
    SumWithout(order, entries, key);
    SumOfCons(key, Without(order, key), entries);
  }

  lemma PutBytes<V>(order: seq<CacheKey>, entries: map<CacheKey, Entry<V>>, key: CacheKey, factor: V, size: nat)
    requires Agrees(order, entries)
    ensures var all := entries[key := Entry(factor, size)];
            && Agrees(ToFront(order, key), all)
            && SumBytes(ToFront(order, key), all) == SumBytes(order, entries) + size - SizeOf(entries, key)
    ensures SumBytes(order, entries) >= SizeOf(entries, key)
  {
    var all := entries[key := Entry(factor, size)];
    WithoutKeepsDistinct(order, key);
    SumWithout(order, entries, key);
    SumFrame(Without(order, key), entries, all);
    SumOfCons(key, Without(order, key), all);
  }
}
