/**
 Sorting by key, detecting repeated outpoints by sorting and scanning, and applying writes to a
 table in sorted order. `Sort` stands for the library's sort.
 */
module SortScan {
  import opened Types

  ghost predicate Ordered<T>(s: seq<T>, key: T -> nat) {
    forall i, j {:trigger s[i], s[j]} :: 0 <= i < j < |s| ==> key(s[i]) <= key(s[j])
  }

  function Insert<T>(s: seq<T>, x: T, key: T -> nat): seq<T> {
    if s == [] || key(s[|s| - 1]) <= key(x) then s + [x]
    else Insert(s[..|s| - 1], x, key) + [s[|s| - 1]]
  }

  lemma {:induction false} InsertAdds<T>(s: seq<T>, x: T, key: T -> nat)
    ensures multiset(Insert(s, x, key)) == multiset(s) + multiset{x}
  {
    if s != [] {
      assert s == s[..|s| - 1] + [s[|s| - 1]];
      InsertAdds(s[..|s| - 1], x, key);
    }
  }

  lemma OrderedLast<T>(s: seq<T>, last: T, key: T -> nat)
    requires Ordered(s, key) && forall y | y in s :: key(y) <= key(last)
    ensures Ordered(s + [last], key)
  {
  }

  lemma {:induction false} InsertOrdered<T>(s: seq<T>, x: T, key: T -> nat)
    requires Ordered(s, key)
    ensures Ordered(Insert(s, x, key), key)
  {
    if s == [] {
    } else if key(s[|s| - 1]) <= key(x) {
      OrderedLast(s, x, key);
    } else {
      var init, last := s[..|s| - 1], s[|s| - 1];
      InsertOrdered(init, x, key);
      InsertAdds(init, x, key);
      forall y | y in Insert(init, x, key)
        ensures key(y) <= key(last)
      {
        assert y in multiset(Insert(init, x, key));
        assert y == x || y in init;
      }
      OrderedLast(Insert(init, x, key), last, key);
    }
  }

  function Sort<T>(s: seq<T>, key: T -> nat): seq<T> {
    if s == [] then [] else Insert(Sort(s[..|s| - 1], key), s[|s| - 1], key)
  }

  /** Sorting yields an ordered rearrangement. */
  lemma {:induction false} SortSorts<T>(s: seq<T>, key: T -> nat)
    ensures Ordered(Sort(s, key), key) && multiset(Sort(s, key)) == multiset(s)
  {
    if s != [] {
      var init, last := s[..|s| - 1], s[|s| - 1];
      assert s == init + [last];
      SortSorts(init, key);
      InsertOrdered(Sort(init, key), last, key);
      InsertAdds(Sort(init, key), last, key);
    }
  }

  lemma SameMembers<T>(a: seq<T>, b: seq<T>)
    requires multiset(a) == multiset(b)
    ensures forall x :: x in a <==> x in b
    ensures ToSet(a) == ToSet(b)
  {
    forall x
      ensures x in a <==> x in b
    {
      assert x in multiset(a) <==> x in multiset(b);
    }
  }

  // ---------------------------------------------------------------- double spends

  ghost predicate Injective<T(!new)>(key: T -> nat) {
    forall x, y {:trigger key(x), key(y)} :: key(x) == key(y) ==> x == y
  }

  lemma {:induction false} DistinctIsMultiset<T>(s: seq<T>)
    ensures Distinct(s) <==> forall x :: multiset(s)[x] <= 1
  {
    if s != [] {
      var init, last := s[..|s| - 1], s[|s| - 1];
      assert s == init + [last];
      DistinctIsMultiset(init);
      if last in init {
        assert multiset(s)[last] > 1;
      } else if !Distinct(init) {
        var x :| multiset(init)[x] > 1;
        assert multiset(s)[x] > 1;
      } else {
        assert multiset(init)[last] == 0;
      }
    }
  }

  function Identity(k: nat): nat {
    k
  }

  function Keys(outpoints: seq<OutPoint>, key: OutPoint -> nat): seq<nat> {
    seq(|outpoints|, i requires 0 <= i < |outpoints| => key(outpoints[i]))
  }

  lemma SortKeepsDistinct(keys: seq<nat>)
    ensures Distinct(Sort(keys, Identity)) <==> Distinct(keys)
  {
    SortSorts(keys, Identity);
    DistinctIsMultiset(keys);
    DistinctIsMultiset(Sort(keys, Identity));
  }

  lemma KeysDistinct(outpoints: seq<OutPoint>, key: OutPoint -> nat)
    requires Injective(key)
    ensures Distinct(Keys(outpoints, key)) <==> Distinct(outpoints)
  {
    if Distinct(outpoints) {
      forall i, j | 0 <= i < j < |outpoints|
        ensures Keys(outpoints, key)[i] != Keys(outpoints, key)[j]
      {
      }
    } else {
      var i, j :| 0 <= i < j < |outpoints| && outpoints[i] == outpoints[j];
      assert Keys(outpoints, key)[i] == Keys(outpoints, key)[j];
    }
  }

  /** Sorts the fixed-width keys and compares neighbours: finds exactly the lists with a repeat. */
  method HasRepeat(outpoints: seq<OutPoint>, key: OutPoint -> nat) returns (repeated: bool)
    requires Injective(key)
    ensures repeated <==> !Distinct(outpoints)
  {
    var sorted := Sort(Keys(outpoints, key), Identity);
    SortSorts(Keys(outpoints, key), Identity);
    KeysDistinct(outpoints, key);
    SortKeepsDistinct(Keys(outpoints, key));
    var i := 1;
    while i < |sorted|
      invariant 1 <= i && forall j :: 0 < j < i && j < |sorted| ==> sorted[j - 1] < sorted[j]
    {
      assert Identity(sorted[i - 1]) <= Identity(sorted[i]);
      if sorted[i - 1] == sorted[i] {
        assert !Distinct(sorted);
        return true;
      }
      i := i + 1;
    }
    NeighboursDiffer(sorted);
    repeated := false;
  }

  lemma NeighboursDiffer(s: seq<nat>)
    requires Ordered(s, Identity) && forall j :: 0 < j < |s| ==> s[j - 1] < s[j]
    ensures Distinct(s)
  {
    forall i, j | 0 <= i < j < |s|
      ensures s[i] != s[j]
    {
      assert Identity(s[i]) <= Identity(s[j - 1]) || i == j - 1;
      assert s[j - 1] < s[j];
    }
  }

  // ----------------------------------------------------------------- table writes

  function PutAll<K, V>(m: map<K, V>, puts: seq<(K, V)>): map<K, V> {
    if puts == [] then m
    else PutAll(m, puts[..|puts| - 1])[puts[|puts| - 1].0 := puts[|puts| - 1].1]
  }

  /** Writes to the same key write the same value. */
  ghost predicate WritesAgree<K(!new), V(!new)>(puts: seq<(K, V)>) {
    forall p, q | p in puts && q in puts && p.0 == q.0 :: p.1 == q.1
  }

  lemma {:induction false} PutAllAt<K, V>(m: map<K, V>, puts: seq<(K, V)>, k: K)
    ensures (forall p | p in puts :: p.0 != k) ==> (k in PutAll(m, puts) <==> k in m) && (k in m ==> PutAll(m, puts)[k] == m[k])
    ensures (exists p | p in puts :: p.0 == k) ==> k in PutAll(m, puts) && (k, PutAll(m, puts)[k]) in puts
  {
    if puts != [] {
      var init, last := puts[..|puts| - 1], puts[|puts| - 1];
      assert puts == init + [last];
      PutAllAt(m, init, k);
    }
  }

  /** The order of consistent writes does not matter. */
  lemma PutAllReordered<K(!new), V(!new)>(m: map<K, V>, a: seq<(K, V)>, b: seq<(K, V)>)
    requires WritesAgree(a) && multiset(a) == multiset(b)
    ensures PutAll(m, a) == PutAll(m, b)
  {
    SameMembers(a, b);
    forall k
      ensures k in PutAll(m, a) <==> k in PutAll(m, b)
      ensures k in PutAll(m, a) ==> PutAll(m, a)[k] == PutAll(m, b)[k]
    {
      PutAllAt(m, a, k);
      PutAllAt(m, b, k);
    }
  }
}
