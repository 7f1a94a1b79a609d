/** `Array.prototype.sort` with a numeric key: stable, oldest key first. */
module StableSort {
  /** Insert `x` behind every element whose key is not greater. */
  function Insert<T>(key: T -> int, sorted: seq<T>, x: T): (r: seq<T>)
    ensures |r| == |sorted| + 1
    decreases |sorted|
  {
    if sorted == [] || key(sorted[|sorted| - 1]) <= key(x) then sorted + [x]
    else Insert(key, sorted[..|sorted| - 1], x) + [sorted[|sorted| - 1]]
  }

  function Sort<T>(key: T -> int, s: seq<T>): (r: seq<T>)
    ensures |r| == |s|
    decreases |s|
  {
    if s == [] then [] else Insert(key, Sort(key, s[..|s| - 1]), s[|s| - 1])
  }

  predicate Sorted<T>(key: T -> int, s: seq<T>) {
    forall i, j :: 0 <= i < j < |s| ==> key(s[i]) <= key(s[j])
  }

  /** The elements of one key, in order. */
  function AtKey<T>(key: T -> int, s: seq<T>, k: int): seq<T>
    decreases |s|
  {
    if s == [] then []
    else
      var rest := AtKey(key, s[..|s| - 1], k);
      if key(s[|s| - 1]) == k then rest + [s[|s| - 1]] else rest
  }

  lemma AtKeyLast<T>(key: T -> int, s: seq<T>, x: T, k: int)
    ensures AtKey(key, s + [x], k) == AtKey(key, s, k) + (if key(x) == k then [x] else [])
  {
    assert (s + [x])[..|s|] == s;
    assert AtKey(key, s, k) + [] == AtKey(key, s, k);
  }

  lemma {:induction false} InsertMembers<T(!new)>(key: T -> int, sorted: seq<T>, x: T)
    ensures forall y :: y in Insert(key, sorted, x) <==> y in sorted || y == x
    decreases |sorted|
  {
    if sorted != [] && key(x) < key(sorted[|sorted| - 1]) {
      InsertMembers(key, sorted[..|sorted| - 1], x);
      assert sorted == sorted[..|sorted| - 1] + [sorted[|sorted| - 1]];
    }
  }

  lemma {:induction false} InsertMultiset<T>(key: T -> int, sorted: seq<T>, x: T)
    ensures multiset(Insert(key, sorted, x)) == multiset(sorted) + multiset{x}
    decreases |sorted|
  {
    if sorted != [] && key(x) < key(sorted[|sorted| - 1]) {
      InsertMultiset(key, sorted[..|sorted| - 1], x);
      assert sorted == sorted[..|sorted| - 1] + [sorted[|sorted| - 1]];
    }
  }

  lemma {:induction false} InsertSorts<T(!new)>(key: T -> int, sorted: seq<T>, x: T)
    requires Sorted(key, sorted)
    ensures Sorted(key, Insert(key, sorted, x))
    decreases |sorted|
  {
    if sorted != [] && key(x) < key(sorted[|sorted| - 1]) {
      var front, last := sorted[..|sorted| - 1], sorted[|sorted| - 1];
      InsertSorts(key, front, x);
      InsertMembers(key, front, x);
      var r := Insert(key, front, x);
      forall i | 0 <= i < |r|
        ensures key(r[i]) <= key(last)
      {
        assert r[i] in r;
      }
    }
  }

  lemma {:induction false} InsertAtKey<T(!new)>(key: T -> int, sorted: seq<T>, x: T, k: int)
    requires Sorted(key, sorted)
    ensures AtKey(key, Insert(key, sorted, x), k) == AtKey(key, sorted, k) + (if key(x) == k then [x] else [])
    decreases |sorted|
  {
    if sorted == [] || key(sorted[|sorted| - 1]) <= key(x) {
      AtKeyLast(key, sorted, x, k);
    } else {
      var front, last := sorted[..|sorted| - 1], sorted[|sorted| - 1];
      InsertAtKey(key, front, x, k);
      AtKeyLast(key, Insert(key, front, x), last, k);
      assert sorted == front + [last];
      AtKeyLast(key, front, last, k);
      if key(x) == k && key(last) == k {
        assert false;
      }
    }
  }

  /** The sort is the stable one: in key order, the same elements, and those of each key in their first order. */
  lemma {:induction false} SortIsStable<T(!new)>(key: T -> int, s: seq<T>, k: int)
    ensures Sorted(key, Sort(key, s))
    ensures multiset(Sort(key, s)) == multiset(s)
    ensures AtKey(key, Sort(key, s), k) == AtKey(key, s, k)
    decreases |s|
  {
    if s != [] {
      var front, last := s[..|s| - 1], s[|s| - 1];
      SortIsStable(key, front, k);
      InsertSorts(key, Sort(key, front), last);
      InsertMultiset(key, Sort(key, front), last);
      InsertAtKey(key, Sort(key, front), last, k);
      assert s == front + [last];
      AtKeyLast(key, front, last, k);
    }
  }

  lemma {:induction false} SortMembers<T(!new)>(key: T -> int, s: seq<T>)
    ensures forall y :: y in Sort(key, s) <==> y in s
    decreases |s|
  {
    if s != [] {
      SortMembers(key, s[..|s| - 1]);
      InsertMembers(key, Sort(key, s[..|s| - 1]), s[|s| - 1]);
      assert s == s[..|s| - 1] + [s[|s| - 1]];
    }
  }

  /** A sorted sequence stays as it is. */
  lemma {:induction false} SortKeepsSorted<T>(key: T -> int, s: seq<T>)
    requires Sorted(key, s)
    ensures Sort(key, s) == s
    decreases |s|
  {
    if s != [] {
      var front, last := s[..|s| - 1], s[|s| - 1];
      SortKeepsSorted(key, front);
      InsertLatest(key, front, last);
      assert s == front + [last];
    }
  }

  lemma InsertLatest<T>(key: T -> int, sorted: seq<T>, x: T)
    requires sorted != [] ==> key(sorted[|sorted| - 1]) <= key(x)
    ensures Insert(key, sorted, x) == sorted + [x]
  {
  }

  /** `s[k]` has the greatest key, and among equals is the one furthest down. */
  predicate IsLatest<T>(key: T -> int, s: seq<T>, k: nat) {
    && k < |s|
    && (forall i :: 0 <= i < k ==> key(s[i]) <= key(s[k]))
    && (forall i :: k < i < |s| ==> key(s[i]) < key(s[k]))
  }

  lemma {:induction false} InsertEnd<T>(key: T -> int, sorted: seq<T>, x: T)
    ensures var r := Insert(key, sorted, x);
      r[|sorted|] == if sorted == [] || key(sorted[|sorted| - 1]) <= key(x) then x else sorted[|sorted| - 1]
  {
  }

  /** Sorted last means latest. */
  lemma {:induction false} SortEndsWithLatest<T>(key: T -> int, s: seq<T>, k: nat)
    requires IsLatest(key, s, k)
    ensures Sort(key, s)[|s| - 1] == s[k]
    decreases |s|
  {
    var front, last := s[..|s| - 1], s[|s| - 1];
    InsertEnd(key, Sort(key, front), last);
    if k < |front| {
      SortEndsWithLatest(key, front, k);
    } else if front != [] {
      SortEnd(key, front);
    }
  }

  lemma {:induction false} SortEnd<T>(key: T -> int, s: seq<T>)
    requires s != []
    ensures Sort(key, s)[|s| - 1] in s
    decreases |s|
  {
    var front, last := s[..|s| - 1], s[|s| - 1];
    InsertEnd(key, Sort(key, front), last);
    if front != [] {
      SortEnd(key, front);
    }
  }
}
