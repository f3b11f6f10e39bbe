/** The JavaScript array operations the pickers build on: `filter` and
    `some`, with the facts about them that the components' properties rest on. */
module JsArray {

  /** `sub` can be obtained from `s` by deleting elements (order preserved). */
  ghost predicate IsSubsequence<T>(sub: seq<T>, s: seq<T>)
    decreases |s|
  {
    if sub == [] then true
    else if s == [] then false
    else (sub[0] == s[0] && IsSubsequence(sub[1..], s[1..])) || IsSubsequence(sub, s[1..])
  }

  /** No element occurs twice. */
  predicate NoDuplicates<T(==)>(s: seq<T>) {
    forall i, j :: 0 <= i < j < |s| ==> s[i] != s[j]
  }

  /** `s.filter(p)`: the elements satisfying `p`, in their original order. */
  function Filter<T(==)>(s: seq<T>, p: T -> bool): (r: seq<T>)
    ensures IsSubsequence(r, s)
    ensures forall i :: 0 <= i < |r| ==> r[i] in s && p(r[i])
    ensures forall i :: 0 <= i < |s| && p(s[i]) ==> s[i] in r
  {
    if s == [] then []
    else if p(s[0]) then [s[0]] + Filter(s[1..], p)
    else Filter(s[1..], p)
  }

  /** Filtering keeps every occurrence of a passing element and none of a
      failing one: each value occurs in the result exactly as often as in
      the input when it passes, and not at all otherwise. */
  lemma {:induction false} FilterCounts<T>(s: seq<T>, p: T -> bool)
    ensures forall x :: x in multiset(s) ==>
      multiset(Filter(s, p))[x] == if p(x) then multiset(s)[x] else 0
    ensures forall x :: x !in multiset(s) ==> x !in Filter(s, p)
  {
    if s != [] {
      FilterCounts(s[1..], p);
      assert s == [s[0]] + s[1..];
      FilterCons(s[0], s[1..], p);
    }
  }

  /** `s.some(p)`: some element satisfies `p`. */
  function Any<T>(s: seq<T>, p: T -> bool): (r: bool)
    ensures r <==> exists i :: 0 <= i < |s| && p(s[i])
  {
    if s == [] then false
    else if p(s[0]) then true
    else
      var rest := Any(s[1..], p);
      assert forall i :: 0 < i < |s| ==> s[i] == s[1..][i - 1];
      rest
  }

  /** Filtering twice with the same predicate changes nothing more. */
  lemma {:induction false} FilterIdempotent<T>(s: seq<T>, p: T -> bool)
    ensures Filter(Filter(s, p), p) == Filter(s, p)
  {
    if s != [] {
      FilterIdempotent(s[1..], p);
      if p(s[0]) {
        assert Filter(s, p) == [s[0]] + Filter(s[1..], p);
        assert Filter(s, p)[1..] == Filter(s[1..], p);
      }
    }
  }

  /** When every element passes, filtering returns the array itself. */
  lemma {:induction false} FilterKeepsAll<T>(s: seq<T>, p: T -> bool)
    requires forall i :: 0 <= i < |s| ==> p(s[i])
    ensures Filter(s, p) == s
  {
    if s != [] {
      FilterKeepsAll(s[1..], p);
    }
  }

  /** Filtering distributes over concatenation. */
  lemma {:induction false} FilterAppend<T>(a: seq<T>, b: seq<T>, p: T -> bool)
    ensures Filter(a + b, p) == Filter(a, p) + Filter(b, p)
  {
    if a == [] {
      assert a + b == b;
    } else {
      var head := if p(a[0]) then [a[0]] else [];
      var x, y := Filter(a[1..], p), Filter(b, p);
      assert Filter(a + b, p) == head + (x + y) by {
        assert a + b == [a[0]] + (a[1..] + b);
        FilterCons(a[0], a[1..] + b, p);
        FilterAppend(a[1..], b, p);
      }
      assert Filter(a, p) == head + x by {
        assert [a[0]] + a[1..] == a;
        FilterCons(a[0], a[1..], p);
      }
      AppendAssociative(head, x, y);
    }
  }

  lemma AppendAssociative<T>(a: seq<T>, b: seq<T>, c: seq<T>)
    ensures a + (b + c) == (a + b) + c
  {
  }

  /** Filtering an array with a given first element. */
  lemma FilterCons<T>(x: T, s: seq<T>, p: T -> bool)
    ensures Filter([x] + s, p) == (if p(x) then [x] else []) + Filter(s, p)
  {
    assert ([x] + s)[1..] == s;
  }

  /** Filtering keeps an array free of duplicates. */
  lemma {:induction false} FilterNoDuplicates<T>(s: seq<T>, p: T -> bool)
    requires NoDuplicates(s)
    ensures NoDuplicates(Filter(s, p))
  {
    if s != [] {
      TailNoDuplicates(s);
      FilterNoDuplicates(s[1..], p);
      if p(s[0]) {
        var rest := Filter(s[1..], p);
        assert s[0] !in rest;
        ConsNoDuplicates(s[0], rest);
      }
    }
  }

  /** Dropping the head keeps an array free of duplicates, and the head is
      not repeated in the tail. */
  lemma TailNoDuplicates<T>(s: seq<T>)
    requires s != [] && NoDuplicates(s)
    ensures NoDuplicates(s[1..]) && s[0] !in s[1..]
  {
    forall i, j | 0 <= i < j < |s[1..]| ensures s[1..][i] != s[1..][j] {
      assert s[1..][i] == s[i + 1] && s[1..][j] == s[j + 1];
    }
    forall j | 0 <= j < |s[1..]| ensures s[1..][j] != s[0] {
      assert s[1..][j] == s[j + 1];
    }
  }

  /** Putting a new element in front keeps an array free of duplicates. */
  lemma ConsNoDuplicates<T>(x: T, rest: seq<T>)
    requires NoDuplicates(rest) && x !in rest
    ensures NoDuplicates([x] + rest)
  {
    var r := [x] + rest;
    forall i, j | 0 <= i < j < |r| ensures r[i] != r[j] {
      if i == 0 {
        assert r[j] == rest[j - 1];
      } else {
        assert r[i] == rest[i - 1] && r[j] == rest[j - 1];
      }
    }
  }

  /** The first `n` elements are in non-decreasing order of `key`. */
  ghost predicate SortedPrefix<T>(s: seq<T>, n: int, key: T -> real)
    requires 0 <= n <= |s|
  {
    forall k, m :: 0 <= k < m < n ==> key(s[k]) <= key(s[m])
  }

  /** Mid-insertion: the element being inserted sits at `j`; the elements
      left of it and those right of it (up to `i`) are each in order, every
      left one is at most every right one, and the inserted element is at
      most every right one. */
  ghost predicate Inserting<T>(s: seq<T>, j: int, i: int, key: T -> real)
    requires 0 <= j <= i < |s|
  {
    && (forall k, m :: 0 <= k < m < j ==> key(s[k]) <= key(s[m]))
    && (forall k, m :: j < k < m <= i ==> key(s[k]) <= key(s[m]))
    && (forall k, m :: 0 <= k < j < m <= i ==> key(s[k]) <= key(s[m]))
    && (forall m :: j < m <= i ==> key(s[j]) <= key(s[m]))
  }

  /** Exchanging the inserted element with a larger left neighbour keeps the shape. */
  lemma InsertingSwap<T>(s: seq<T>, j: int, i: int, key: T -> real)
    requires 0 < j <= i < |s|
    requires Inserting(s, j, i, key)
    requires key(s[j - 1]) > key(s[j])
    ensures Inserting(s[j - 1 := s[j]][j := s[j - 1]], j - 1, i, key)
  {
  }

  /** Once the left neighbour is no larger (or there is none), the prefix is sorted. */
  lemma InsertingDone<T>(s: seq<T>, j: int, i: int, key: T -> real)
    requires 0 <= j <= i < |s|
    requires Inserting(s, j, i, key)
    requires j == 0 || key(s[j - 1]) <= key(s[j])
    ensures SortedPrefix(s, i + 1, key)
  {
    forall k, m | 0 <= k < m <= i ensures key(s[k]) <= key(s[m]) {
      if m == j && k < j - 1 {
        assert key(s[k]) <= key(s[j - 1]);
      }
    }
  }

  /** Exchanging two neighbours keeps the same elements. */
  lemma SwapPermutes<T>(s: seq<T>, j: int)
    requires 0 < j < |s|
    ensures multiset(s[j - 1 := s[j]][j := s[j - 1]]) == multiset(s)
  {
  }

  /** The elements of `s` whose key is `k`, in their order in `s`. */
  function WithKey<T>(s: seq<T>, key: T -> real, k: real): (r: seq<T>)
    ensures |r| <= |s|
    ensures forall i :: 0 <= i < |r| ==> key(r[i]) == k
  {
    if s == [] then []
    else if key(s[0]) == k then [s[0]] + WithKey(s[1..], key, k)
    else WithKey(s[1..], key, k)
  }

  /** `t` orders the elements of every key exactly as `s` does: the
      guarantee of a stable sort. */
  ghost predicate StableFor<T>(t: seq<T>, s: seq<T>, key: T -> real) {
    forall k :: WithKey(t, key, k) == WithKey(s, key, k)
  }

  lemma {:induction false} WithKeyAppend<T>(a: seq<T>, b: seq<T>, key: T -> real, k: real)
    ensures WithKey(a + b, key, k) == WithKey(a, key, k) + WithKey(b, key, k)
    decreases |a|
  {
    if a == [] {
      assert a + b == b;
    } else {
      assert (a + b)[1..] == a[1..] + b;
      WithKeyAppend(a[1..], b, key, k);
    }
  }

  /** Picking elements by one key value or by another picks the same
      elements when the two tests agree on every element. */
  lemma {:induction false} WithKeyRelabel<T>(s: seq<T>, key1: T -> real, k1: real, key2: T -> real, k2: real)
    requires forall i :: 0 <= i < |s| ==> (key1(s[i]) == k1 <==> key2(s[i]) == k2)
    ensures WithKey(s, key1, k1) == WithKey(s, key2, k2)
    decreases |s|
  {
    if s != [] {
      WithKeyRelabel(s[1..], key1, k1, key2, k2);
    }
  }

  /** Exchanging two neighbours whose keys differ keeps every key's order. */
  lemma SwapStable<T>(s: seq<T>, j: int, key: T -> real)
    requires 0 < j < |s|
    requires key(s[j - 1]) != key(s[j])
    ensures StableFor(s[j - 1 := s[j]][j := s[j - 1]], s, key)
  {
    var t := s[j - 1 := s[j]][j := s[j - 1]];
    var pre, post := s[..j - 1], s[j + 1..];
    assert s == pre + ([s[j - 1], s[j]] + post);
    assert t == pre + ([s[j], s[j - 1]] + post);
    forall k ensures WithKey(t, key, k) == WithKey(s, key, k) {
      WithKeyAppend(pre, [s[j - 1], s[j]] + post, key, k);
      WithKeyAppend([s[j - 1], s[j]], post, key, k);
      WithKeyAppend(pre, [s[j], s[j - 1]] + post, key, k);
      WithKeyAppend([s[j], s[j - 1]], post, key, k);
      assert [s[j - 1], s[j]][1..] == [s[j]];
      assert [s[j], s[j - 1]][1..] == [s[j - 1]];
    }
  }

  /** Exchanges `a[j - 1]` and `a[j]`. */
  method SwapNeighbours<T>(a: array<T>, j: int)
    requires 0 < j < a.Length
    modifies a
    ensures a[..] == old(a[..])[j - 1 := old(a[j])][j := old(a[j - 1])]
  {
    a[j - 1], a[j] := a[j], a[j - 1];
  }

  /** One pass of insertion: moves `a[i]` left past every element of the
      sorted prefix `a[..i]` with a larger key, exchanging neighbours. */
  method InsertIntoPrefix<T(==)>(a: array<T>, i: int, key: T -> real)
    requires 0 <= i < a.Length
    requires SortedPrefix(a[..], i, key)
    modifies a
    ensures SortedPrefix(a[..], i + 1, key)
    ensures multiset(a[..]) == multiset(old(a[..]))
    ensures SortedPrefix(old(a[..]), i + 1, key) ==> a[..] == old(a[..])
    ensures StableFor(a[..], old(a[..]), key)
  {
    var j := i;
    while j > 0 && key(a[j - 1]) - key(a[j]) > 0.0
      invariant 0 <= j <= i
      invariant Inserting(a[..], j, i, key)
      invariant multiset(a[..]) == multiset(old(a[..]))
      invariant j == i ==> a[..] == old(a[..])
      invariant SortedPrefix(old(a[..]), i + 1, key) ==> j == i
      invariant StableFor(a[..], old(a[..]), key)
    {
      ghost var before := a[..];
      InsertingSwap(before, j, i, key);
      SwapPermutes(before, j);
      SwapStable(before, j, key);
      SwapNeighbours(a, j);
      j := j - 1;
    }
    InsertingDone(a[..], j, i, key);
  }

  /** `a.sort((x, y) => key(x) - key(y))` as an insertion sort: the result is
      a permutation in non-decreasing key order, elements with equal keys keep
      their relative order (the sort is stable, as `Array.prototype.sort` is
      required to be), and an array already in that order is left exactly as
      it was. */
  method SortByKey<T(==)>(a: array<T>, key: T -> real)
    modifies a
    ensures forall k, m :: 0 <= k < m < a.Length ==> key(a[k]) <= key(a[m])
    ensures multiset(a[..]) == multiset(old(a[..]))
    ensures SortedPrefix(old(a[..]), a.Length, key) ==> a[..] == old(a[..])
    ensures StableFor(a[..], old(a[..]), key)
  {
    var i := 0;
    while i < a.Length
      invariant 0 <= i <= a.Length
      invariant SortedPrefix(a[..], i, key)
      invariant multiset(a[..]) == multiset(old(a[..]))
      invariant SortedPrefix(old(a[..]), a.Length, key) ==> a[..] == old(a[..])
      invariant StableFor(a[..], old(a[..]), key)
    {
      InsertIntoPrefix(a, i, key);
      i := i + 1;
    }
  }
}
