/** The array operations the pages use, on sequences: `filter`, `slice(0, n)`
    and `sort` with a numeric comparator. `sort` is stable, as section
    23.1.3.30 of ECMA-262 (2023 edition) requires; it is modelled as an
    insertion sort by an integer key, both as a function and as an in-place
    method over an array. */
module Lists {
  import opened Types

  // ---------------------------------------------------------------- filter

  /** `s.filter(p)`: the elements satisfying `p`, in their original order. */
  function Filter<T(!new)>(s: seq<T>, p: T -> bool): (r: seq<T>)
    ensures |r| <= |s|
    ensures forall x :: x in r <==> x in s && p(x)
  {
    if s == [] then [] else (if p(s[0]) then [s[0]] else []) + Filter(s[1..], p)
  }

  lemma {:induction false} FilterConcat<T(!new)>(a: seq<T>, b: seq<T>, p: T -> bool)
    ensures Filter(a + b, p) == Filter(a, p) + Filter(b, p)
  {
    if a == [] {
      assert a + b == b;
    } else {
      assert (a + b)[1..] == a[1..] + b;
      FilterConcat(a[1..], b, p);
    }
  }

  /** Filtering a sequence extended by one element. */
  lemma FilterSnoc<T(!new)>(s: seq<T>, x: T, p: T -> bool)
    ensures Filter(s + [x], p) == Filter(s, p) + (if p(x) then [x] else [])
  {
    FilterConcat(s, [x], p);
  }

  /** Filtering twice is filtering once by the conjunction. */
  lemma {:induction false} FilterFilter<T(!new)>(s: seq<T>, p: T -> bool, q: T -> bool, pq: T -> bool)
    requires forall x :: pq(x) == (p(x) && q(x))
    ensures Filter(Filter(s, p), q) == Filter(s, pq)
  {
    if s != [] {
      FilterFilter(s[1..], p, q, pq);
      FilterConcat(if p(s[0]) then [s[0]] else [], Filter(s[1..], p), q);
    }
  }

  /** Filters by conditions that agree everywhere give the same result. */
  lemma {:induction false} FilterSame<T(!new)>(s: seq<T>, p: T -> bool, q: T -> bool)
    requires forall x :: p(x) == q(x)
    ensures Filter(s, p) == Filter(s, q)
  {
    if s != [] {
      FilterSame(s[1..], p, q);
    }
  }

  /** A predicate that holds everywhere keeps the whole sequence. */
  lemma {:induction false} FilterAll<T(!new)>(s: seq<T>, p: T -> bool)
    requires forall x :: x in s ==> p(x)
    ensures Filter(s, p) == s
  {
    if s != [] {
      FilterAll(s[1..], p);
    }
  }

  /** Filtering by a predicate and by its negation splits the sequence: the
      two parts hold every element exactly as often as the sequence does. */
  lemma {:induction false} FilterSplit<T(!new)>(s: seq<T>, p: T -> bool, np: T -> bool)
    requires forall x :: np(x) == !p(x)
    ensures multiset(Filter(s, p)) + multiset(Filter(s, np)) == multiset(s)
    ensures |Filter(s, p)| + |Filter(s, np)| == |s|
  {
    if s != [] {
      FilterSplit(s[1..], p, np);
      assert s == [s[0]] + s[1..];
    }
  }

  /** The positions of `s` whose element satisfies `p`. */
  ghost function IndicesWhere<T>(s: seq<T>, p: T -> bool): set<int>
  {
    set i | 0 <= i < |s| && p(s[i])
  }

  lemma IndicesWhereSnoc<T>(s: seq<T>, p: T -> bool)
    requires s != []
    ensures IndicesWhere(s, p) ==
      IndicesWhere(s[..|s| - 1], p) + (if p(s[|s| - 1]) then {|s| - 1} else {})
  {
    var n := |s| - 1;
    forall i ensures i in IndicesWhere(s, p) <==>
      i in IndicesWhere(s[..n], p) + (if p(s[n]) then {n} else {})
    {
      if 0 <= i < n {
        assert s[..n][i] == s[i];
      }
    }
  }

  /** `s.filter(p).length` is the number of positions satisfying `p`. */
  lemma {:induction false} FilterLengthCountsIndices<T(!new)>(s: seq<T>, p: T -> bool)
    ensures |Filter(s, p)| == |IndicesWhere(s, p)|
    decreases |s|
  {
    if s != [] {
      var n := |s| - 1;
      var init := s[..n];
      FilterLengthCountsIndices(init, p);
      assert s == init + [s[n]];
      FilterSnoc(init, s[n], p);
      IndicesWhereSnoc(s, p);
      assert n !in IndicesWhere(init, p);
    }
  }

  // ------------------------------------------------------------- subsequence

  /** `idx` lists strictly increasing positions of `s` whose elements are `r`. */
  ghost predicate EmbeddedAt<T>(r: seq<T>, s: seq<T>, idx: seq<int>)
  {
    && |idx| == |r|
    && (forall k :: 0 <= k < |idx| ==> 0 <= idx[k] < |s| && s[idx[k]] == r[k])
    && (forall k, l :: 0 <= k < l < |idx| ==> idx[k] < idx[l])
  }

  /** `r` is obtained from `s` by deleting elements, keeping the order. */
  ghost predicate IsSubsequence<T>(r: seq<T>, s: seq<T>)
  {
    exists idx :: EmbeddedAt(r, s, idx)
  }

  /** The positions of `s` that `Filter` keeps. */
  lemma {:induction false} FilterEmbedding<T(!new)>(s: seq<T>, p: T -> bool) returns (idx: seq<int>)
    ensures EmbeddedAt(Filter(s, p), s, idx)
    decreases |s|
  {
    if s == [] {
      idx := [];
    } else {
      var n := |s| - 1;
      var init := s[..n];
      var before := FilterEmbedding(init, p);
      assert s == init + [s[n]];
      FilterSnoc(init, s[n], p);
      idx := before + if p(s[n]) then [n] else [];
      forall k | 0 <= k < |before| ensures s[before[k]] == init[before[k]] {
      }
    }
  }

  /** Rearranging a sequence does not change how many of its elements a
      filter keeps. */
  lemma {:induction false} FilterCountPermutation<T(!new)>(s: seq<T>, t: seq<T>, p: T -> bool)
    requires multiset(s) == multiset(t)
    ensures |Filter(s, p)| == |Filter(t, p)|
    decreases |s|
  {
    if s == [] {
      assert |t| == |multiset(t)| == 0;
    } else {
      var x := s[0];
      assert x in multiset(t);
      var j :| 0 <= j < |t| && t[j] == x;
      var rest := t[..j] + t[j + 1..];
      assert t == t[..j] + ([x] + t[j + 1..]);
      assert multiset(rest) == multiset(t) - multiset{x};
      assert s == [x] + s[1..];
      assert multiset(s[1..]) == multiset(s) - multiset{x};
      FilterCountPermutation(s[1..], rest, p);
      FilterConcat([x], s[1..], p);
      FilterConcat(t[..j], [x] + t[j + 1..], p);
      FilterConcat([x], t[j + 1..], p);
      FilterConcat(t[..j], t[j + 1..], p);
    }
  }

  /** `filter` keeps the relative order of what it keeps. */
  lemma FilterIsSubsequence<T(!new)>(s: seq<T>, p: T -> bool)
    ensures IsSubsequence(Filter(s, p), s)
  {
    var idx := FilterEmbedding(s, p);
  }

  // ------------------------------------------------------------------- slice

  /** `s.slice(0, n)`. */
  function Take<T>(s: seq<T>, n: nat): (r: seq<T>)
  {
    if |s| <= n then s else s[..n]
  }

  lemma TakeIsPrefix<T>(s: seq<T>, n: nat)
    ensures |Take(s, n)| == if |s| <= n then |s| else n
    ensures Take(s, n) == s[..|Take(s, n)|]
  {
  }

  // -------------------------------------------------------------------- find

  /** `s.find(p)`: the first element satisfying `p`, if there is one. */
  function Find<T>(s: seq<T>, p: T -> bool): (r: Option<T>)
    ensures r.None? <==> forall i :: 0 <= i < |s| ==> !p(s[i])
    ensures r.Some? ==> p(r.value) && r.value in s
  {
    if s == [] then None
    else if p(s[0]) then Some(s[0])
    else
      var r := Find(s[1..], p);
      assert forall i :: 1 <= i < |s| ==> s[i] == s[1..][i - 1];
      r
  }

  /** What `find` returns is the element at the first position satisfying `p`. */
  lemma {:induction false} FindFirst<T>(s: seq<T>, p: T -> bool, i: int)
    requires 0 <= i < |s| && p(s[i])
    requires forall j :: 0 <= j < i ==> !p(s[j])
    ensures Find(s, p) == Some(s[i])
  {
    if i > 0 {
      FindFirst(s[1..], p, i - 1);
    }
  }

  // -------------------------------------------------------------------- sort

  /** Ascending by `key`. */
  ghost predicate SortedBy<T>(s: seq<T>, key: T -> int)
  {
    forall i, j :: 0 <= i < j < |s| ==> key(s[i]) <= key(s[j])
  }

  /** Insert `x` into `t`, after every element whose key is at most `x`'s
      counted from the right: the shifting step of an insertion sort. */
  function Insert<T>(t: seq<T>, x: T, key: T -> int): (r: seq<T>)
    ensures |r| == |t| + 1
  {
    if t == [] || key(t[|t| - 1]) <= key(x) then t + [x]
    else Insert(t[..|t| - 1], x, key) + [t[|t| - 1]]
  }

  lemma {:induction false} InsertPermutes<T>(t: seq<T>, x: T, key: T -> int)
    ensures multiset(Insert(t, x, key)) == multiset(t) + multiset{x}
    decreases |t|
  {
    if !(t == [] || key(t[|t| - 1]) <= key(x)) {
      var init := t[..|t| - 1];
      InsertPermutes(init, x, key);
      assert t == init + [t[|t| - 1]];
    }
  }

  /** `s.sort((a, b) => key(a) - key(b))`: a stable sort ascending by `key`,
      inserting the elements from left to right. */
  function SortByKey<T>(s: seq<T>, key: T -> int): (r: seq<T>)
    ensures |r| == |s|
  {
    if s == [] then [] else Insert(SortByKey(s[..|s| - 1], key), s[|s| - 1], key)
  }

  /** The sort is a permutation of its input. */
  lemma {:induction false} SortByKeyPermutes<T>(s: seq<T>, key: T -> int)
    ensures multiset(SortByKey(s, key)) == multiset(s)
    decreases |s|
  {
    if s != [] {
      var init := s[..|s| - 1];
      SortByKeyPermutes(init, key);
      InsertPermutes(SortByKey(init, key), s[|s| - 1], key);
      assert s == init + [s[|s| - 1]];
    }
  }

  lemma {:induction false} InsertSorted<T>(t: seq<T>, x: T, key: T -> int)
    requires SortedBy(t, key)
    ensures SortedBy(Insert(t, x, key), key)
    decreases |t|
  {
    if t != [] && key(t[|t| - 1]) > key(x) {
      var init := t[..|t| - 1];
      InsertSorted(init, x, key);
      var r := Insert(init, x, key);
      InsertPermutes(init, x, key);
      assert forall k :: 0 <= k < |r| ==> key(r[k]) <= key(t[|t| - 1]) by {
        forall k | 0 <= k < |r| ensures key(r[k]) <= key(t[|t| - 1]) {
          assert r[k] in multiset(r);
          if r[k] != x {
            assert r[k] in multiset(init);
            var m :| 0 <= m < |init| && init[m] == r[k];
            assert init[m] == t[m];
          }
        }
      }
    }
  }

  /** The sort produces a sequence ascending by key. */
  lemma {:induction false} SortByKeySorted<T>(s: seq<T>, key: T -> int)
    ensures SortedBy(SortByKey(s, key), key)
    decreases |s|
  {
    if s != [] {
      SortByKeySorted(s[..|s| - 1], key);
      InsertSorted(SortByKey(s[..|s| - 1], key), s[|s| - 1], key);
    }
  }

  /** The elements of `s` whose key is `k`, in order. */
  function KeyClass<T>(s: seq<T>, key: T -> int, k: int): seq<T>
  {
    if s == [] then [] else (if key(s[0]) == k then [s[0]] else []) + KeyClass(s[1..], key, k)
  }

  lemma {:induction false} KeyClassConcat<T>(a: seq<T>, b: seq<T>, key: T -> int, k: int)
    ensures KeyClass(a + b, key, k) == KeyClass(a, key, k) + KeyClass(b, key, k)
  {
    if a == [] {
      assert a + b == b;
    } else {
      var head := if key(a[0]) == k then [a[0]] else [];
      assert (a + b)[0] == a[0] && (a + b)[1..] == a[1..] + b;
      KeyClassConcat(a[1..], b, key, k);
      assert KeyClass(a + b, key, k) == head + (KeyClass(a[1..], key, k) + KeyClass(b, key, k));
      assert KeyClass(a, key, k) == head + KeyClass(a[1..], key, k);
    }
  }

  /** Elements with equal keys keep their relative order: `r` restricted to
      any one key is `s` restricted to that key. */
  ghost predicate StableWrt<T>(r: seq<T>, s: seq<T>, key: T -> int)
  {
    forall k :: KeyClass(r, key, k) == KeyClass(s, key, k)
  }

  /** Insertion places `x` after every element of its own key. */
  lemma {:induction false} InsertKeyClass<T>(t: seq<T>, x: T, key: T -> int, k: int)
    ensures KeyClass(Insert(t, x, key), key, k) == KeyClass(t, key, k) + KeyClass([x], key, k)
    decreases |t|
  {
    if t == [] || key(t[|t| - 1]) <= key(x) {
      KeyClassConcat(t, [x], key, k);
    } else {
      var init, last := t[..|t| - 1], t[|t| - 1];
      assert t == init + [last];
      InsertKeyClass(init, x, key, k);
      KeyClassConcat(Insert(init, x, key), [last], key, k);
      KeyClassConcat(init, [last], key, k);
    }
  }

  /** The sort is stable. */
  lemma {:induction false} SortByKeyStable<T>(s: seq<T>, key: T -> int)
    ensures StableWrt(SortByKey(s, key), s, key)
    decreases |s|
  {
    if s != [] {
      var init, last := s[..|s| - 1], s[|s| - 1];
      SortByKeyStable(init, key);
      forall k ensures KeyClass(SortByKey(s, key), key, k) == KeyClass(s, key, k) {
        InsertKeyClass(SortByKey(init, key), last, key, k);
        assert s == init + [last];
        KeyClassConcat(init, [last], key, k);
      }
    }
  }

  /** Moving the insertion point of `x` one place to the left, past an
      element whose key exceeds `x`'s, does not change the result. */
  lemma InsertShift<T>(p: seq<T>, j: int, x: T, key: T -> int)
    requires 0 < j <= |p| && key(p[j - 1]) > key(x)
    ensures Insert(p[..j], x, key) + p[j..] == Insert(p[..j - 1], x, key) + p[j - 1..]
  {
    var init := Insert(p[..j - 1], x, key);
    assert p[..j][..j - 1] == p[..j - 1];
    assert Insert(p[..j], x, key) == init + [p[j - 1]];
    assert p[j - 1..] == [p[j - 1]] + p[j..];
    assert init + [p[j - 1]] + p[j..] == init + ([p[j - 1]] + p[j..]);
  }

  /** Where the element to its left has a key at most `x`'s, `x` goes here. */
  lemma InsertStop<T>(p: seq<T>, j: int, x: T, key: T -> int)
    requires 0 <= j <= |p| && (j == 0 || key(p[j - 1]) <= key(x))
    ensures Insert(p[..j], x, key) == p[..j] + [x]
  {
  }

  /** Swapping `x` with its left neighbour moves it one place left. */
  lemma SwapLeft<T>(p: seq<T>, j: int, x: T, rest: seq<T>)
    requires 0 < j <= |p|
    ensures (p[..j] + [x] + p[j..] + rest)[j - 1 := x][j := p[j - 1]] == p[..j - 1] + [x] + p[j - 1..] + rest
  {
    var before := p[..j] + [x] + p[j..] + rest;
    var after := p[..j - 1] + [x] + p[j - 1..] + rest;
    assert |before[j - 1 := x][j := p[j - 1]]| == |after|;
    forall k | 0 <= k < |after|
      ensures before[j - 1 := x][j := p[j - 1]][k] == after[k]
    {
    }
  }

  /** Once the loop stops, the array holds `Insert(p, x, key)` followed by
      the untouched rest. */
  lemma InsertAt<T>(a: array<T>, p: seq<T>, j: int, x: T, key: T -> int, rest: seq<T>)
    requires 0 <= j <= |p| && (j == 0 || key(p[j - 1]) <= key(x))
    requires a[..] == p[..j] + [x] + p[j..] + rest
    requires Insert(p, x, key) == Insert(p[..j], x, key) + p[j..]
    ensures a[..|p| + 1] == Insert(p, x, key)
    ensures a[|p| + 1..] == rest
  {
    InsertStop(p, j, x, key);
    assert a[..] == Insert(p, x, key) + rest;
    assert a[..|p| + 1] == a[..][..|p| + 1];
  }

  /** One step of the in-place insertion sort: swap `a[i]` leftwards past
      the elements of the sorted prefix `a[..i]` whose key exceeds its own. */
  method InsertInPlace<T>(a: array<T>, i: nat, key: T -> int)
    requires i < a.Length
    modifies a
    ensures a[..i + 1] == Insert(old(a[..i]), old(a[i]), key)
    ensures a[i + 1..] == old(a[i + 1..])
  {
    var x := a[i];
    ghost var p := a[..i];
    ghost var rest := a[i + 1..];
    var j := i;
    assert p[..j] == p && p[j..] == [];
    assert a[..] == p[..j] + [x] + p[j..] + rest;
    while j > 0 && key(a[j - 1]) > key(x)
      invariant 0 <= j <= i
      invariant a[..] == p[..j] + [x] + p[j..] + rest
      invariant Insert(p, x, key) == Insert(p[..j], x, key) + p[j..]
    {
      InsertShift(p, j, x, key);
      assert Insert(p, x, key) == Insert(p[..j - 1], x, key) + p[j - 1..];
      SwapLeft(p, j, x, rest);
      ghost var before := a[..];
      assert a[j] == x && a[j - 1] == p[j - 1];
      a[j - 1], a[j] := a[j], a[j - 1];
      assert a[..] == before[j - 1 := x][j := p[j - 1]];
      j := j - 1;
    }
    InsertAt(a, p, j, x, key, rest);
  }

  /** `a.sort((x, y) => key(x) - key(y))` in place: a left-to-right insertion
      sort whose result is exactly `SortByKey` of the old contents. */
  method StableSortInPlace<T>(a: array<T>, key: T -> int)
    modifies a
    ensures a[..] == SortByKey(old(a[..]), key)
  {
    ghost var orig := a[..];
    var i := 0;
    while i < a.Length
      invariant 0 <= i <= a.Length
      invariant a[..i] == SortByKey(orig[..i], key)
      invariant a[i..] == orig[i..]
    {
      ghost var pre := a[..];
      assert pre[..i] == SortByKey(orig[..i], key);
      assert pre[i] == orig[i];
      InsertInPlace(a, i, key);
      assert a[..i + 1] == Insert(SortByKey(orig[..i], key), orig[i], key);
      assert orig[..i + 1][..i] == orig[..i];
      assert a[..i + 1] == SortByKey(orig[..i + 1], key);
      assert a[i + 1..] == orig[i + 1..];
      i := i + 1;
    }
    assert orig[..a.Length] == orig;
  }
}
