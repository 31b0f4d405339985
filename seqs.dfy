/**
 * Generic sequence helpers: filtering, summing, and the descending sort that
 * stands for pandas' sort_values(ascending=False) and Python's
 * sorted(..., reverse=True).
 *
 * The sort is a stable insertion sort. Python's sorted() is stable; pandas'
 * default quicksort is not, so where pandas sorts the model claims only what
 * every sort guarantees: a non-increasing permutation of the input.
 */
module Seqs {

  /** Keeps the elements satisfying p, in order (a boolean-mask selection). */
  function Filter<T>(s: seq<T>, p: T -> bool): (r: seq<T>)
    ensures |r| <= |s|
    ensures forall i :: 0 <= i < |r| ==> p(r[i])
    ensures forall i :: 0 <= i < |r| ==> r[i] in s
    ensures forall i :: 0 <= i < |s| && p(s[i]) ==> s[i] in r
  {
    if s == [] then [] else (if p(s[0]) then [s[0]] else []) + Filter(s[1..], p)
  }

  lemma {:induction false} FilterAppend<T>(a: seq<T>, b: seq<T>, p: T -> bool)
    ensures Filter(a + b, p) == Filter(a, p) + Filter(b, p)
  {
    if a == [] {
      assert a + b == b;
    } else {
      var head := if p(a[0]) then [a[0]] else [];
      assert (a + b)[1..] == a[1..] + b;
      FilterAppend(a[1..], b, p);
      AppendAssociative(head, Filter(a[1..], p), Filter(b, p));
    }
  }

  lemma FilterSnoc<T>(s: seq<T>, x: T, p: T -> bool)
    ensures Filter(s + [x], p) == Filter(s, p) + (if p(x) then [x] else [])
  {
    FilterAppend(s, [x], p);
    assert [x][1..] == [];
  }

  lemma {:induction false} FilterAll<T>(s: seq<T>, p: T -> bool)
    requires forall i :: 0 <= i < |s| ==> p(s[i])
    ensures Filter(s, p) == s
  {
    if s != [] {
      FilterAll(s[1..], p);
    }
  }

  /** Every property shared by all elements of s is shared by all elements it keeps. */
  lemma {:induction false} FilterPreserves<T>(s: seq<T>, p: T -> bool, q: T -> bool)
    requires forall i :: 0 <= i < |s| ==> q(s[i])
    ensures forall i :: 0 <= i < |Filter(s, p)| ==> q(Filter(s, p)[i])
  {
    if s != [] {
      FilterPreserves(s[1..], p, q);
      var first := if p(s[0]) then [s[0]] else [];
      var rest := Filter(s[1..], p);
      assert Filter(s, p) == first + rest;
      forall i | 0 <= i < |first + rest| ensures q((first + rest)[i]) {
        if i >= |first| {
          assert (first + rest)[i] == rest[i - |first|];
        }
      }
    }
  }

  /** A value that may be absent (None in Python). */
  datatype Option<T> = None | Some(value: T)

  /** Sum of f over the elements of s. */
  function SumBy<T>(s: seq<T>, f: T -> int): int
  {
    if s == [] then 0 else f(s[0]) + SumBy(s[1..], f)
  }

  lemma {:induction false} SumByAppend<T>(a: seq<T>, b: seq<T>, f: T -> int)
    ensures SumBy(a + b, f) == SumBy(a, f) + SumBy(b, f)
  {
    if a != [] {
      assert (a + b)[1..] == a[1..] + b;
      SumByAppend(a[1..], b, f);
    } else {
      assert a + b == b;
    }
  }

  /** Taking one element out of a sequence takes it out of its multiset. */
  lemma MultisetRemove<T>(s: seq<T>, i: nat)
    requires i < |s|
    ensures multiset(s[..i] + s[i + 1..]) == multiset(s) - multiset{s[i]}
  {
    assert s == s[..i] + [s[i]] + s[i + 1..];
  }

  /** Taking one element out of a sequence takes its term out of the sum. */
  lemma SumByRemove<T>(s: seq<T>, i: nat, f: T -> int)
    requires i < |s|
    ensures SumBy(s, f) == f(s[i]) + SumBy(s[..i] + s[i + 1..], f)
  {
    var pre, post := s[..i], s[i + 1..];
    var mid := [s[i]] + post;
    assert s == pre + mid;
    SumByAppend(pre, mid, f);
    assert mid[1..] == post;
    assert SumBy(mid, f) == f(s[i]) + SumBy(post, f);
    SumByAppend(pre, post, f);
  }

  /** A sum does not depend on the order of its terms. */
  lemma {:induction false} SumByPermutation<T>(a: seq<T>, b: seq<T>, f: T -> int)
    requires multiset(a) == multiset(b)
    ensures SumBy(a, f) == SumBy(b, f)
  {
    if a != [] {
      var i := PermutationIndex(a, b, 0);
      var rest := b[..i] + b[i + 1..];
      MultisetRemove(a, 0);
      assert a[..0] + a[1..] == a[1..];
      MultisetRemove(b, i);
      SumByPermutation(a[1..], rest, f);
      SumByRemove(b, i, f);
    } else {
      assert |multiset(b)| == 0;
    }
  }

  /** Every element's key is at least that of every later element. */
  predicate NonIncreasing<T>(s: seq<T>, key: T -> real) {
    forall i, j :: 0 <= i < j < |s| ==> key(s[i]) >= key(s[j])
  }

  /** Inserting x after the head keeps every key at most the head's. */
  lemma InsertBelow<T>(x: T, s: seq<T>, key: T -> real, tail: seq<T>)
    requires s != [] && NonIncreasing(s, key) && key(x) <= key(s[0])
    requires multiset(tail) == multiset(s[1..]) + multiset{x}
    ensures forall i :: 0 <= i < |tail| ==> key(tail[i]) <= key(s[0])
  {
    forall i | 0 <= i < |tail|
      ensures key(tail[i]) <= key(s[0])
    {
      var k := MemberIndex(tail[i], x, s[1..], tail);
      if k < |s| - 1 {
        assert s[k + 1] == tail[i];
      }
    }
  }

  /** Inserts x after every element whose key is at least key(x). */
  function Insert<T>(x: T, s: seq<T>, key: T -> real): (r: seq<T>)
    requires NonIncreasing(s, key)
    ensures |r| == |s| + 1
    ensures multiset(r) == multiset(s) + multiset{x}
    ensures NonIncreasing(r, key)
  {
    if s == [] || key(s[0]) < key(x) then
      ConsNonIncreasing(x, s, key);
      [x] + s
    else
      var tail := Insert(x, s[1..], key);
      assert s == [s[0]] + s[1..];
      InsertBelow(x, s, key, tail);
      ConsNonIncreasing(s[0], tail, key);
      [s[0]] + tail
  }

  /** An element at least as large as every element of a non-increasing sequence can go in front. */
  lemma ConsNonIncreasing<T>(y: T, s: seq<T>, key: T -> real)
    requires NonIncreasing(s, key)
    requires forall i :: 0 <= i < |s| ==> key(s[i]) <= key(y)
    ensures NonIncreasing([y] + s, key)
  {
    var r := [y] + s;
    forall i, j | 0 <= i < j < |r|
      ensures key(r[i]) >= key(r[j])
    {
      assert r[j] == s[j - 1];
      if i > 0 {
        assert r[i] == s[i - 1];
      }
    }
  }

  /**
   * An element of a permutation of s plus x is x or sits in s at the
   * returned index (|s| when it is x).
   */
  lemma MemberIndex<T>(y: T, x: T, s: seq<T>, r: seq<T>) returns (k: nat)
    requires y in multiset(r) && multiset(r) == multiset(s) + multiset{x}
    ensures k <= |s|
    ensures k < |s| ==> s[k] == y
    ensures k == |s| ==> y == x
  {
    if y == x {
      k := |s|;
    } else {
      assert y in multiset(s);
      assert y in s;
      k :| 0 <= k < |s| && s[k] == y;
    }
  }

  /** A stable sort on decreasing key. */
  function SortDesc<T>(s: seq<T>, key: T -> real): (r: seq<T>)
    ensures NonIncreasing(r, key)
    ensures multiset(r) == multiset(s)
    ensures |r| == |s|
  {
    if s == [] then []
    else
      assert s == s[..|s| - 1] + [s[|s| - 1]];
      Insert(s[|s| - 1], SortDesc(s[..|s| - 1], key), key)
  }

  /** An element no larger than any element of s goes to the end. */
  lemma {:induction false} InsertAfterAll<T>(x: T, s: seq<T>, key: T -> real)
    requires NonIncreasing(s, key)
    requires forall i :: 0 <= i < |s| ==> key(s[i]) >= key(x)
    ensures Insert(x, s, key) == s + [x]
  {
    if s != [] {
      InsertAfterAll(x, s[1..], key);
      assert s == [s[0]] + s[1..];
      AppendAssociative([s[0]], s[1..], [x]);
    }
  }

  /** Sorting a sequence that is already in non-increasing order leaves it as it is. */
  lemma {:induction false} SortDescOfSorted<T>(s: seq<T>, key: T -> real)
    requires NonIncreasing(s, key)
    ensures SortDesc(s, key) == s
  {
    if s != [] {
      var n := |s| - 1;
      var init := s[..n];
      NonIncreasingPrefix(s, n, key);
      SortDescOfSorted(init, key);
      InsertAfterAll(s[n], init, key);
      assert init + [s[n]] == s;
    }
  }

  lemma NonIncreasingPrefix<T>(s: seq<T>, n: nat, key: T -> real)
    requires NonIncreasing(s, key) && n < |s|
    ensures NonIncreasing(s[..n], key)
    ensures forall i :: 0 <= i < n ==> key(s[..n][i]) >= key(s[n])
  {
  }

  /** The test "the key of e is v". */
  function KeyIs<T>(key: T -> real, v: real): T -> bool {
    (e: T) => key(e) == v
  }

  /** Nothing is kept when no element passes. */
  lemma {:induction false} FilterNone<T>(s: seq<T>, p: T -> bool)
    requires forall i :: 0 <= i < |s| ==> !p(s[i])
    ensures Filter(s, p) == []
  {
    if s != [] {
      assert !p(s[0]);
      FilterNone(s[1..], p);
    }
  }

  /** Insert puts x after every element of equal key: among equal keys it goes last. */
  lemma {:induction false} InsertStable<T>(x: T, s: seq<T>, key: T -> real, v: real)
    requires NonIncreasing(s, key)
    ensures Filter(Insert(x, s, key), KeyIs(key, v)) == Filter(s, KeyIs(key, v)) + (if key(x) == v then [x] else [])
  {
    var p := KeyIs(key, v);
    if s == [] || key(s[0]) < key(x) {
      assert Insert(x, s, key) == [x] + s;
      assert ([x] + s)[1..] == s;
      if key(x) == v {
        FilterNone(s, p);
      }
    } else {
      InsertStable(x, s[1..], key, v);
      var tail := Insert(x, s[1..], key);
      assert Insert(x, s, key) == [s[0]] + tail;
      assert ([s[0]] + tail)[1..] == tail;
      AppendAssociative(if p(s[0]) then [s[0]] else [], Filter(s[1..], p), if key(x) == v then [x] else []);
    }
  }

  /** The sort is stable: the elements of any one key keep their order. */
  lemma {:induction false} SortDescStable<T>(s: seq<T>, key: T -> real, v: real)
    ensures Filter(SortDesc(s, key), KeyIs(key, v)) == Filter(s, KeyIs(key, v))
  {
    if s != [] {
      var n := |s| - 1;
      var init, last := s[..n], s[n];
      assert s == init + [last];
      var p := KeyIs(key, v);
      var tail := if key(last) == v then [last] else [];
      assert Filter([last], p) == tail by {
        assert [last][1..] == [];
      }
      FilterAppend(init, [last], p);
      SortDescStable(init, key, v);
      InsertStable(last, SortDesc(init, key), key, v);
      assert SortDesc(s, key) == Insert(last, SortDesc(init, key), key);
    }
  }

  /** Sorting keeps every sum. */
  lemma SortDescSum<T>(s: seq<T>, key: T -> real, f: T -> int)
    ensures SumBy(SortDesc(s, key), f) == SumBy(s, f)
  {
    SumByPermutation(SortDesc(s, key), s, f);
  }

  /** The image of s under f, element by element. */
  function Map<T, U>(s: seq<T>, f: T -> U): (r: seq<U>)
    ensures |r| == |s|
    ensures forall i :: 0 <= i < |s| ==> r[i] == f(s[i])
  {
    if s == [] then [] else [f(s[0])] + Map(s[1..], f)
  }

  /** A loop that appends f of every element, in order. */
  method MapEach<T, U>(s: seq<T>, f: T -> U) returns (r: seq<U>)
    ensures r == Map(s, f)
  {
    r := [];
    var i := 0;
    while i < |s|
      invariant 0 <= i <= |s|
      invariant r == Map(s[..i], f)
    {
      TakeSnoc(s, i);
      MapSnoc(s[..i], s[i], f);
      r := r + [f(s[i])];
      i := i + 1;
    }
    assert s[..i] == s;
  }

  lemma MapCons<T, U>(x: T, s: seq<T>, f: T -> U)
    ensures Map([x] + s, f) == [f(x)] + Map(s, f)
  {
    assert ([x] + s)[1..] == s;
  }

  lemma MapSnoc<T, U>(s: seq<T>, x: T, f: T -> U)
    ensures Map(s + [x], f) == Map(s, f) + [f(x)]
  {
    assert Map(s + [x], f) == Map(s, f) + [f(x)];
  }

  lemma TakeSnoc<T>(s: seq<T>, i: nat)
    requires i < |s|
    ensures s[..i + 1] == s[..i] + [s[i]]
  {
  }

  /** Concatenation of a sequence of sequences. */
  function Flatten<T>(ss: seq<seq<T>>): seq<T>
  {
    if ss == [] then [] else ss[0] + Flatten(ss[1..])
  }

  lemma {:induction false} FlattenAppend<T>(a: seq<seq<T>>, b: seq<seq<T>>)
    ensures Flatten(a + b) == Flatten(a) + Flatten(b)
  {
    if a != [] {
      assert (a + b)[1..] == a[1..] + b;
      FlattenAppend(a[1..], b);
    } else {
      assert a + b == b;
    }
  }

  lemma FlattenPair<T>(a: seq<T>, b: seq<T>, rest: seq<seq<T>>)
    ensures Flatten([a, b] + rest) == a + b + Flatten(rest)
  {
    FlattenAppend([a, b], rest);
    assert [a, b][1..][1..] == [];
  }

  /** No element occurs twice. */
  predicate Distinct<T(==)>(s: seq<T>) {
    forall i, j :: 0 <= i < j < |s| ==> s[i] != s[j]
  }

  /** The elements of s as a set. */
  function SetOf<T>(s: seq<T>): set<T> {
    set x | x in s
  }

  /** unique(): every key once, in order of first appearance. */
  function Unique<K(==)>(s: seq<K>): (r: seq<K>)
    ensures Distinct(r)
    ensures forall i :: 0 <= i < |r| ==> r[i] in s
    ensures forall i :: 0 <= i < |s| ==> s[i] in r
  {
    if s == [] then []
    else
      var n := |s| - 1;
      var prev := Unique(s[..n]);
      assert s == s[..n] + [s[n]];
      if s[n] in prev then prev else prev + [s[n]]
  }

  /** The position of the first occurrence of x in s. */
  function FirstIndex<K(==)>(s: seq<K>, x: K): (k: nat)
    requires x in s
    ensures k < |s| && s[k] == x
    ensures forall m :: 0 <= m < k ==> s[m] != x
  {
    if s[0] == x then 0 else 1 + FirstIndex(s[1..], x)
  }

  /** The first occurrence is the only position holding x with no x before it. */
  lemma FirstIndexIs<K>(s: seq<K>, x: K, k: nat)
    requires k < |s| && s[k] == x && forall m :: 0 <= m < k ==> s[m] != x
    ensures FirstIndex(s, x) == k
  {
  }

  /** An element of a prefix first occurs at the same position in the whole sequence. */
  lemma FirstIndexPrefix<K>(s: seq<K>, n: nat, x: K)
    requires n <= |s| && x in s[..n]
    ensures FirstIndex(s, x) == FirstIndex(s[..n], x)
  {
    var k := FirstIndex(s[..n], x);
    assert s[k] == s[..n][k];
    forall m | 0 <= m < k ensures s[m] != x {
      assert s[m] == s[..n][m];
    }
    FirstIndexIs(s, x, k);
  }

  /**
   * unique() lists the keys in the order in which they first occur: of two
   * keys, the one listed first occurs first.
   */
  lemma {:induction false} UniqueFirstAppearance<K>(s: seq<K>, i: nat, j: nat)
    requires i < j < |Unique(s)|
    ensures FirstIndex(s, Unique(s)[i]) < FirstIndex(s, Unique(s)[j])
  {
    var n := |s| - 1;
    var prev := Unique(s[..n]);
    var u := Unique(s);
    assert s == s[..n] + [s[n]];
    assert u[i] == prev[i] && u[i] in s[..n];
    FirstIndexPrefix(s, n, u[i]);
    if j < |prev| {
      assert u[j] == prev[j] && u[j] in s[..n];
      FirstIndexPrefix(s, n, u[j]);
      UniqueFirstAppearance(s[..n], i, j);
    } else {
      assert u[j] == s[n] && s[n] !in prev;
      assert s[n] !in s[..n];
      FirstIndexIs(s, s[n], n);
    }
  }

  /** No two elements share a label. */
  predicate DistinctBy<T, L(==)>(s: seq<T>, lab: T -> L) {
    forall i, j :: 0 <= i < j < |s| ==> lab(s[i]) != lab(s[j])
  }

  lemma {:induction false} InsertDistinct<T, L>(x: T, s: seq<T>, key: T -> real, lab: T -> L)
    requires NonIncreasing(s, key) && DistinctBy(s, lab)
    requires forall i :: 0 <= i < |s| ==> lab(s[i]) != lab(x)
    ensures DistinctBy(Insert(x, s, key), lab)
  {
    if s == [] || key(s[0]) < key(x) {
    } else {
      InsertDistinct(x, s[1..], key, lab);
      var tail := Insert(x, s[1..], key);
      forall i | 0 <= i < |tail| ensures lab(tail[i]) != lab(s[0]) {
        var k := MemberIndex(tail[i], x, s[1..], tail);
        if k < |s| - 1 {
          assert s[k + 1] == tail[i];
        }
      }
    }
  }

  /** Sorting never merges or duplicates labels. */
  lemma {:induction false} SortDescDistinct<T, L>(s: seq<T>, key: T -> real, lab: T -> L)
    requires DistinctBy(s, lab)
    ensures DistinctBy(SortDesc(s, key), lab)
  {
    if s != [] {
      var init := s[..|s| - 1];
      assert DistinctBy(init, lab);
      SortDescDistinct(init, key, lab);
      var sorted := SortDesc(init, key);
      forall i | 0 <= i < |sorted| ensures lab(sorted[i]) != lab(s[|s| - 1]) {
        assert sorted[i] in multiset(init);
        var k :| 0 <= k < |init| && init[k] == sorted[i];
      }
      InsertDistinct(s[|s| - 1], sorted, key, lab);
    }
  }

  lemma AppendEmpty<T>(a: seq<T>)
    ensures a + [] == a
  {
  }

  lemma AppendAssociative<T>(a: seq<T>, b: seq<T>, c: seq<T>)
    ensures a + b + c == a + (b + c)
  {
  }

  /** Where an element of a sits in a permutation b of it. */
  lemma PermutationIndex<T>(a: seq<T>, b: seq<T>, i: nat) returns (k: nat)
    requires multiset(a) == multiset(b) && i < |a|
    ensures k < |b| && b[k] == a[i]
  {
    assert a[i] in multiset(a);
    assert a[i] in b;
    k :| 0 <= k < |b| && b[k] == a[i];
  }

  /** Moving one element to the end is a permutation. */
  lemma MoveToEndPermutation<T>(s: seq<T>, k: nat)
    requires k < |s|
    ensures multiset(s[..k] + s[k + 1..] + [s[k]]) == multiset(s)
  {
    assert s == s[..k] + [s[k]] + s[k + 1..];
  }
}
