/**
 * The array methods the storage layer is built from: `filter`, `map`,
 * `findIndex`, `find`, `indexOf` and the stable `sort` with a numeric
 * comparator, with the facts about them that the stores rely on.
 */
module Seqs {
  import opened Wrappers

  /** `s.filter(p)`: the elements satisfying `p`, in their original order. */
  function Filter<T>(s: seq<T>, p: T -> bool): (r: seq<T>)
    ensures |r| <= |s|
    decreases |s|
  {
    if |s| == 0 then [] else (if p(s[0]) then [s[0]] else []) + Filter(s[1..], p)
  }

  /** What survives the filter is exactly the elements that pass the test. */
  lemma {:induction false} FilterMembers<T>(s: seq<T>, p: T -> bool)
    ensures forall i :: 0 <= i < |Filter(s, p)| ==> Filter(s, p)[i] in s && p(Filter(s, p)[i])
    ensures forall i :: 0 <= i < |s| && p(s[i]) ==> s[i] in Filter(s, p)
    decreases |s|
  {
    if |s| > 0 {
      FilterMembers(s[1..], p);
      var head: seq<T> := if p(s[0]) then [s[0]] else [];
      var r := Filter(s, p);
      assert r == head + Filter(s[1..], p);
      forall i | 0 <= i < |s| && p(s[i]) ensures s[i] in r {
        if i > 0 {
          assert s[i] == s[1..][i - 1];
        }
      }
    }
  }

  lemma {:induction false} FilterAppend<T>(a: seq<T>, b: seq<T>, p: T -> bool)
    ensures Filter(a + b, p) == Filter(a, p) + Filter(b, p)
    decreases |a|
  {
    if |a| == 0 {
      assert a + b == b;
    } else {
      var head: seq<T> := if p(a[0]) then [a[0]] else [];
      FilterAppend(a[1..], b, p);
      calc {
        Filter(a + b, p);
        { assert (a + b)[0] == a[0]; assert (a + b)[1..] == a[1..] + b; }
        head + Filter(a[1..] + b, p);
        head + (Filter(a[1..], p) + Filter(b, p));
        (head + Filter(a[1..], p)) + Filter(b, p);
      }
    }
  }

  /** The filter drops something exactly when some element fails the test. */
  lemma {:induction false} FilterShrinks<T>(s: seq<T>, p: T -> bool)
    ensures |Filter(s, p)| < |s| <==> exists i :: 0 <= i < |s| && !p(s[i])
    decreases |s|
  {
    if |s| > 0 {
      FilterShrinks(s[1..], p);
      if !p(s[0]) {
        assert !p(s[0]);
      } else if exists i :: 0 <= i < |s| && !p(s[i]) {
        var i :| 0 <= i < |s| && !p(s[i]);
        assert s[1..][i - 1] == s[i];
      }
    }
  }

  /** A filter that every element passes returns the sequence unchanged. */
  lemma {:induction false} FilterAll<T>(s: seq<T>, p: T -> bool)
    requires forall i :: 0 <= i < |s| ==> p(s[i])
    ensures Filter(s, p) == s
    decreases |s|
  {
    if |s| > 0 {
      FilterAll(s[1..], p);
    }
  }

  /** A filter that no element passes returns the empty sequence. */
  lemma {:induction false} FilterNone<T>(s: seq<T>, p: T -> bool)
    requires forall i :: 0 <= i < |s| ==> !p(s[i])
    ensures Filter(s, p) == []
    decreases |s|
  {
    if |s| > 0 {
      FilterNone(s[1..], p);
    }
  }

  /** `s.slice(0, n)`: the first `n` elements, or all of them when there are fewer. */
  function FirstN<T>(s: seq<T>, n: nat): (r: seq<T>)
    ensures |r| == if |s| < n then |s| else n
    ensures r == s[..|r|]
  {
    if |s| <= n then s else s[..n]
  }

  /** The head of a list shown in full, and how many more it holds when it is longer. */
  datatype Preview<T> = Preview(shown: seq<T>, more: Option<nat>)

  /** `s.slice(0, n)` with a "+k more" note exactly when `s` has more than `n` elements. */
  function PreviewOf<T>(s: seq<T>, n: nat): (p: Preview<T>)
    ensures |p.shown| <= n && |p.shown| <= |s| && p.shown == s[..|p.shown|]
    ensures p.more.Some? <==> |s| > n
    ensures p.more.Some? ==> |p.shown| == n && n + p.more.value == |s|
    ensures p.more.None? ==> p.shown == s
  {
    Preview(FirstN(s, n), if |s| > n then Some(|s| - n) else None)
  }

  /** `s.map(f)`. */
  function Map<T, U>(s: seq<T>, f: T -> U): (r: seq<U>)
    ensures |r| == |s|
    ensures forall i :: 0 <= i < |s| ==> r[i] == f(s[i])
  {
    seq(|s|, i requires 0 <= i < |s| => f(s[i]))
  }

  /** `s.findIndex(p)`: the first position satisfying `p`, or -1. */
  function FindIndex<T>(s: seq<T>, p: T -> bool): (i: int)
    ensures -1 <= i < |s|
    ensures 0 <= i ==> p(s[i]) && forall j :: 0 <= j < i ==> !p(s[j])
    ensures i == -1 ==> forall j :: 0 <= j < |s| ==> !p(s[j])
    decreases |s|
  {
    if |s| == 0 then -1
    else if p(s[0]) then 0
    else
      var k := FindIndex(s[1..], p);
      if k == -1 then -1 else k + 1
  }

  /** `s.find(p)`: the first element satisfying `p`, or undefined. */
  function Find<T>(s: seq<T>, p: T -> bool): (r: Option<T>)
    ensures r.Some? <==> exists j :: 0 <= j < |s| && p(s[j])
    ensures r.Some? ==> exists j :: 0 <= j < |s| && s[j] == r.value && p(s[j]) && forall k :: 0 <= k < j ==> !p(s[k])
  {
    var i := FindIndex(s, p);
    if i == -1 then None else Some(s[i])
  }

  /** `s.some(p)`. */
  predicate Any<T>(s: seq<T>, p: T -> bool) {
    FindIndex(s, p) != -1
  }

  /** `s.indexOf(x)`: the first position holding `x`, or -1. */
  function IndexOf<T(==)>(s: seq<T>, x: T): (i: int)
    ensures -1 <= i < |s|
    ensures 0 <= i ==> s[i] == x && forall j :: 0 <= j < i ==> s[j] != x
    ensures i == -1 <==> x !in s
    decreases |s|
  {
    if |s| == 0 then -1
    else if s[0] == x then 0
    else
      var k := IndexOf(s[1..], x);
      if k == -1 then -1 else k + 1
  }

  ghost predicate SortedBy<T>(s: seq<T>, key: T -> int) {
    forall i, j :: 0 <= i < j < |s| ==> key(s[i]) <= key(s[j])
  }

  /** Inserts `x` before the first element whose key is not smaller. */
  /** Two orderings of the same elements hold the same members. */
  lemma SameMembers<T>(a: seq<T>, b: seq<T>)
    requires multiset(a) == multiset(b)
    ensures forall x :: x in a <==> x in b
  {
    forall x ensures x in a <==> x in b {
      assert x in a <==> x in multiset(a);
      assert x in b <==> x in multiset(b);
    }
  }

  function InsertByKey<T>(x: T, s: seq<T>, key: T -> int): (r: seq<T>)
    ensures |r| == |s| + 1
    decreases |s|
  {
    if |s| == 0 || key(x) <= key(s[0]) then [x] + s
    else [s[0]] + InsertByKey(x, s[1..], key)
  }

  /**
   * `s.sort((a, b) => key(a) - key(b))`.  The sort of the JavaScript
   * runtime is stable, so its result is the one permutation of `s` that is
   * ordered by key and keeps equal keys in their original order; insertion
   * sort computes exactly that permutation.
   */
  function SortBy<T>(s: seq<T>, key: T -> int): (r: seq<T>)
    ensures |r| == |s|
    decreases |s|
  {
    if |s| == 0 then [] else InsertByKey(s[0], SortBy(s[1..], key), key)
  }

  lemma {:induction false} InsertElems<T>(x: T, s: seq<T>, key: T -> int)
    ensures multiset(InsertByKey(x, s, key)) == multiset(s) + multiset{x}
    decreases |s|
  {
    if |s| > 0 && key(x) > key(s[0]) {
      InsertElems(x, s[1..], key);
      assert s == [s[0]] + s[1..];
    }
  }

  lemma {:induction false} InsertSorted<T>(x: T, s: seq<T>, key: T -> int)
    requires SortedBy(s, key)
    ensures SortedBy(InsertByKey(x, s, key), key)
    decreases |s|
  {
    if |s| > 0 && key(x) > key(s[0]) {
      var rest := InsertByKey(x, s[1..], key);
      InsertSorted(x, s[1..], key);
      InsertElems(x, s[1..], key);
      forall i | 0 <= i < |rest| ensures key(s[0]) <= key(rest[i]) {
        assert rest[i] in multiset(rest);
        if rest[i] != x {
          assert rest[i] in multiset(s[1..]);
          var j :| 0 <= j < |s[1..]| && s[1..][j] == rest[i];
          assert s[j + 1] == rest[i];
        }
      }
      var r := [s[0]] + rest;
      forall i, j | 0 <= i < j < |r| ensures key(r[i]) <= key(r[j]) {
        if i > 0 {
          assert r[i] == rest[i - 1] && r[j] == rest[j - 1];
        }
      }
    }
  }

  /** The sort returns a permutation of its input. */
  lemma {:induction false} SortByPermutes<T>(s: seq<T>, key: T -> int)
    ensures multiset(SortBy(s, key)) == multiset(s)
    decreases |s|
  {
    if |s| > 0 {
      SortByPermutes(s[1..], key);
      InsertElems(s[0], SortBy(s[1..], key), key);
      assert s == [s[0]] + s[1..];
    }
  }

  /** The sort orders its output by ascending key. */
  lemma {:induction false} SortBySorted<T>(s: seq<T>, key: T -> int)
    ensures SortedBy(SortBy(s, key), key)
    decreases |s|
  {
    if |s| > 0 {
      SortBySorted(s[1..], key);
      InsertSorted(s[0], SortBy(s[1..], key), key);
    }
  }

  lemma InsertFront<T>(x: T, s: seq<T>, key: T -> int)
    requires forall y :: y in s ==> key(x) <= key(y)
    ensures InsertByKey(x, s, key) == [x] + s
  {
    if |s| > 0 {
      assert s[0] in s;
    }
  }

  lemma SortedTail<T>(s: seq<T>, key: T -> int)
    requires |s| > 0 && SortedBy(s, key)
    ensures SortedBy(s[1..], key)
    ensures forall i :: 0 <= i < |s| ==> key(s[0]) <= key(s[i])
  {
  }

  /** Inserting an element no larger than anything in `s` commutes with filtering. */
  lemma FilterInsertFront<T>(x: T, s: seq<T>, key: T -> int, p: T -> bool)
    requires forall i :: 0 <= i < |s| ==> key(x) <= key(s[i])
    ensures Filter([x] + s, p) == if p(x) then InsertByKey(x, Filter(s, p), key) else Filter(s, p)
  {
    assert ([x] + s)[0] == x && ([x] + s)[1..] == s;
    if p(x) {
      FilterMembers(s, p);
      forall y | y in Filter(s, p) ensures key(x) <= key(y) {
        var j :| 0 <= j < |s| && s[j] == y;
      }
      InsertFront(x, Filter(s, p), key);
    }
  }

  lemma FilterCons<T>(h: T, t: seq<T>, p: T -> bool)
    ensures Filter([h] + t, p) == (if p(h) then [h] else []) + Filter(t, p)
  {
    assert ([h] + t)[0] == h && ([h] + t)[1..] == t;
  }

  /** Inserting past a smaller head keeps the head in front. */
  lemma InsertPastHead<T>(x: T, h: T, t: seq<T>, key: T -> int)
    requires key(x) > key(h)
    ensures InsertByKey(x, [h] + t, key) == [h] + InsertByKey(x, t, key)
  {
    assert ([h] + t)[0] == h && ([h] + t)[1..] == t;
  }

  /** One step past an element that is smaller than `x`. */
  lemma FilterInsertSkip<T>(x: T, s: seq<T>, key: T -> int, p: T -> bool)
    requires |s| > 0 && key(x) > key(s[0])
    requires p(x) ==> Filter(InsertByKey(x, s[1..], key), p) == InsertByKey(x, Filter(s[1..], p), key)
    requires !p(x) ==> Filter(InsertByKey(x, s[1..], key), p) == Filter(s[1..], p)
    ensures p(x) ==> Filter(InsertByKey(x, s, key), p) == InsertByKey(x, Filter(s, p), key)
    ensures !p(x) ==> Filter(InsertByKey(x, s, key), p) == Filter(s, p)
  {
    var rest := InsertByKey(x, s[1..], key);
    var tail := Filter(s[1..], p);
    var inserted := Filter(InsertByKey(x, s, key), p);
    assert InsertByKey(x, s, key) == [s[0]] + rest;
    FilterCons(s[0], rest, p);
    FilterCons(s[0], s[1..], p);
    assert [s[0]] + s[1..] == s;
    if p(s[0]) {
      assert inserted == [s[0]] + Filter(rest, p);
      assert Filter(s, p) == [s[0]] + tail;
      if p(x) {
        InsertPastHead(x, s[0], tail, key);
      }
    } else {
      assert inserted == Filter(rest, p);
      assert Filter(s, p) == tail;
    }
  }

  /** Filtering a sorted insertion is inserting into the filtered sequence. */
  lemma {:induction false} FilterInsert<T>(x: T, s: seq<T>, key: T -> int, p: T -> bool)
    requires SortedBy(s, key)
    ensures Filter(InsertByKey(x, s, key), p)
         == if p(x) then InsertByKey(x, Filter(s, p), key) else Filter(s, p)
    decreases |s|
  {
    if |s| == 0 {
    } else {
      SortedTail(s, key);
      if key(x) <= key(s[0]) {
        FilterInsertFront(x, s, key, p);
      } else {
        FilterInsert(x, s[1..], key, p);
        FilterInsertSkip(x, s, key, p);
      }
    }
  }

  /** Filtering and stable sorting commute: filter-then-sort equals sort-then-filter. */
  lemma {:induction false} FilterSortCommute<T>(s: seq<T>, key: T -> int, p: T -> bool)
    ensures Filter(SortBy(s, key), p) == SortBy(Filter(s, p), key)
    decreases |s|
  {
    if |s| > 0 {
      SortBySorted(s[1..], key);
      FilterSortCommute(s[1..], key, p);
      FilterInsert(s[0], SortBy(s[1..], key), key, p);
      var fs := Filter(s, p);
      if p(s[0]) {
        assert fs == [s[0]] + Filter(s[1..], p);
        assert fs[0] == s[0] && fs[1..] == Filter(s[1..], p);
      } else {
        assert fs == Filter(s[1..], p);
      }
    }
  }

  lemma {:induction false} SortConstant<T>(s: seq<T>, key: T -> int, k: int)
    requires forall i :: 0 <= i < |s| ==> key(s[i]) == k
    ensures SortBy(s, key) == s
    decreases |s|
  {
    if |s| > 0 {
      SortConstant(s[1..], key, k);
      InsertFront(s[0], s[1..], key);
    }
  }

  function KeyIs<T>(key: T -> int, k: int): T -> bool {
    x => key(x) == k
  }

  /** Stability: the elements sharing one key keep their original relative order. */
  lemma SortStable<T>(s: seq<T>, key: T -> int, k: int)
    ensures Filter(SortBy(s, key), KeyIs(key, k)) == Filter(s, KeyIs(key, k))
  {
    FilterSortCommute(s, key, KeyIs(key, k));
    FilterMembers(s, KeyIs(key, k));
    SortConstant(Filter(s, KeyIs(key, k)), key, k);
  }
}
