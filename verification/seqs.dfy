/** Sequence operations the application uses through JavaScript's array methods:
    `filter`, `slice(0, n)` and a stable `sort`, plus the orders and
    relations their contracts are stated in. */
module Seqs {

  function Min(a: int, b: int): int
  {
    if a <= b then a else b
  }

  /** Array.prototype.filter: the elements satisfying `p`, in their original order. */
  function Filter<T(!new)>(s: seq<T>, p: T -> bool): (r: seq<T>)
    ensures |r| <= |s|
    ensures forall i :: 0 <= i < |r| ==> p(r[i])
    ensures forall x :: x in r <==> x in s && p(x)
    ensures forall x :: multiset(r)[x] == if p(x) then multiset(s)[x] else 0
  {
    if s == [] then []
    else
      var rest := Filter(s[1..], p);
      var r := if p(s[0]) then [s[0]] + rest else rest;
      FilterStep(s, p, rest, r);
      r
  }

  lemma FilterStep<T(!new)>(s: seq<T>, p: T -> bool, rest: seq<T>, r: seq<T>)
    requires s != []
    requires |rest| <= |s| - 1
    requires forall i :: 0 <= i < |rest| ==> p(rest[i])
    requires forall x :: x in rest <==> x in s[1..] && p(x)
    requires forall x :: multiset(rest)[x] == if p(x) then multiset(s[1..])[x] else 0
    requires r == if p(s[0]) then [s[0]] + rest else rest
    ensures |r| <= |s|
    ensures forall i :: 0 <= i < |r| ==> p(r[i])
    ensures forall x :: x in r <==> x in s && p(x)
    ensures forall x :: multiset(r)[x] == if p(x) then multiset(s)[x] else 0
  {
    assert s == [s[0]] + s[1..];
  }

  /** The conjunction of two element predicates. */
  function And<T>(p: T -> bool, q: T -> bool): T -> bool
  {
    x => p(x) && q(x)
  }

  /** The negation of an element predicate. */
  function Not<T>(p: T -> bool): T -> bool
  {
    x => !p(x)
  }

  /** `a` is obtained from `b` by deleting elements: order is preserved. */
  predicate IsSubseq<T(==)>(a: seq<T>, b: seq<T>)
  {
    if a == [] then true
    else if b == [] then false
    else (a[0] == b[0] && IsSubseq(a[1..], b[1..])) || IsSubseq(a, b[1..])
  }

  /** No value occurs twice. */
  predicate NoDup<T(==)>(s: seq<T>)
  {
    forall i, j :: 0 <= i < j < |s| ==> s[i] != s[j]
  }

  /** Array.prototype.slice(0, n): the first `n` elements, or all of them when there are fewer. */
  function Take<T>(s: seq<T>, n: nat): (r: seq<T>)
    ensures |r| == Min(n, |s|)
    ensures forall i :: 0 <= i < |r| ==> r[i] == s[i]
  {
    if n <= |s| then s[..n] else s
  }

  lemma {:induction false} FilterIsSubseq<T(!new)>(s: seq<T>, p: T -> bool)
    ensures IsSubseq(Filter(s, p), s)
  {
    if s != [] {
      FilterIsSubseq(s[1..], p);
      var rest := Filter(s[1..], p);
      if p(s[0]) {
        assert ([s[0]] + rest)[1..] == rest;
      }
    }
  }

  /** Filtering twice is filtering once by the conjunction. */
  lemma {:induction false} FilterFilter<T(!new)>(s: seq<T>, p: T -> bool, q: T -> bool)
    ensures Filter(Filter(s, p), q) == Filter(s, And(p, q))
  {
    if s != [] {
      FilterFilter(s[1..], p, q);
      var rest := Filter(s[1..], p);
      if p(s[0]) {
        assert ([s[0]] + rest)[0] == s[0];
        assert ([s[0]] + rest)[1..] == rest;
      }
    }
  }

  /** Filters by predicates that agree on the elements give the same result. */
  lemma {:induction false} FilterExt<T(!new)>(s: seq<T>, p: T -> bool, q: T -> bool)
    requires forall x :: x in s ==> p(x) == q(x)
    ensures Filter(s, p) == Filter(s, q)
  {
    if s != [] {
      FilterExt(s[1..], p, q);
    }
  }

  /** A filter whose predicate holds everywhere keeps everything. */
  lemma {:induction false} FilterAll<T(!new)>(s: seq<T>, p: T -> bool)
    requires forall x :: x in s ==> p(x)
    ensures Filter(s, p) == s
  {
    if s != [] {
      FilterAll(s[1..], p);
      assert s == [s[0]] + s[1..];
    }
  }

  lemma {:induction false} FilterConcat<T(!new)>(a: seq<T>, b: seq<T>, p: T -> bool)
    ensures Filter(a + b, p) == Filter(a, p) + Filter(b, p)
  {
    if a == [] {
      assert a + b == b;
    } else {
      assert (a + b)[0] == a[0];
      assert (a + b)[1..] == a[1..] + b;
      FilterConcat(a[1..], b, p);
      if p(a[0]) {
        assert [a[0]] + (Filter(a[1..], p) + Filter(b, p)) == ([a[0]] + Filter(a[1..], p)) + Filter(b, p);
      }
    }
  }

  /** Every element lands on exactly one side of a predicate. */
  lemma {:induction false} FilterPartition<T(!new)>(s: seq<T>, p: T -> bool)
    ensures |Filter(s, p)| + |Filter(s, Not(p))| == |s|
  {
    if s != [] {
      FilterPartition(s[1..], p);
    }
  }

  /** A weaker predicate keeps at least as many elements. */
  lemma {:induction false} FilterMonotone<T(!new)>(s: seq<T>, p: T -> bool, q: T -> bool)
    requires forall x :: p(x) ==> q(x)
    ensures |Filter(s, p)| <= |Filter(s, q)|
  {
    if s != [] {
      FilterMonotone(s[1..], p, q);
    }
  }

  /** The code points of a string, for comparing strings in `LexLe`. */
  function Codes(s: string): (r: seq<int>)
    ensures |r| == |s|
    ensures forall i :: 0 <= i < |s| ==> r[i] == s[i] as int
  {
    seq(|s|, i requires 0 <= i < |s| => s[i] as int)
  }

  /** Lexicographic order on integer sequences; a proper prefix comes first. */
  predicate LexLe(a: seq<int>, b: seq<int>)
  {
    if a == [] then true
    else if b == [] then false
    else if a[0] != b[0] then a[0] < b[0]
    else LexLe(a[1..], b[1..])
  }

  /** Three-way comparison in the lexicographic order: -1, 0 or 1. */
  function LexCompare(a: seq<int>, b: seq<int>): int
  {
    if a == [] && b == [] then 0
    else if a == [] then -1
    else if b == [] then 1
    else if a[0] < b[0] then -1
    else if a[0] > b[0] then 1
    else LexCompare(a[1..], b[1..])
  }

  lemma {:induction false} LexCompareAgrees(a: seq<int>, b: seq<int>)
    ensures LexCompare(a, b) <= 0 <==> LexLe(a, b)
    ensures LexCompare(a, b) == 0 <==> a == b
  {
    if a != [] && b != [] && a[0] == b[0] {
      LexCompareAgrees(a[1..], b[1..]);
      assert a == [a[0]] + a[1..];
      assert b == [b[0]] + b[1..];
    }
  }

  lemma {:induction false} LexLeRefl(a: seq<int>)
    ensures LexLe(a, a)
  {
    if a != [] {
      LexLeRefl(a[1..]);
    }
  }

  lemma {:induction false} LexLeTotal(a: seq<int>, b: seq<int>)
    ensures LexLe(a, b) || LexLe(b, a)
  {
    if a != [] && b != [] && a[0] == b[0] {
      LexLeTotal(a[1..], b[1..]);
    }
  }

  lemma {:induction false} LexLeTrans(a: seq<int>, b: seq<int>, c: seq<int>)
    requires LexLe(a, b) && LexLe(b, c)
    ensures LexLe(a, c)
  {
    if a != [] && b != [] && c != [] && a[0] == b[0] && b[0] == c[0] {
      LexLeTrans(a[1..], b[1..], c[1..]);
    }
  }

  /** Non-decreasing by `key` in the lexicographic order. */
  predicate SortedBy<T>(s: seq<T>, key: T -> seq<int>)
  {
    forall i, j :: 0 <= i < j < |s| ==> LexLe(key(s[i]), key(s[j]))
  }

  /** Holds of the elements whose key is `k`. */
  function KeyIs<T>(key: T -> seq<int>, k: seq<int>): T -> bool
  {
    x => key(x) == k
  }

  /** Inserts `x` in front of the first element whose key is not below its own. */
  function Insert<T>(x: T, s: seq<T>, key: T -> seq<int>): (r: seq<T>)
    ensures |r| == |s| + 1
    ensures multiset(r) == multiset(s) + multiset{x}
  {
    if s == [] || LexLe(key(x), key(s[0])) then [x] + s
    else
      assert s == [s[0]] + s[1..];
      [s[0]] + Insert(x, s[1..], key)
  }

  /** A stable sort by `key`: the model of Array.prototype.sort with a comparator
      that orders elements as their keys do. */
  function SortBy<T>(s: seq<T>, key: T -> seq<int>): (r: seq<T>)
    ensures |r| == |s|
    ensures multiset(r) == multiset(s)
  {
    if s == [] then []
    else
      assert s == [s[0]] + s[1..];
      Insert(s[0], SortBy(s[1..], key), key)
  }

  lemma {:induction false} InsertSorted<T>(x: T, s: seq<T>, key: T -> seq<int>)
    requires SortedBy(s, key)
    ensures SortedBy(Insert(x, s, key), key)
  {
    var r := Insert(x, s, key);
    if s == [] || LexLe(key(x), key(s[0])) {
      assert r == [x] + s;
      forall i, j | 0 <= i < j < |r|
        ensures LexLe(key(r[i]), key(r[j]))
      {
        if i == 0 && j > 1 {
          LexLeTrans(key(x), key(s[0]), key(s[j - 1]));
        }
      }
    } else {
      var t := Insert(x, s[1..], key);
      assert r == [s[0]] + t;
      InsertSorted(x, s[1..], key);
      LexLeTotal(key(x), key(s[0]));
      assert forall m :: 0 <= m < |s[1..]| ==> LexLe(key(s[0]), key(s[1..][m])) by {
        forall m | 0 <= m < |s[1..]|
          ensures LexLe(key(s[0]), key(s[1..][m]))
        {
          assert s[1..][m] == s[m + 1];
        }
      }
      InsertLowerBound(x, s[1..], key, key(s[0]));
      forall i, j | 0 <= i < j < |r|
        ensures LexLe(key(r[i]), key(r[j]))
      {
        if i == 0 {
          assert r[j] == t[j - 1];
        } else {
          assert r[i] == t[i - 1] && r[j] == t[j - 1];
        }
      }
    }
  }

  /** A lower bound on the keys of `s` and of `x` bounds the keys after the insertion. */
  lemma InsertLowerBound<T>(x: T, s: seq<T>, key: T -> seq<int>, lo: seq<int>)
    requires LexLe(lo, key(x))
    requires forall m :: 0 <= m < |s| ==> LexLe(lo, key(s[m]))
    ensures forall k :: 0 <= k < |Insert(x, s, key)| ==> LexLe(lo, key(Insert(x, s, key)[k]))
  {
    var t := Insert(x, s, key);
    forall k | 0 <= k < |t|
      ensures LexLe(lo, key(t[k]))
    {
      assert t[k] in multiset(t);
      if t[k] != x {
        assert t[k] in multiset(s);
        var m :| 0 <= m < |s| && s[m] == t[k];
      }
    }
  }

  lemma {:induction false} SortBySorted<T>(s: seq<T>, key: T -> seq<int>)
    ensures SortedBy(SortBy(s, key), key)
  {
    if s != [] {
      SortBySorted(s[1..], key);
      InsertSorted(s[0], SortBy(s[1..], key), key);
    }
  }

  lemma {:induction false} InsertKeyClass<T(!new)>(x: T, s: seq<T>, key: T -> seq<int>, k: seq<int>)
    ensures Filter(Insert(x, s, key), KeyIs(key, k))
         == (if key(x) == k then [x] else []) + Filter(s, KeyIs(key, k))
  {
    var p := KeyIs(key, k);
    assert p(x) == (key(x) == k);
    if s == [] || LexLe(key(x), key(s[0])) {
      FilterCons(x, s, p);
    } else {
      var t := Insert(x, s[1..], key);
      var fx: seq<T> := if key(x) == k then [x] else [];
      var f0: seq<T> := if p(s[0]) then [s[0]] else [];
      assert Filter(Insert(x, s, key), p) == f0 + Filter(t, p) by {
        assert Insert(x, s, key) == [s[0]] + t;
        FilterCons(s[0], t, p);
      }
      assert Filter(t, p) == fx + Filter(s[1..], p) by {
        InsertKeyClass(x, s[1..], key, k);
      }
      assert Filter(s, p) == f0 + Filter(s[1..], p) by {
        FilterHead(s, p);
      }
      assert f0 == [] || fx == [] by {
        LexLeRefl(key(x));
        assert key(s[0]) != key(x);
        assert p(s[0]) == (key(s[0]) == k);
      }
      SwapEmpty(f0, fx, Filter(s[1..], p));
    }
  }

  /** Two pieces of which one is empty can be put in either order. */
  lemma SwapEmpty<T>(a: seq<T>, b: seq<T>, c: seq<T>)
    requires a == [] || b == []
    ensures a + (b + c) == b + (a + c)
  {
    if a == [] {
      assert a + (b + c) == b + c == b + (a + c);
    } else {
      assert a + (b + c) == a + c == b + (a + c);
    }
  }

  /** Filtering a non-empty sequence: its head, if kept, then the filtered tail. */
  lemma FilterHead<T(!new)>(s: seq<T>, p: T -> bool)
    requires s != []
    ensures Filter(s, p) == (if p(s[0]) then [s[0]] else []) + Filter(s[1..], p)
  {
  }

  /** Filtering a sequence with a given first element. */
  lemma FilterCons<T(!new)>(x: T, s: seq<T>, p: T -> bool)
    ensures Filter([x] + s, p) == (if p(x) then [x] else []) + Filter(s, p)
  {
    assert ([x] + s)[0] == x;
    assert ([x] + s)[1..] == s;
  }

  /** Stability: the elements sharing one key keep their relative order. */
  lemma {:induction false} SortByStable<T(!new)>(s: seq<T>, key: T -> seq<int>, k: seq<int>)
    ensures Filter(SortBy(s, key), KeyIs(key, k)) == Filter(s, KeyIs(key, k))
  {
    if s != [] {
      SortByStable(s[1..], key, k);
      InsertKeyClass(s[0], SortBy(s[1..], key), key, k);
    }
  }

  /** With one key shared by all elements, the sort changes nothing. */
  lemma {:induction false} SortBySingleKey<T(!new)>(s: seq<T>, key: T -> seq<int>, k: seq<int>)
    requires forall x :: x in s ==> key(x) == k
    ensures SortBy(s, key) == s
  {
    SortByStable(s, key, k);
    forall x | x in SortBy(s, key)
      ensures KeyIs(key, k)(x)
    {
      assert x in multiset(SortBy(s, key));
    }
    FilterAll(SortBy(s, key), KeyIs(key, k));
    FilterAll(s, KeyIs(key, k));
  }
}
