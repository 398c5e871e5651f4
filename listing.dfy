/**
  The list operations behind the tables and the queries: `Array.prototype.filter`
  and a comparator sort. The comparator is an abstract ordering `le` on sort keys
  (for the tables, `localeCompare` on strings; for the store, timestamps), used
  in one of two directions.
 */
module Listing {

  /** A sort direction, the `"asc" | "desc"` state of the tables. */
  datatype Direction = Asc | Desc {
    /** The other direction: the handler behind the sort button. */
    function Toggle(): (d: Direction)
      ensures d != this
    {
      if Asc? then Desc else Asc
    }
  }

  /** Toggling twice restores the direction. */
  lemma ToggleTwice(d: Direction)
    ensures d.Toggle().Toggle() == d
  {
  }

  /** `le` is a total preorder: every pair is comparable and the order is transitive. */
  ghost predicate TotalPreorder<K(!new)>(le: (K, K) -> bool) {
    && (forall a, b :: le(a, b) || le(b, a))
    && (forall a, b, c :: le(a, b) && le(b, c) ==> le(a, c))
  }

  /**
    Whether `a` may come before `b` in a list sorted in direction `dir`: ascending
    compares `a` with `b`, descending compares `b` with `a` (the comparator with its
    arguments swapped).
   */
  predicate Before<K>(dir: Direction, le: (K, K) -> bool, a: K, b: K) {
    match dir
    case Asc => le(a, b)
    case Desc => le(b, a)
  }

  /** Every earlier element may come before every later one. */
  ghost predicate SortedBy<T, K>(s: seq<T>, key: T -> K, dir: Direction, le: (K, K) -> bool) {
    forall i, j :: 0 <= i < j < |s| ==> Before(dir, le, key(s[i]), key(s[j]))
  }

  /**
    `xs.filter(p)`: the elements satisfying `p`, each as often as in `xs`, and
    no others.
   */
  function Filter<T(!new)>(xs: seq<T>, p: T -> bool): (r: seq<T>)
    ensures |r| <= |xs|
    ensures forall x :: multiset(r)[x] == if p(x) then multiset(xs)[x] else 0
    ensures forall x :: x in r <==> x in xs && p(x)
  {
    if xs == [] then []
    else
      assert xs == [xs[0]] + xs[1..];
      var rest := Filter(xs[1..], p);
      if p(xs[0]) then [xs[0]] + rest else rest
  }

  /**
    When no two positions of `xs` both satisfy `p`, the filter keeps at most one
    element.
   */
  lemma {:induction false} FilterAtMostOne<T(!new)>(xs: seq<T>, p: T -> bool)
    requires forall i, j :: 0 <= i < j < |xs| && p(xs[i]) ==> !p(xs[j])
    ensures |Filter(xs, p)| <= 1
  {
    if xs != [] {
      FilterAtMostOne(xs[1..], p);
      if p(xs[0]) {
        forall x | x in xs[1..] ensures !p(x) {
          var j :| 0 <= j < |xs[1..]| && xs[1..][j] == x;
          assert xs[j + 1] == x;
        }
      }
    }
  }

  /**
    `UPDATE ... WHERE`: every element satisfying `matches` is replaced by `f` of
    it, every other element is kept, and the order is unchanged.
   */
  function UpdateWhere<T>(xs: seq<T>, matches: T -> bool, f: T -> T): (r: seq<T>)
    ensures |r| == |xs|
    ensures forall i :: 0 <= i < |xs| ==> r[i] == if matches(xs[i]) then f(xs[i]) else xs[i]
  {
    if xs == [] then []
    else [if matches(xs[0]) then f(xs[0]) else xs[0]] + UpdateWhere(xs[1..], matches, f)
  }

  /**
    Inserts `x` in front of the first element it may come before: the step of a
    stable insertion sort.
   */
  function Insert<T, K>(x: T, s: seq<T>, key: T -> K, dir: Direction, le: (K, K) -> bool): (r: seq<T>)
    ensures multiset(r) == multiset(s) + multiset{x}
  {
    if s == [] then [x]
    else if Before(dir, le, key(x), key(s[0])) then [x] + s
    else
      assert s == [s[0]] + s[1..];
      [s[0]] + Insert(x, s[1..], key, dir, le)
  }

  /**
    `xs.sort(cmp)` with the comparator `le` in direction `dir`: a stable sort,
    as `Array.prototype.sort` is. The result is a permutation of `xs`.
   */
  function SortBy<T, K>(xs: seq<T>, key: T -> K, dir: Direction, le: (K, K) -> bool): (r: seq<T>)
    ensures multiset(r) == multiset(xs)
    ensures |r| == |xs|
  {
    if xs == [] then []
    else
      assert xs == [xs[0]] + xs[1..];
      Insert(xs[0], SortBy(xs[1..], key, dir, le), key, dir, le)
  }

  /** `Before` inherits totality from `le`, in both directions. */
  lemma BeforeTotal<K(!new)>(dir: Direction, le: (K, K) -> bool, a: K, b: K)
    requires TotalPreorder(le)
    ensures Before(dir, le, a, b) || Before(dir, le, b, a)
  {
  }

  /** `Before` inherits transitivity from `le`, in both directions. */
  lemma BeforeTransitive<K(!new)>(dir: Direction, le: (K, K) -> bool, a: K, b: K, c: K)
    requires TotalPreorder(le)
    requires Before(dir, le, a, b) && Before(dir, le, b, c)
    ensures Before(dir, le, a, c)
  {
  }

  /** Putting in front of a sorted list an element that may precede its head keeps it sorted. */
  lemma PrependBeforeHeadSorted<T, K(!new)>(x: T, s: seq<T>, key: T -> K, dir: Direction, le: (K, K) -> bool)
    requires TotalPreorder(le)
    requires SortedBy(s, key, dir, le)
    requires s != [] && Before(dir, le, key(x), key(s[0]))
    ensures SortedBy([x] + s, key, dir, le)
  {
    var r := [x] + s;
    forall i, j | 0 <= i < j < |r| ensures Before(dir, le, key(r[i]), key(r[j])) {
      if i == 0 {
        if j > 1 {
          BeforeTransitive(dir, le, key(x), key(s[0]), key(s[j - 1]));
        }
      } else {
        assert r[i] == s[i - 1] && r[j] == s[j - 1];
      }
    }
  }

  /** Putting in front of a sorted list an element that may precede all of it keeps it sorted. */
  lemma PrependBeforeAllSorted<T, K>(y: T, s: seq<T>, key: T -> K, dir: Direction, le: (K, K) -> bool)
    requires SortedBy(s, key, dir, le)
    requires forall z :: z in s ==> Before(dir, le, key(y), key(z))
    ensures SortedBy([y] + s, key, dir, le)
  {
    var r := [y] + s;
    forall i, j | 0 <= i < j < |r| ensures Before(dir, le, key(r[i]), key(r[j])) {
      if i == 0 {
        assert r[j] in s;
      } else {
        assert r[i] == s[i - 1] && r[j] == s[j - 1];
      }
    }
  }

  lemma {:induction false} InsertSorted<T, K(!new)>(x: T, s: seq<T>, key: T -> K, dir: Direction, le: (K, K) -> bool)
    requires TotalPreorder(le)
    requires SortedBy(s, key, dir, le)
    ensures SortedBy(Insert(x, s, key, dir, le), key, dir, le)
  {
    if s == [] {
    } else if Before(dir, le, key(x), key(s[0])) {
      PrependBeforeHeadSorted(x, s, key, dir, le);
    } else {
      var tail := s[1..];
      InsertSorted(x, tail, key, dir, le);
      var rest := Insert(x, tail, key, dir, le);
      forall y | y in rest ensures Before(dir, le, key(s[0]), key(y)) {
        assert y in multiset(rest);
        if y == x {
          BeforeTotal(dir, le, key(x), key(s[0]));
        } else {
          assert y in multiset(tail);
          var k :| 0 <= k < |tail| && tail[k] == y;
          assert s[k + 1] == y;
        }
      }
      PrependBeforeAllSorted(s[0], rest, key, dir, le);
    }
  }

  /** Under a total preorder, the sort's result is sorted in the requested direction. */
  lemma {:induction false} SortBySorted<T, K(!new)>(xs: seq<T>, key: T -> K, dir: Direction, le: (K, K) -> bool)
    requires TotalPreorder(le)
    ensures SortedBy(SortBy(xs, key, dir, le), key, dir, le)
  {
    if xs != [] {
      SortBySorted(xs[1..], key, dir, le);
      InsertSorted(xs[0], SortBy(xs[1..], key, dir, le), key, dir, le);
    }
  }

  /**
    Filtering a list with `x` in front: `x` is kept, still in front, exactly
    when it passes. By induction this is the order the filter keeps.
   */
  lemma FilterCons<T(!new)>(x: T, s: seq<T>, p: T -> bool)
    ensures Filter([x] + s, p) == if p(x) then [x] + Filter(s, p) else Filter(s, p)
  {
    assert ([x] + s)[1..] == s;
  }

  /**
    Inserting into a sorted list and then filtering is the same as filtering
    first and inserting `x` if it passes: the filter does not move `x` relative
    to the elements it keeps.
   */
  lemma {:induction false} FilterInsert<T(!new), K(!new)>(x: T, s: seq<T>, key: T -> K, dir: Direction, le: (K, K) -> bool, p: T -> bool)
    requires TotalPreorder(le)
    requires SortedBy(s, key, dir, le)
    ensures Filter(Insert(x, s, key, dir, le), p)
         == if p(x) then Insert(x, Filter(s, p), key, dir, le) else Filter(s, p)
  {
    if s == [] {
    } else if Before(dir, le, key(x), key(s[0])) {
      FilterCons(x, s, p);
      var fs := Filter(s, p);
      if p(x) && fs != [] {
        assert fs[0] in s;
        var k :| 0 <= k < |s| && s[k] == fs[0];
        if k > 0 {
          BeforeTransitive(dir, le, key(x), key(s[0]), key(s[k]));
        }
      }
    } else {
      var tail := s[1..];
      assert s == [s[0]] + tail;
      assert SortedBy(tail, key, dir, le) by {
        forall i, j | 0 <= i < j < |tail| ensures Before(dir, le, key(tail[i]), key(tail[j])) {
          assert tail[i] == s[i + 1] && tail[j] == s[j + 1];
        }
      }
      FilterInsert(x, tail, key, dir, le, p);
      FilterCons(s[0], Insert(x, tail, key, dir, le), p);
      FilterCons(s[0], tail, p);
    }
  }

  /**
    Sorting commutes with filtering under a total preorder: filtering a sorted
    list keeps the sorted order of the elements that remain, and gives the
    same list as sorting the filtered input.
   */
  lemma {:induction false} FilterSortBy<T(!new), K(!new)>(xs: seq<T>, key: T -> K, dir: Direction, le: (K, K) -> bool, p: T -> bool)
    requires TotalPreorder(le)
    ensures Filter(SortBy(xs, key, dir, le), p) == SortBy(Filter(xs, p), key, dir, le)
  {
    if xs != [] {
      assert xs == [xs[0]] + xs[1..];
      var tail := xs[1..];
      SortBySorted(tail, key, dir, le);
      FilterInsert(xs[0], SortBy(tail, key, dir, le), key, dir, le, p);
      FilterSortBy(tail, key, dir, le, p);
      FilterCons(xs[0], tail, p);
      if p(xs[0]) {
        assert ([xs[0]] + Filter(tail, p))[1..] == Filter(tail, p);
      }
    }
  }

  /** The elements whose key ties with `k` under `le`: the comparator returns 0 for them. */
  function Ties<T, K>(key: T -> K, le: (K, K) -> bool, k: K): T -> bool {
    (y: T) => le(key(y), k) && le(k, key(y))
  }

  /** A list whose keys all tie with one another is already sorted: the sort keeps it as it is. */
  lemma {:induction false} SortByTiedKeys<T, K(!new)>(xs: seq<T>, key: T -> K, dir: Direction, le: (K, K) -> bool, k: K)
    requires TotalPreorder(le)
    requires forall i :: 0 <= i < |xs| ==> Ties(key, le, k)(xs[i])
    ensures SortBy(xs, key, dir, le) == xs
  {
    if xs != [] {
      var tail := xs[1..];
      assert xs == [xs[0]] + tail;
      SortByTiedKeys(tail, key, dir, le, k);
      if tail != [] {
        assert Ties(key, le, k)(xs[1]);
        BeforeTransitive(Asc, le, key(xs[0]), k, key(tail[0]));
        BeforeTransitive(Asc, le, key(tail[0]), k, key(xs[0]));
      }
    }
  }

  /**
    The sort is stable: elements whose keys the comparator ties come out in the
    order they went in.
   */
  lemma SortByStable<T(!new), K(!new)>(xs: seq<T>, key: T -> K, dir: Direction, le: (K, K) -> bool, k: K)
    requires TotalPreorder(le)
    ensures Filter(SortBy(xs, key, dir, le), Ties(key, le, k)) == Filter(xs, Ties(key, le, k))
  {
    var tied := Filter(xs, Ties(key, le, k));
    FilterSortBy(xs, key, dir, le, Ties(key, le, k));
    assert forall i :: 0 <= i < |tied| ==> tied[i] in tied;
    SortByTiedKeys(tied, key, dir, le, k);
  }

  /**
    A concrete comparator for strings: lexicographic order on code points. It is
    one total preorder `localeCompare` may be replaced by; the model's
    properties hold for any.
   */
  predicate CodePointLe(a: string, b: string) {
    if a == [] then true
    else if b == [] then false
    else if a[0] != b[0] then a[0] < b[0]
    else CodePointLe(a[1..], b[1..])
  }

  lemma {:induction false} CodePointLeTotal(a: string, b: string)
    ensures CodePointLe(a, b) || CodePointLe(b, a)
  {
    if a != [] && b != [] && a[0] == b[0] {
      CodePointLeTotal(a[1..], b[1..]);
    }
  }

  lemma {:induction false} CodePointLeTransitive(a: string, b: string, c: string)
    requires CodePointLe(a, b) && CodePointLe(b, c)
    ensures CodePointLe(a, c)
  {
    if a != [] && b != [] && c != [] && a[0] == b[0] && b[0] == c[0] {
      CodePointLeTransitive(a[1..], b[1..], c[1..]);
    }
  }

  /** Code-point order is a total preorder, so it meets the sort lemmas' requirement. */
  lemma CodePointLeTotalPreorder()
    ensures TotalPreorder(CodePointLe)
  {
    forall a, b ensures CodePointLe(a, b) || CodePointLe(b, a) {
      CodePointLeTotal(a, b);
    }
    forall a, b, c | CodePointLe(a, b) && CodePointLe(b, c) ensures CodePointLe(a, c) {
      CodePointLeTransitive(a, b, c);
    }
  }
}
