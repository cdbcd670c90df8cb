/**
 * Sequence operations shared by the list pages: `Array.prototype.filter`,
 * a left-to-right sum (`reduce` with `+` from 0), order-preserving sublists,
 * and a stable insertion sort standing in for `Array.prototype.sort`.
 */
module Seqs {

  /** `a` is `b` with some elements dropped and the rest kept in order. */
  predicate Sublist<T(==)>(a: seq<T>, b: seq<T>)
    decreases |b|
  {
    if |a| == 0 then true
    else if |b| == 0 then false
    else (a[0] == b[0] && Sublist(a[1..], b[1..])) || Sublist(a, b[1..])
  }

  /** `s.filter(p)`. */
  function Filter<T(==)>(s: seq<T>, p: T -> bool): (r: seq<T>)
    ensures |r| <= |s|
    ensures forall i :: 0 <= i < |r| ==> r[i] in s && p(r[i])
    ensures forall i :: 0 <= i < |s| && p(s[i]) ==> s[i] in r
    ensures Sublist(r, s)
    ensures (forall i :: 0 <= i < |s| ==> p(s[i])) ==> r == s
  {
    if |s| == 0 then []
    else if p(s[0]) then [s[0]] + Filter(s[1..], p)
    else Filter(s[1..], p)
  }

  /** `filter` drops no duplicates: an element satisfying the predicate occurs in
      the result as often as in the input, and any other element not at all. */
  lemma {:induction false} FilterCounts<T(!new)>(s: seq<T>, p: T -> bool)
    ensures forall x :: multiset(Filter(s, p))[x] == if p(x) then multiset(s)[x] else 0
  {
    if |s| > 0 {
      FilterCounts(s[1..], p);
      assert s == [s[0]] + s[1..];
      if p(s[0]) {
        assert Filter(s, p) == [s[0]] + Filter(s[1..], p);
      }
    }
  }

  /** Filtering twice by the same predicate changes nothing the second time. */
  lemma FilterIdempotent<T>(s: seq<T>, p: T -> bool)
    ensures Filter(Filter(s, p), p) == Filter(s, p)
  {
  }

  /** Filtering by `p` then by `q` is filtering by both at once. */
  lemma {:induction false} FilterFilter<T>(s: seq<T>, p: T -> bool, q: T -> bool)
    ensures Filter(Filter(s, p), q) == Filter(s, x => p(x) && q(x))
  {
    if |s| > 0 {
      FilterFilter(s[1..], p, q);
      if p(s[0]) {
        assert Filter(s, p) == [s[0]] + Filter(s[1..], p);
        assert Filter(s, p)[1..] == Filter(s[1..], p);
      }
    }
  }

  /** Filters by predicates that agree on every element are equal. */
  lemma {:induction false} FilterExt<T>(s: seq<T>, p: T -> bool, q: T -> bool)
    requires forall i :: 0 <= i < |s| ==> p(s[i]) == q(s[i])
    ensures Filter(s, p) == Filter(s, q)
  {
    if |s| > 0 {
      FilterExt(s[1..], p, q);
    }
  }

  /** Filtering distributes over concatenation. */
  lemma {:induction false} FilterAppend<T>(a: seq<T>, b: seq<T>, p: T -> bool)
    ensures Filter(a + b, p) == Filter(a, p) + Filter(b, p)
  {
    if |a| == 0 {
      assert a + b == b;
    } else {
      assert (a + b)[1..] == a[1..] + b;
      FilterAppend(a[1..], b, p);
    }
  }

  /** Filtering by a stronger predicate keeps a sublist of what a weaker one keeps. */
  lemma {:induction false} FilterMonotone<T>(s: seq<T>, p: T -> bool, q: T -> bool)
    requires forall i :: 0 <= i < |s| && p(s[i]) ==> q(s[i])
    ensures Sublist(Filter(s, p), Filter(s, q))
  {
    if |s| > 0 {
      FilterMonotone(s[1..], p, q);
      if p(s[0]) {
        assert Filter(s, p) == [s[0]] + Filter(s[1..], p);
        assert Filter(s, q) == [s[0]] + Filter(s[1..], q);
        assert Filter(s, p)[1..] == Filter(s[1..], p);
        assert Filter(s, q)[1..] == Filter(s[1..], q);
      } else if q(s[0]) {
        SublistCons(Filter(s, p), Filter(s[1..], q), s[0]);
        assert Filter(s, q) == [s[0]] + Filter(s[1..], q);
      }
    }
  }

  /** A sublist stays one when the longer list gains a head. */
  lemma {:induction false} SublistCons<T>(a: seq<T>, b: seq<T>, x: T)
    requires Sublist(a, b)
    ensures Sublist(a, [x] + b)
  {
    if |a| > 0 {
      assert ([x] + b)[1..] == b;
    }
  }

  /** The sum of `f` over `s`, added from the left starting at 0. */
  function Sum<T>(s: seq<T>, f: T -> real): real {
    if |s| == 0 then 0.0 else f(s[0]) + Sum(s[1..], f)
  }

  lemma {:induction false} SumAppend<T>(a: seq<T>, b: seq<T>, f: T -> real)
    ensures Sum(a + b, f) == Sum(a, f) + Sum(b, f)
  {
    if |a| > 0 {
      assert (a + b)[1..] == a[1..] + b;
      SumAppend(a[1..], b, f);
    } else {
      assert a + b == b;
    }
  }

  /** Splitting a list by any predicate conserves the sum. */
  lemma {:induction false} SumFilterSplit<T>(s: seq<T>, f: T -> real, p: T -> bool)
    ensures Sum(s, f) == Sum(Filter(s, p), f) + Sum(Filter(s, x => !p(x)), f)
  {
    if |s| > 0 {
      SumFilterSplit(s[1..], f, p);
    }
  }

  /** The same, for a predicate `q` given as the complement of `p`. */
  lemma SumComplementSplit<T>(s: seq<T>, f: T -> real, p: T -> bool, q: T -> bool)
    requires forall i :: 0 <= i < |s| ==> q(s[i]) == !p(s[i])
    ensures Sum(s, f) == Sum(Filter(s, p), f) + Sum(Filter(s, q), f)
  {
    SumFilterSplit(s, f, p);
    FilterExt(s, x => !p(x), q);
  }

  /** Elements with a zero value contribute nothing to a sum. */
  lemma {:induction false} SumDropZeros<T>(s: seq<T>, f: T -> real, p: T -> bool)
    requires forall i :: 0 <= i < |s| && !p(s[i]) ==> f(s[i]) == 0.0
    ensures Sum(Filter(s, p), f) == Sum(s, f)
  {
    SumFilterSplit(s, f, p);
    SumZero(Filter(s, x => !p(x)), f);
  }

  lemma {:induction false} SumZero<T>(s: seq<T>, f: T -> real)
    requires forall i :: 0 <= i < |s| ==> f(s[i]) == 0.0
    ensures Sum(s, f) == 0.0
  {
    if |s| > 0 {
      SumZero(s[1..], f);
    }
  }

  /* ---------------------------------------------------------------------- */
  /* Stable sorting                                                         */
  /* ---------------------------------------------------------------------- */

  /** `lt` is a strict weak order: irreflexive, transitive, and with transitive
      incomparability. These are the comparators `Array.prototype.sort` is
      consistent with. */
  ghost predicate StrictWeakOrder<T(!new)>(lt: (T, T) -> bool) {
    && (forall a :: !lt(a, a))
    && (forall a, b, c :: lt(a, b) && lt(b, c) ==> lt(a, c))
    && (forall a, b, c :: !lt(a, b) && !lt(b, c) ==> !lt(a, c))
  }

  /** No later element is strictly before an earlier one. */
  predicate SortedBy<T>(s: seq<T>, lt: (T, T) -> bool) {
    forall i, j :: 0 <= i < j < |s| ==> !lt(s[j], s[i])
  }

  /** Puts `x` in front of the first element that is not strictly before it. */
  function Insert<T(!new)>(x: T, s: seq<T>, lt: (T, T) -> bool): (r: seq<T>)
    requires StrictWeakOrder(lt) && SortedBy(s, lt)
    ensures SortedBy(r, lt)
    ensures multiset(r) == multiset(s) + multiset{x}
    ensures |r| == |s| + 1
  {
    if |s| == 0 then [x]
    else if !lt(s[0], x) then
      InsertFront(x, s, lt);
      [x] + s
    else
      var t := Insert(x, s[1..], lt);
      assert s == [s[0]] + s[1..];
      InsertBehind(x, s, t, lt);
      [s[0]] + t
  }

  /** A head that no element is strictly before keeps a sorted list sorted. */
  lemma ConsSorted<T>(y: T, t: seq<T>, lt: (T, T) -> bool)
    requires SortedBy(t, lt)
    requires forall k :: 0 <= k < |t| ==> !lt(t[k], y)
    ensures SortedBy([y] + t, lt)
  {
    forall i, j | 0 <= i < j < |[y] + t| ensures !lt(([y] + t)[j], ([y] + t)[i]) {
      if i > 0 {
        assert ([y] + t)[i] == t[i - 1] && ([y] + t)[j] == t[j - 1];
      }
    }
  }

  lemma InsertFront<T(!new)>(x: T, s: seq<T>, lt: (T, T) -> bool)
    requires StrictWeakOrder(lt) && SortedBy(s, lt)
    requires |s| > 0 && !lt(s[0], x)
    ensures SortedBy([x] + s, lt)
  {
    forall i | 0 <= i < |s| ensures !lt(s[i], x) {
      if i > 0 { assert !lt(s[i], s[0]); }
    }
    ConsSorted(x, s, lt);
  }

  lemma InsertBehind<T(!new)>(x: T, s: seq<T>, t: seq<T>, lt: (T, T) -> bool)
    requires StrictWeakOrder(lt) && SortedBy(s, lt) && SortedBy(t, lt)
    requires |s| > 0 && lt(s[0], x)
    requires multiset(t) == multiset(s[1..]) + multiset{x}
    ensures SortedBy([s[0]] + t, lt)
  {
    forall k | 0 <= k < |t| ensures !lt(t[k], s[0]) {
      assert t[k] in multiset(t);
      if t[k] != x {
        assert t[k] in multiset(s[1..]);
        var j :| 0 <= j < |s[1..]| && s[1..][j] == t[k];
        assert s[j + 1] == t[k];
      }
    }
    ConsSorted(s[0], t, lt);
  }

  /** The sort of `s` under `lt`: `[...s].sort(cmp)` for a comparator that is
      negative, zero or positive as `lt(a, b)`, neither, or `lt(b, a)`. It is
      stable, as `SortByStable` shows. */
  function SortBy<T(!new)>(s: seq<T>, lt: (T, T) -> bool): (r: seq<T>)
    requires StrictWeakOrder(lt)
    ensures SortedBy(r, lt)
    ensures multiset(r) == multiset(s)
  {
    if |s| == 0 then []
    else
      assert s == [s[0]] + s[1..];
      Insert(s[0], SortBy(s[1..], lt), lt)
  }

  /** Neither of `a` and `b` is strictly before the other. */
  predicate Tied<T>(a: T, b: T, lt: (T, T) -> bool) {
    !lt(a, b) && !lt(b, a)
  }

  /** The elements of `s` tied with `x`, in the order they appear. */
  function Ties<T>(s: seq<T>, x: T, lt: (T, T) -> bool): (r: seq<T>)
    ensures |r| <= |s|
  {
    if |s| == 0 then []
    else if Tied(x, s[0], lt) then [s[0]] + Ties(s[1..], x, lt)
    else Ties(s[1..], x, lt)
  }

  /** Inserting `x` puts it in front of every element already tied with it. */
  lemma {:induction false} InsertTies<T(!new)>(x: T, s: seq<T>, y: T, lt: (T, T) -> bool)
    requires StrictWeakOrder(lt) && SortedBy(s, lt)
    ensures Ties(Insert(x, s, lt), y, lt) == (if Tied(y, x, lt) then [x] else []) + Ties(s, y, lt)
  {
    if |s| > 0 && lt(s[0], x) {
      var t := Insert(x, s[1..], lt);
      assert Insert(x, s, lt) == [s[0]] + t;
      assert ([s[0]] + t)[1..] == t;
      InsertTies(x, s[1..], y, lt);
      if Tied(y, x, lt) {
        assert !Tied(y, s[0], lt);
      }
    } else if |s| > 0 {
      assert ([x] + s)[1..] == s;
    }
  }

  /** The sort is stable: the elements tied with any `x` keep their input order. */
  lemma {:induction false} SortByStable<T(!new)>(s: seq<T>, x: T, lt: (T, T) -> bool)
    requires StrictWeakOrder(lt)
    ensures Ties(SortBy(s, lt), x, lt) == Ties(s, x, lt)
  {
    if |s| > 0 {
      SortByStable(s[1..], x, lt);
      InsertTies(s[0], SortBy(s[1..], lt), x, lt);
    }
  }
}
