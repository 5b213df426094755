/**
 * Ordering and sorting. JavaScript's default `sort` compares the text of the
 * elements character by character; `localeCompare` is read the same way here.
 * `SortBy` is a stable insertion sort, as `Array.prototype.sort` is stable.
 */
module Order {

  /** `a` comes strictly before `b` in character order. */
  predicate Below(a: string, b: string)
    decreases |a|
  {
    (a == [] && b != []) || (a != [] && b != [] && (a[0] < b[0] || (a[0] == b[0] && Below(a[1..], b[1..]))))
  }

  lemma {:induction false} BelowIrreflexive(a: string)
    ensures !Below(a, a)
    decreases |a|
  {
    if a != [] { BelowIrreflexive(a[1..]); }
  }

  lemma {:induction false} BelowTransitive(a: string, b: string, c: string)
    requires Below(a, b) && Below(b, c)
    ensures Below(a, c)
    decreases |a|
  {
    if a != [] && b != [] && c != [] && a[0] == b[0] == c[0] {
      BelowTransitive(a[1..], b[1..], c[1..]);
    }
  }

  lemma {:induction false} BelowTotal(a: string, b: string)
    ensures a == b || Below(a, b) || Below(b, a)
    decreases |a|
  {
    if a != [] && b != [] && a[0] == b[0] {
      BelowTotal(a[1..], b[1..]);
      if a[1..] == b[1..] {
        assert a == [a[0]] + a[1..] && b == [b[0]] + b[1..];
      }
    }
  }

  /** Not being below is transitive: what `SortBy` needs of its comparison. */
  lemma NotBelowTransitive(a: string, b: string, c: string)
    requires !Below(a, b) && !Below(b, c)
    ensures !Below(a, c)
  {
    BelowTotal(a, b);
    BelowTotal(b, c);
    if Below(a, c) {
      if a == b {
      } else {
        BelowTransitive(b, a, c);
      }
    }
  }

  /** An asymmetric comparison whose complement is transitive (a strict weak order). */
  ghost predicate Weak<T(!new)>(less: (T, T) -> bool) {
    && (forall a, b :: less(a, b) ==> !less(b, a))
    && (forall a, b, c :: !less(a, b) && !less(b, c) ==> !less(a, c))
  }

  ghost predicate Sorted<T>(s: seq<T>, less: (T, T) -> bool) {
    forall i, j :: 0 <= i < j < |s| ==> !less(s[j], s[i])
  }

  /** Inserts `x` after every element of `sorted` it is not below. */
  function Insert<T>(sorted: seq<T>, x: T, less: (T, T) -> bool): (r: seq<T>)
    ensures multiset(r) == multiset(sorted) + multiset{x}
    ensures forall e :: e in r ==> e == x || e in sorted
  {
    if sorted == [] || !less(x, sorted[|sorted| - 1]) then sorted + [x]
    else
      var n := |sorted| - 1;
      assert sorted == sorted[..n] + [sorted[n]];
      Insert(sorted[..n], x, less) + [sorted[n]]
  }

  /** `xs.sort(compare)` with the comparison `less`. */
  function SortBy<T>(xs: seq<T>, less: (T, T) -> bool): (r: seq<T>)
    ensures multiset(r) == multiset(xs)
  {
    if xs == [] then []
    else
      var n := |xs| - 1;
      assert xs == xs[..n] + [xs[n]];
      Insert(SortBy(xs[..n], less), xs[n], less)
  }

  lemma {:induction false} InsertSorted<T(!new)>(sorted: seq<T>, x: T, less: (T, T) -> bool)
    requires Weak(less) && Sorted(sorted, less)
    ensures Sorted(Insert(sorted, x, less), less)
    decreases |sorted|
  {
    if sorted == [] || !less(x, sorted[|sorted| - 1]) {
    } else {
      var n := |sorted| - 1;
      var last := sorted[n];
      var front := Insert(sorted[..n], x, less);
      InsertSorted(sorted[..n], x, less);
      forall i | 0 <= i < |front|
        ensures !less(last, front[i])
      {
        assert front[i] in front;
        if front[i] != x {
          assert front[i] in sorted[..n];
          var k :| 0 <= k < n && sorted[..n][k] == front[i];
          assert sorted[k] == front[i];
        }
      }
    }
  }

  /** The result of `SortBy` is ordered and a permutation of its input. */
  lemma {:induction false} SortBySorted<T(!new)>(xs: seq<T>, less: (T, T) -> bool)
    requires Weak(less)
    ensures Sorted(SortBy(xs, less), less)
    ensures multiset(SortBy(xs, less)) == multiset(xs)
    decreases |xs|
  {
    if xs != [] {
      var n := |xs| - 1;
      SortBySorted(xs[..n], less);
      InsertSorted(SortBy(xs[..n], less), xs[n], less);
    }
  }

  /** No element occurs twice. */
  predicate Distinct<T(==)>(s: seq<T>) {
    forall i, j :: 0 <= i < j < |s| ==> s[i] != s[j]
  }

  lemma {:induction false} DistinctCount<T>(s: seq<T>, x: T)
    requires Distinct(s)
    ensures multiset(s)[x] <= 1
    decreases |s|
  {
    if s != [] {
      var n := |s| - 1;
      assert s == s[..n] + [s[n]];
      assert Distinct(s[..n]);
      DistinctCount(s[..n], x);
      if s[n] == x {
        assert x !in s[..n];
      }
    }
  }

  lemma TwiceCount<T>(s: seq<T>, i: nat, j: nat)
    requires i < j < |s| && s[i] == s[j]
    ensures multiset(s)[s[i]] >= 2
  {
    assert s == s[..j] + s[j..];
    assert s[i] in s[..j] && s[j] in s[j..];
  }

  /** A rearrangement of a list without repeats has no repeats either. */
  lemma DistinctPermutation<T>(s: seq<T>, t: seq<T>)
    requires multiset(s) == multiset(t) && Distinct(t)
    ensures Distinct(s)
  {
    forall i, j | 0 <= i < j < |s|
      ensures s[i] != s[j]
    {
      if s[i] == s[j] {
        TwiceCount(s, i, j);
        DistinctCount(t, s[i]);
      }
    }
  }

  /** `s.filter(keep)` */
  function Filter<T(!new)>(s: seq<T>, keep: T -> bool): (r: seq<T>)
    ensures |r| <= |s|
    ensures forall x :: x in r <==> x in s && keep(x)
    decreases |s|
  {
    if s == [] then []
    else
      var n := |s| - 1;
      assert s == s[..n] + [s[n]];
      Filter(s[..n], keep) + (if keep(s[n]) then [s[n]] else [])
  }

  /** Filtering a sequence without repetitions gives one without repetitions. */
  lemma {:induction false} FilterDistinct<T(!new)>(s: seq<T>, keep: T -> bool)
    requires Distinct(s)
    ensures Distinct(Filter(s, keep))
    decreases |s|
  {
    if s != [] {
      var n := |s| - 1;
      var front := s[..n];
      assert Distinct(front) by {
        assert forall i :: 0 <= i < |front| ==> front[i] == s[i];
      }
      FilterDistinct(front, keep);
      assert s[n] !in front;
    }
  }

  /** Filtering with a test every element passes keeps the whole sequence. */
  lemma {:induction false} FilterAll<T(!new)>(s: seq<T>, keep: T -> bool)
    requires forall i :: 0 <= i < |s| ==> keep(s[i])
    ensures Filter(s, keep) == s
    decreases |s|
  {
    if s != [] {
      var n := |s| - 1;
      var front := s[..n];
      assert forall i :: 0 <= i < |front| ==> keep(front[i]) by {
        forall i | 0 <= i < |front|
          ensures keep(front[i])
        {
          assert front[i] == s[i];
        }
      }
      FilterAll(front, keep);
      assert Filter(s, keep) == Filter(front, keep) + [s[n]];
      assert front + [s[n]] == s;
    }
  }

  /** Filtering keeps the order of what it keeps: it is the filtered front followed by the last element if kept. */
  lemma FilterSnoc<T(!new)>(s: seq<T>, x: T, keep: T -> bool)
    ensures Filter(s + [x], keep) == Filter(s, keep) + (if keep(x) then [x] else [])
  {
    assert (s + [x])[..|s|] == s;
  }

  /** Filtering a sequence with a first element: that element if kept, then the filtered rest. */
  lemma {:induction false} FilterCons<T(!new)>(x: T, s: seq<T>, keep: T -> bool)
    ensures Filter([x] + s, keep) == (if keep(x) then [x] else []) + Filter(s, keep)
    decreases |s|
  {
    var t := [x] + s;
    if s == [] {
      assert t[..0] == [];
    } else {
      var n := |s| - 1;
      assert t[..|t| - 1] == [x] + s[..n];
      assert t[|t| - 1] == s[n];
      FilterCons(x, s[..n], keep);
    }
  }

  /** Filtering drops a first element it rejects and keeps a rest it accepts whole. */
  lemma FilterDropsFirst<T(!new)>(x: T, s: seq<T>, keep: T -> bool)
    requires !keep(x) && forall i :: 0 <= i < |s| ==> keep(s[i])
    ensures Filter([x] + s, keep) == s
  {
    FilterCons(x, s, keep);
    FilterAll(s, keep);
  }
}
