/** List operations the pages and hooks share: `filter`, the order-preserving
    subsequence relation it produces, removal of every occurrence of a value, the
    toggle of a multi-select, `map` replacing the records with a given id, filters that
    apply only when switched on, and the count split of complementary filters. */
module Lists {

  /** Whether an element's key differs from `k`: the test that deleting by key keeps. */
  function KeyIsNot<T(!new), K(==)>(key: T -> K, k: K): (r: T -> bool)
    ensures forall x :: r(x) <==> key(x) != k
  {
    (x: T) => key(x) != k
  }

  /** `xs.filter(p)`: the elements of `xs` that satisfy `p`, in order. */
  function Filter<T>(xs: seq<T>, p: T -> bool): (r: seq<T>)
    ensures |r| <= |xs|
    ensures forall i :: 0 <= i < |r| ==> p(r[i])
    decreases |xs|
  {
    if |xs| == 0 then [] else (if p(xs[0]) then [xs[0]] else []) + Filter(xs[1..], p)
  }

  /** `a` is `b` with some elements left out, the others kept in their order. */
  predicate Subsequence<T(==)>(a: seq<T>, b: seq<T>)
    decreases |b|
  {
    if |a| == 0 then true
    else if |b| == 0 then false
    else if a[0] == b[0] then Subsequence(a[1..], b[1..])
    else Subsequence(a, b[1..])
  }

  /** No value occurs twice. */
  predicate Distinct<T(==)>(xs: seq<T>) {
    forall i, j :: 0 <= i < j < |xs| ==> xs[i] != xs[j]
  }

  /** An element is kept exactly when it occurs and satisfies the predicate. */
  lemma {:induction false} FilterMembers<T>(xs: seq<T>, p: T -> bool, x: T)
    ensures x in Filter(xs, p) <==> x in xs && p(x)
    decreases |xs|
  {
    if |xs| > 0 {
      FilterMembers(xs[1..], p, x);
      assert xs == [xs[0]] + xs[1..];
    }
  }

  /** What `filter` keeps is a subsequence of what it read. */
  lemma {:induction false} FilterIsSubsequence<T>(xs: seq<T>, p: T -> bool)
    ensures Subsequence(Filter(xs, p), xs)
    decreases |xs|
  {
    if |xs| > 0 {
      FilterIsSubsequence(xs[1..], p);
      var r := Filter(xs, p);
      if p(xs[0]) {
        assert r[0] == xs[0] && r[1..] == Filter(xs[1..], p);
      } else {
        assert r == Filter(xs[1..], p);
        SkipHead(r, xs);
      }
    }
  }

  lemma SkipHead<T>(a: seq<T>, b: seq<T>)
    requires |b| > 0 && Subsequence(a, b[1..])
    ensures Subsequence(a, b)
    decreases |b|, 0
  {
    if |a| > 0 && a[0] == b[0] {
      SubsequenceTail(a, b[1..]);
    }
  }

  /** Dropping the first element of a subsequence keeps it one. */
  lemma {:induction false} SubsequenceTail<T>(a: seq<T>, b: seq<T>)
    requires |a| > 0 && Subsequence(a, b)
    ensures Subsequence(a[1..], b)
    decreases |b|, 1
  {
    if a[0] == b[0] {
      SkipHead(a[1..], b);
    } else {
      SubsequenceTail(a, b[1..]);
      SkipHead(a[1..], b);
    }
  }

  /** A subsequence is never longer. */
  lemma {:induction false} SubsequenceLength<T>(a: seq<T>, b: seq<T>)
    requires Subsequence(a, b)
    ensures |a| <= |b|
    decreases |b|
  {
    if |a| > 0 {
      if a[0] == b[0] {
        SubsequenceLength(a[1..], b[1..]);
      } else {
        SubsequenceLength(a, b[1..]);
      }
    }
  }

  /** A filter every element passes changes nothing. */
  lemma {:induction false} FilterKeepsAll<T>(xs: seq<T>, p: T -> bool)
    requires forall i :: 0 <= i < |xs| ==> p(xs[i])
    ensures Filter(xs, p) == xs
    decreases |xs|
  {
    if |xs| > 0 {
      FilterKeepsAll(xs[1..], p);
    }
  }

  lemma {:induction false} FilterConcat<T>(a: seq<T>, b: seq<T>, p: T -> bool)
    ensures Filter(a + b, p) == Filter(a, p) + Filter(b, p)
    decreases |a|
  {
    if |a| == 0 {
      assert a + b == b;
    } else {
      var head := if p(a[0]) then [a[0]] else [];
      assert (a + b)[0] == a[0] && (a + b)[1..] == a[1..] + b;
      FilterConcat(a[1..], b, p);
      assert head + (Filter(a[1..], p) + Filter(b, p)) == (head + Filter(a[1..], p)) + Filter(b, p);
    }
  }

  /** Filtering a list without repetitions leaves one without repetitions. */
  lemma {:induction false} FilterDistinct<T>(xs: seq<T>, p: T -> bool)
    requires Distinct(xs)
    ensures Distinct(Filter(xs, p))
    decreases |xs|
  {
    if |xs| > 0 {
      var rest := xs[1..];
      assert forall i :: 0 <= i < |rest| ==> rest[i] == xs[i + 1];
      FilterDistinct(rest, p);
      FilterMembers(rest, p, xs[0]);
      if p(xs[0]) {
        DistinctCons(xs[0], Filter(rest, p));
      }
    }
  }

  lemma DistinctCons<T>(x: T, xs: seq<T>)
    requires Distinct(xs) && x !in xs
    ensures Distinct([x] + xs)
  {
    var ys := [x] + xs;
    forall i, j | 0 <= i < j < |ys| ensures ys[i] != ys[j] {
      assert ys[j] == xs[j - 1];
      if i > 0 {
        assert ys[i] == xs[i - 1];
      }
    }
  }

  // ---------------------------------------------------------------------------
  // Removal and toggling

  /** `xs.filter(y => y !== x)`: every occurrence of `x` removed. */
  function RemoveAll<T(==,!new)>(xs: seq<T>, x: T): (r: seq<T>)
    ensures x !in r
    ensures forall y :: y != x ==> (y in r <==> y in xs)
  {
    var r := Filter(xs, y => y != x);
    FilterMembers(xs, y => y != x, x);
    assert forall y :: y != x ==> (y in r <==> y in xs) by {
      forall y | y != x ensures y in r <==> y in xs {
        FilterMembers(xs, z => z != x, y);
      }
    }
    r
  }

  /** Removal keeps the other elements in their order. */
  lemma RemoveAllIsSubsequence<T(!new)>(xs: seq<T>, x: T)
    ensures Subsequence(RemoveAll(xs, x), xs)
  {
    FilterIsSubsequence(xs, y => y != x);
  }

  /** Removing a value that does not occur changes nothing. */
  lemma RemoveAbsent<T(!new)>(xs: seq<T>, x: T)
    requires x !in xs
    ensures RemoveAll(xs, x) == xs
  {
    FilterKeepsAll(xs, y => y != x);
  }

  /** The multi-select toggle: a present value is removed, an absent one appended. */
  function Toggle<T(==,!new)>(xs: seq<T>, x: T): (r: seq<T>)
    ensures x in r <==> x !in xs
    ensures forall y :: y != x ==> (y in r <==> y in xs)
    ensures x !in xs ==> r == xs + [x]
  {
    if x in xs then RemoveAll(xs, x) else xs + [x]
  }

  /** Toggling an absent value twice restores the list. */
  lemma ToggleTwiceRestores<T(!new)>(xs: seq<T>, x: T)
    requires x !in xs
    ensures Toggle(Toggle(xs, x), x) == xs
  {
    FilterConcat(xs, [x], y => y != x);
    FilterKeepsAll(xs, y => y != x);
    assert Filter([x], y => y != x) == [];
  }

  /** Toggling never creates a duplicate. */
  lemma ToggleKeepsDistinct<T(!new)>(xs: seq<T>, x: T)
    requires Distinct(xs)
    ensures Distinct(Toggle(xs, x))
  {
    if x in xs {
      FilterDistinct(xs, y => y != x);
    } else {
      AppendDistinct(xs, x);
    }
  }

  lemma AppendDistinct<T>(xs: seq<T>, x: T)
    requires Distinct(xs) && x !in xs
    ensures Distinct(xs + [x])
  {
    var ys := xs + [x];
    forall i, j | 0 <= i < j < |ys| ensures ys[i] != ys[j] {
      assert ys[i] == xs[i];
      if j < |xs| {
        assert ys[j] == xs[j];
      }
    }
  }

  // ---------------------------------------------------------------------------
  // Replacing matching records

  /** `xs.map(x => p(x) ? f(x) : x)`: the matching elements rewritten in place. */
  function MapWhere<T>(xs: seq<T>, p: T -> bool, f: T -> T): (r: seq<T>)
    ensures |r| == |xs|
    ensures forall i :: 0 <= i < |xs| && !p(xs[i]) ==> r[i] == xs[i]
    ensures forall i :: 0 <= i < |xs| && p(xs[i]) ==> r[i] == f(xs[i])
  {
    seq(|xs|, i requires 0 <= i < |xs| => if p(xs[i]) then f(xs[i]) else xs[i])
  }

  /** When nothing matches, the map changes nothing. */
  lemma MapWhereNoMatch<T>(xs: seq<T>, p: T -> bool, f: T -> T)
    requires forall i :: 0 <= i < |xs| ==> !p(xs[i])
    ensures MapWhere(xs, p, f) == xs
  {
  }

  // ---------------------------------------------------------------------------
  // Chained filters and counts

  /** Every list is a subsequence of itself. */
  lemma {:induction false} SubsequenceReflexive<T>(xs: seq<T>)
    ensures Subsequence(xs, xs)
    decreases |xs|
  {
    if |xs| > 0 {
      SubsequenceReflexive(xs[1..]);
    }
  }

  /** A subsequence of a subsequence is one. */
  lemma {:induction false} SubsequenceTransitive<T>(a: seq<T>, b: seq<T>, c: seq<T>)
    requires Subsequence(a, b) && Subsequence(b, c)
    ensures Subsequence(a, c)
    decreases |c|
  {
    if |a| > 0 {
      if b[0] == c[0] {
        if a[0] == b[0] {
          SubsequenceTransitive(a[1..], b[1..], c[1..]);
        } else {
          SubsequenceTransitive(a, b[1..], c[1..]);
          SkipHead(a, c);
        }
      } else {
        SubsequenceTransitive(a, b, c[1..]);
        SkipHead(a, c);
      }
    }
  }

  /** `if (active) xs = xs.filter(p)`: a filter step that only applies when its
      condition holds. */
  function FilterWhen<T(!new)>(active: bool, xs: seq<T>, p: T -> bool): (r: seq<T>)
    ensures Subsequence(r, xs)
    ensures forall x :: x in r <==> x in xs && (!active || p(x))
    ensures !active ==> r == xs
  {
    if active then
      FilterIsSubsequence(xs, p);
      assert forall x :: x in Filter(xs, p) <==> x in xs && p(x) by {
        forall x ensures x in Filter(xs, p) <==> x in xs && p(x) {
          FilterMembers(xs, p, x);
        }
      }
      Filter(xs, p)
    else
      SubsequenceReflexive(xs);
      xs
  }

  /** The elements that pass and the elements that fail add up to the whole list. */
  lemma {:induction false} FilterSplitCount<T>(xs: seq<T>, p: T -> bool, q: T -> bool)
    requires forall x :: q(x) == !p(x)
    ensures |Filter(xs, p)| + |Filter(xs, q)| == |xs|
    decreases |xs|
  {
    if |xs| > 0 {
      FilterSplitCount(xs[1..], p, q);
    }
  }

  /** An element of a subsequence is an element of the whole. */
  lemma {:induction false} SubsequenceMembers<T>(a: seq<T>, b: seq<T>, x: T)
    requires Subsequence(a, b)
    ensures x in a ==> x in b
    decreases |b|
  {
    if |a| > 0 && x in a {
      if a[0] == b[0] {
        SubsequenceMembers(a[1..], b[1..], x);
        if x != a[0] {
          assert x in a[1..];
        }
      } else {
        SubsequenceMembers(a, b[1..], x);
      }
    }
  }

  /** `filter` on a list with a known head. */
  lemma FilterCons<T>(h: T, t: seq<T>, p: T -> bool)
    ensures Filter([h] + t, p) == (if p(h) then [h] else []) + Filter(t, p)
  {
    assert ([h] + t)[0] == h && ([h] + t)[1..] == t;
  }

  /** Two neighbours of which at most one passes the test can trade places without
      changing what `filter` keeps. */
  lemma FilterSwapHeads<T>(a: T, b: T, t: seq<T>, p: T -> bool)
    requires !(p(a) && p(b))
    ensures Filter([a] + ([b] + t), p) == Filter([b] + ([a] + t), p)
  {
    FilterCons(a, [b] + t, p);
    FilterCons(b, t, p);
    FilterCons(b, [a] + t, p);
    FilterCons(a, t, p);
  }
  /** The positions of `xs` whose element satisfies `p`. */
  function Positions<T>(xs: seq<T>, p: T -> bool): set<int> {
    set i | 0 <= i < |xs| && p(xs[i])
  }

  /** Filtering keeps one element per position that satisfies `p`, so its length counts
      those positions. */
  lemma {:induction false} FilterCountsPositions<T>(xs: seq<T>, p: T -> bool)
    ensures |Filter(xs, p)| == |Positions(xs, p)|
    decreases |xs|
  {
    if |xs| > 0 {
      var n := |xs| - 1;
      var init := xs[..n];
      FilterCountsPositions(init, p);
      assert xs == init + [xs[n]];
      FilterConcat(init, [xs[n]], p);
      var last: set<int> := if p(xs[n]) then {n} else {};
      assert Positions(xs, p) == Positions(init, p) + last by {
        forall i | i in Positions(xs, p) ensures i in Positions(init, p) + last {
          if i < n { assert init[i] == xs[i]; }
        }
        forall i | i in Positions(init, p) ensures i in Positions(xs, p) {
          assert init[i] == xs[i];
        }
      }
      assert n !in Positions(init, p);
      assert |Filter([xs[n]], p)| == |last|;
    }
  }
}
