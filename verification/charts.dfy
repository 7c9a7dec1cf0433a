/** The dashboard charts (src/pages/dashboard/components/ChartsGrid.tsx): the categories
    and countries sorted by descending movie count, the top ten categories and top eight
    countries for the bar charts, and the top six categories for the pie chart.

    `Array.prototype.sort` is stable and sorts the caller's array in place; the sort is
    modelled as a stable insertion sort on sequences that returns the reordered array,
    and the pie chart sorts the array the bar chart already sorted. */
module ChartsGrid {
  import opened ApiTypes
  import opened Lists

  /** Non-increasing movie counts. */
  predicate SortedDesc(xs: seq<CategoryStats>) {
    forall i, j :: 0 <= i < j < |xs| ==> xs[i].movieCount >= xs[j].movieCount
  }

  /** Whether a category has the given count. */
  function HasCount(c: nat): CategoryStats -> bool {
    (s: CategoryStats) => s.movieCount == c
  }

  /** Insert `x` before the first element whose count is not larger, so that `x` stays
      ahead of the equal counts that came after it in the input. */
  function Insert(x: CategoryStats, ys: seq<CategoryStats>): (r: seq<CategoryStats>)
    ensures |r| == |ys| + 1
    decreases |ys|
  {
    if |ys| == 0 || ys[0].movieCount <= x.movieCount then [x] + ys
    else [ys[0]] + Insert(x, ys[1..])
  }

  /** `sort((a, b) => b.movieCount - a.movieCount)`. */
  function SortDesc(xs: seq<CategoryStats>): (r: seq<CategoryStats>)
    ensures |r| == |xs|
    decreases |xs|
  {
    if |xs| == 0 then [] else Insert(xs[0], SortDesc(xs[1..]))
  }

  /** Inserting adds exactly the one element. */
  lemma {:induction false} InsertPermutes(x: CategoryStats, ys: seq<CategoryStats>)
    ensures multiset(Insert(x, ys)) == multiset(ys) + multiset{x}
    decreases |ys|
  {
    if |ys| > 0 && ys[0].movieCount > x.movieCount {
      InsertPermutes(x, ys[1..]);
      assert ys == [ys[0]] + ys[1..];
    }
  }

  /** The sort only reorders: the result is a permutation of the input. */
  lemma {:induction false} SortDescPermutes(xs: seq<CategoryStats>)
    ensures multiset(SortDesc(xs)) == multiset(xs)
    decreases |xs|
  {
    if |xs| > 0 {
      SortDescPermutes(xs[1..]);
      InsertPermutes(xs[0], SortDesc(xs[1..]));
      assert xs == [xs[0]] + xs[1..];
    }
  }

  /** The tail of a sorted list is sorted. */
  lemma SortedTail(ys: seq<CategoryStats>)
    requires |ys| > 0 && SortedDesc(ys)
    ensures SortedDesc(ys[1..])
  {
    var rest := ys[1..];
    forall i, j | 0 <= i < j < |rest| ensures rest[i].movieCount >= rest[j].movieCount {
      assert rest[i] == ys[i + 1] && rest[j] == ys[j + 1];
    }
  }

  /** A head no smaller than any element of a sorted tail gives a sorted list. */
  lemma SortedCons(h: CategoryStats, t: seq<CategoryStats>)
    requires SortedDesc(t)
    requires forall k :: 0 <= k < |t| ==> t[k].movieCount <= h.movieCount
    ensures SortedDesc([h] + t)
  {
    var r := [h] + t;
    forall i, j | 0 <= i < j < |r| ensures r[i].movieCount >= r[j].movieCount {
      assert r[j] == t[j - 1];
      if i > 0 {
        assert r[i] == t[i - 1];
      }
    }
  }

  /** Inserting an element no larger than a bound into a list bounded by it keeps the
      bound. */
  lemma {:induction false} InsertBounded(x: CategoryStats, ys: seq<CategoryStats>, b: nat)
    requires x.movieCount <= b
    requires forall k :: 0 <= k < |ys| ==> ys[k].movieCount <= b
    ensures forall k :: 0 <= k < |Insert(x, ys)| ==> Insert(x, ys)[k].movieCount <= b
    decreases |ys|
  {
    if |ys| > 0 && ys[0].movieCount > x.movieCount {
      var rest := ys[1..];
      assert forall k :: 0 <= k < |rest| ==> rest[k] == ys[k + 1];
      InsertBounded(x, rest, b);
      var r := Insert(x, ys);
      assert r == [ys[0]] + Insert(x, rest);
      assert forall k :: 1 <= k < |r| ==> r[k] == Insert(x, rest)[k - 1];
    }
  }

  /** Inserting into a sorted list keeps it sorted. */
  lemma {:induction false} InsertSorted(x: CategoryStats, ys: seq<CategoryStats>)
    requires SortedDesc(ys)
    ensures SortedDesc(Insert(x, ys))
    decreases |ys|
  {
    if |ys| == 0 || ys[0].movieCount <= x.movieCount {
      SortedCons(x, ys);
    } else {
      var rest := ys[1..];
      SortedTail(ys);
      InsertSorted(x, rest);
      assert forall k :: 0 <= k < |rest| ==> rest[k] == ys[k + 1];
      InsertBounded(x, rest, ys[0].movieCount);
      SortedCons(ys[0], Insert(x, rest));
    }
  }

  /** The sort leaves the counts in non-increasing order. */
  lemma {:induction false} SortDescSorted(xs: seq<CategoryStats>)
    ensures SortedDesc(SortDesc(xs))
    decreases |xs|
  {
    if |xs| > 0 {
      SortDescSorted(xs[1..]);
      InsertSorted(xs[0], SortDesc(xs[1..]));
    }
  }

  /** Inserting into a sorted list keeps the order among each count: the new element
      comes first among its equals. */
  lemma {:induction false} InsertStable(x: CategoryStats, ys: seq<CategoryStats>, c: nat)
    requires SortedDesc(ys)
    ensures Filter(Insert(x, ys), HasCount(c)) == Filter([x] + ys, HasCount(c))
    decreases |ys|
  {
    if |ys| > 0 && ys[0].movieCount > x.movieCount {
      var rest := ys[1..];
      var p := HasCount(c);
      SortedTail(ys);
      InsertStable(x, rest, c);
      assert ys == [ys[0]] + rest;
      FilterCons(ys[0], Insert(x, rest), p);
      FilterCons(ys[0], [x] + rest, p);
      FilterSwapHeads(ys[0], x, rest, p);
    }
  }

  /** The sort is stable: for every count, the categories with that count appear in the
      order of the input. */
  lemma {:induction false} SortDescStable(xs: seq<CategoryStats>, c: nat)
    ensures Filter(SortDesc(xs), HasCount(c)) == Filter(xs, HasCount(c))
    decreases |xs|
  {
    if |xs| > 0 {
      var rest := SortDesc(xs[1..]);
      SortDescStable(xs[1..], c);
      SortDescSorted(xs[1..]);
      InsertStable(xs[0], rest, c);
      FilterCons(xs[0], rest, HasCount(c));
      FilterCons(xs[0], xs[1..], HasCount(c));
      assert xs == [xs[0]] + xs[1..];
    }
  }

  /** Sorting a list that is already sorted changes nothing, so sorting twice is sorting
      once. */
  lemma {:induction false} SortDescOfSorted(xs: seq<CategoryStats>)
    requires SortedDesc(xs)
    ensures SortDesc(xs) == xs
    decreases |xs|
  {
    if |xs| > 0 {
      SortedTail(xs);
      SortDescOfSorted(xs[1..]);
      assert xs == [xs[0]] + xs[1..];
    }
  }

  /** A prefix of a sorted list is sorted. */
  lemma TakeSorted(xs: seq<CategoryStats>, n: nat)
    requires SortedDesc(xs)
    ensures SortedDesc(Take(xs, n))
  {
  }

  /** `slice(0, n)`. */
  function Take(xs: seq<CategoryStats>, n: nat): (r: seq<CategoryStats>)
    ensures |r| == if |xs| < n then |xs| else n
    ensures forall i :: 0 <= i < |r| ==> r[i] == xs[i]
  {
    if |xs| < n then xs else xs[..n]
  }

  /** A slice of the pie chart. */
  datatype PieEntry = PieEntry(name: string, value: nat)

  /** `{ name: cat.name || 'Unknown', value: cat.movieCount }`. */
  function ToPieEntry(c: CategoryStats): (r: PieEntry)
    ensures r.value == c.movieCount
    ensures r.name == if c.name == "" then "Unknown" else c.name
  {
    PieEntry(if c.name == "" then "Unknown" else c.name, c.movieCount)
  }

  /** The three data sets, and the caller's two arrays as the in-place sorts leave them. */
  datatype Charts = Charts(
    topCategories: seq<CategoryStats>, topCountries: seq<CountryStats>, categoryPie: seq<PieEntry>,
    categoriesAfter: seq<CategoryStats>, countriesAfter: seq<CountryStats>)

  function ChartsOf(categoryStats: seq<CategoryStats>, countryStats: seq<CountryStats>): (r: Charts)
    ensures r.categoriesAfter == SortDesc(categoryStats) && r.countriesAfter == SortDesc(countryStats)
    ensures r.topCategories == Take(r.categoriesAfter, 10)
    ensures r.topCountries == Take(r.countriesAfter, 8)
    ensures |r.categoryPie| == |Take(SortDesc(r.categoriesAfter), 6)|
    ensures forall i :: 0 <= i < |r.categoryPie| ==> r.categoryPie[i] == ToPieEntry(SortDesc(r.categoriesAfter)[i])
  {
    var categories := SortDesc(categoryStats);
    var countries := SortDesc(countryStats);
    var pieSource := Take(SortDesc(categories), 6);
    var pie := seq(|pieSource|, i requires 0 <= i < |pieSource| => ToPieEntry(pieSource[i]));
    Charts(Take(categories, 10), Take(countries, 8), pie, categories, countries)
  }

  /** The charts show at most 10, 8 and 6 entries, in non-increasing order of count; the
      pie's slices follow the bar chart's first six bars, because the second sort finds
      the array already sorted. */
  lemma ChartsShape(categoryStats: seq<CategoryStats>, countryStats: seq<CountryStats>)
    ensures var r := ChartsOf(categoryStats, countryStats);
            |r.topCategories| == (if |categoryStats| < 10 then |categoryStats| else 10)
            && |r.topCountries| == (if |countryStats| < 8 then |countryStats| else 8)
            && |r.categoryPie| == (if |categoryStats| < 6 then |categoryStats| else 6)
            && SortedDesc(r.topCategories) && SortedDesc(r.topCountries)
            && forall i :: 0 <= i < |r.categoryPie| ==> r.categoryPie[i] == ToPieEntry(r.topCategories[i])
  {
    var categories := SortDesc(categoryStats);
    SortDescSorted(categoryStats);
    SortDescSorted(countryStats);
    SortDescOfSorted(categories);
    TakeSorted(categories, 10);
    TakeSorted(SortDesc(countryStats), 8);
  }

  /** Every charted category comes from the input, and the top entry has the largest
      count of all. */
  lemma ChartedEntriesComeFromInput(categoryStats: seq<CategoryStats>, countryStats: seq<CountryStats>)
    ensures var r := ChartsOf(categoryStats, countryStats);
            (forall i :: 0 <= i < |r.topCategories| ==> r.topCategories[i] in categoryStats)
            && (|r.topCategories| > 0 ==>
                  forall j :: 0 <= j < |categoryStats| ==> categoryStats[j].movieCount <= r.topCategories[0].movieCount)
  {
    var sorted := SortDesc(categoryStats);
    SortDescSorted(categoryStats);
    SortDescPermutes(categoryStats);
    forall i | 0 <= i < |sorted| ensures sorted[i] in categoryStats {
      assert sorted[i] in multiset(sorted);
    }
    forall j | 0 <= j < |categoryStats| ensures categoryStats[j].movieCount <= sorted[0].movieCount {
      assert categoryStats[j] in multiset(sorted);
      var k :| 0 <= k < |sorted| && sorted[k] == categoryStats[j];
    }
  }
}
