/** The four cards above the category list
    (src/pages/genre_management/components/CategoryStatsOverview.tsx): the number of
    categories, the total and the rounded average of their movie counts, and the top
    category, the first one with the largest count. */
module CategoryStatsOverview {
  import opened ApiTypes
  import opened Aggregates

  /** The movie counts of the categories, in order. */
  function Counts(categories: seq<CategoryStats>): (r: seq<nat>)
    ensures |r| == |categories| && forall i :: 0 <= i < |categories| ==> r[i] == categories[i].movieCount
  {
    seq(|categories|, i requires 0 <= i < |categories| => categories[i].movieCount)
  }

  /** The name and count the top card shows. */
  datatype Top = Top(name: string, movieCount: nat)

  /** The fallback when there is no category. */
  const NoTop := Top("N/A", 0)

  /** The index the `reduce` holds after reading the first `n` categories: it starts at
      the first category and moves only to a strictly larger count. So it is the first
      index whose count is the largest among those read. */
  function TopIndex(categories: seq<CategoryStats>, n: nat): (k: nat)
    requires 0 < |categories| && n <= |categories|
    ensures k < |categories| && (k < n || k == 0)
    ensures forall j :: 0 <= j < n ==> categories[j].movieCount <= categories[k].movieCount
    ensures forall j :: 0 <= j < k ==> categories[j].movieCount < categories[k].movieCount
  {
    if n == 0 then 0
    else
      var k := TopIndex(categories, n - 1);
      if categories[n - 1].movieCount > categories[k].movieCount then n - 1 else k
  }

  /** `topCategory`: the first category with the largest count, or 'N/A' with 0 when
      there is none. */
  function TopCategory(categories: seq<CategoryStats>): (r: Top)
    ensures |categories| == 0 ==> r == NoTop
    ensures |categories| > 0 ==>
              exists k :: 0 <= k < |categories|
                && r == Top(categories[k].name, categories[k].movieCount)
                && (forall j :: 0 <= j < |categories| ==> categories[j].movieCount <= r.movieCount)
                && (forall j :: 0 <= j < k ==> categories[j].movieCount < r.movieCount)
  {
    if |categories| == 0 then NoTop
    else
      var k := TopIndex(categories, |categories|);
      Top(categories[k].name, categories[k].movieCount)
  }

  /** The text of the top card: the top name, or 'N/A' when it is empty. */
  function TopLabel(top: Top): (r: string)
    ensures r != ""
    ensures top.name != "" ==> r == top.name
  {
    if top.name != "" then top.name else "N/A"
  }

  /** The figures of the four cards. */
  datatype Overview = Overview(totalCategories: nat, totalMovies: nat, averagePerCategory: nat, top: Top)

  function OverviewOf(categories: seq<CategoryStats>): (r: Overview)
    ensures r.totalCategories == |categories|
    ensures r.totalMovies == Sum(Counts(categories))
    ensures r.averagePerCategory == RoundedAverage(r.totalMovies, r.totalCategories)
    ensures r.top == TopCategory(categories)
  {
    var total := Sum(Counts(categories));
    Overview(|categories|, total, RoundedAverage(total, |categories|), TopCategory(categories))
  }

  /** Every category's count is at most the total, and the average never exceeds the top
      category's count. */
  lemma AverageAtMostTop(categories: seq<CategoryStats>)
    ensures var o := OverviewOf(categories);
            o.averagePerCategory <= o.top.movieCount
            && forall i :: 0 <= i < |categories| ==> categories[i].movieCount <= o.totalMovies
  {
    var counts := Counts(categories);
    var top := TopCategory(categories).movieCount;
    AverageAtMostBound(counts, top);
    forall i | 0 <= i < |categories| ensures categories[i].movieCount <= Sum(counts) {
      ElementAtMostSum(counts, i);
    }
  }

  /** Among equal largest counts the earliest category is the top one. */
  lemma EarliestMaximumWins(categories: seq<CategoryStats>, k: nat)
    requires k < |categories|
    requires forall j :: 0 <= j < |categories| ==> categories[j].movieCount <= categories[k].movieCount
    requires forall j :: 0 <= j < k ==> categories[j].movieCount < categories[k].movieCount
    ensures TopCategory(categories) == Top(categories[k].name, categories[k].movieCount)
  {
    var t := TopIndex(categories, |categories|);
    assert t == k;
  }
}
