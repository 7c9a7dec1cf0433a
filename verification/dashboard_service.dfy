/** The dashboard loaders: the cached progressive loader, the cached "optimized" loader
    (src/services/dashboardService.ts:51-249) and the uncached all-settled merge
    (src/services/function.ts:429-496).

    Every network request is an input: a `Call` gives the clock when the cache is read,
    the producer's settled outcome and the clock when it settled. The loaders are pure
    functions from (cache, calls) to (cache', stats, progress events or loading status,
    requests actually sent). */
module DashboardService {
  import opened Wrappers
  import opened ApiTypes
  import opened TtlCache

  /** The `data` of one stat endpoint's envelope, tagged with its shape. */
  datatype StatData =
    | CategoryData(categories: seq<CategoryStats>)
    | CountryData(countries: seq<CountryStats>)
    | TopRatedData(topRated: seq<TopRatedMovie>)
    | TopViewedData(topViewed: seq<TopViewedMovie>)
    | TopFavoriteData(topFavorite: seq<TopFavoriteMovie>)
    | TopCommentedData(topCommented: seq<TopCommentedMovie>)
    | ViewStatsData(viewStats: ViewStats)

  /** A stat endpoint's response body: `null` (or `undefined`), another falsy value such
      as the empty string axios gives for an empty body, or the envelope, whose `data`
      may be missing. Reading `.data` of the first throws; of the second it gives
      `undefined`. */
  datatype StatReply = NullBody | FalsyBody | Envelope(success: bool, message: string, data: Option<StatData>)

  /** The requests the loaders can send; limits are query parameters, not cache keys. */
  datatype StatRequest =
    | CategoriesRequest
    | CountriesRequest
    | TopRatedRequest(limit: int)
    | TopViewedRequest(limit: int)
    | TopFavoriteRequest(limit: int)
    | TopCommentedRequest(limit: int)
    | ViewStatsRequest(period: string, limit: int)

  const KeyCategories := "categories"
  const KeyCountries := "countries"
  const KeyTopRated := "topRated"
  const KeyTopViewed := "topViewed"
  const KeyTopFavorite := "topFavorite"
  const KeyTopCommented := "topCommented"
  const KeyViewStats := "viewStats"

  /** How each of the seven fetches goes, should its producer be invoked. */
  datatype DashboardCalls = DashboardCalls(
    categories: Call<StatReply>, countries: Call<StatReply>,
    topRated: Call<StatReply>, topViewed: Call<StatReply>,
    topFavorite: Call<StatReply>, topCommented: Call<StatReply>,
    viewStats: Call<StatReply>)

  // ---------------------------------------------------------------------------
  // Reading one field out of a settled fetch

  function AsCategories(d: StatData): Option<seq<CategoryStats>> {
    if d.CategoryData? then Some(d.categories) else None
  }
  function AsCountries(d: StatData): Option<seq<CountryStats>> {
    if d.CountryData? then Some(d.countries) else None
  }
  function AsTopRated(d: StatData): Option<seq<TopRatedMovie>> {
    if d.TopRatedData? then Some(d.topRated) else None
  }
  function AsTopViewed(d: StatData): Option<seq<TopViewedMovie>> {
    if d.TopViewedData? then Some(d.topViewed) else None
  }
  function AsTopFavorite(d: StatData): Option<seq<TopFavoriteMovie>> {
    if d.TopFavoriteData? then Some(d.topFavorite) else None
  }
  function AsTopCommented(d: StatData): Option<seq<TopCommentedMovie>> {
    if d.TopCommentedData? then Some(d.topCommented) else None
  }
  function AsViewStats(d: StatData): Option<ViewStats> {
    if d.ViewStatsData? then Some(d.viewStats) else None
  }

  /** The wrapper handed back a truthy body (`result.status === 'fulfilled' && result.value`). */
  predicate Truthy(value: Option<StatReply>) {
    value.Some? && value.value.Envelope?
  }

  /** `reply.data || empty`, where data of another stat's shape reads as missing. */
  function DataOr<T>(reply: StatReply, extract: StatData -> Option<T>, empty: T): T {
    if reply.Envelope? && reply.data.Some? then extract(reply.data.value).GetOr(empty) else empty
  }

  /** The merge rule of both cached loaders: a truthy value replaces the field with its
      data (or the empty default when the data is missing); a null value keeps it. */
  function Settle<T>(current: T, value: Option<StatReply>, extract: StatData -> Option<T>, empty: T): (r: T)
    ensures !Truthy(value) ==> r == current
    ensures Truthy(value) && value.value.data.Some? && extract(value.value.data.value).Some? ==>
              r == extract(value.value.data.value).value
    ensures Truthy(value) && (value.value.data.None? || extract(value.value.data.value).None?) ==> r == empty
  {
    if Truthy(value) then DataOr(value.value, extract, empty) else current
  }

  /** The value the wrapper hands back for `key` when it reads the cache `cache`. */
  function ValueOf(cache: Cache<StatReply>, key: string, call: Call<StatReply>): Option<StatReply> {
    FetchWithCache(cache, key, call).value
  }

  /** The request a fetch of `key` sends: `request` when the producer runs, none on a hit. */
  function SentBy(cache: Cache<StatReply>, key: string, call: Call<StatReply>, request: StatRequest): (r: seq<StatRequest>)
    ensures Fresh(cache, key, call) ==> r == []
    ensures !Fresh(cache, key, call) ==> r == [request]
  {
    if FetchWithCache(cache, key, call).consulted then [request] else []
  }

  // ---------------------------------------------------------------------------
  // Progressive loader

  /** `Partial<DashboardStats>`: the fields a progress event carries. */
  datatype PartialStats = PartialStats(
    categoryStats: Option<seq<CategoryStats>>, countryStats: Option<seq<CountryStats>>,
    topRated: Option<seq<TopRatedMovie>>, topViewed: Option<seq<TopViewedMovie>>,
    topFavorite: Option<seq<TopFavoriteMovie>>, topCommented: Option<seq<TopCommentedMovie>>,
    viewStats: Option<ViewStats>)

  const NoFields := PartialStats(None, None, None, None, None, None, None)

  /** One `onProgress(stage, data)` invocation. */
  datatype ProgressEvent = ProgressEvent(stage: string, data: PartialStats)

  datatype Progressive = Progressive(
    cache: Cache<StatReply>, stats: DashboardStats,
    events: seq<ProgressEvent>, sent: seq<StatRequest>)

  /** `getDashboardStatsProgressive`: three stages in order, each fetching two stats
      through the cache, merging them into the accumulator and reporting exactly those
      two fields. View statistics are never fetched. It never rejects. */
  function GetDashboardStatsProgressive(cache: Cache<StatReply>, calls: DashboardCalls): (r: Progressive)
    // exactly three progress events, in stage order, each with only its stage's fields
    ensures |r.events| == 3
    ensures r.events[0] == ProgressEvent("core", NoFields.(categoryStats := Some(r.stats.categoryStats), countryStats := Some(r.stats.countryStats)))
    ensures r.events[1] == ProgressEvent("movies", NoFields.(topRated := Some(r.stats.topRated), topViewed := Some(r.stats.topViewed)))
    ensures r.events[2] == ProgressEvent("additional", NoFields.(topFavorite := Some(r.stats.topFavorite), topCommented := Some(r.stats.topCommented)))
    ensures r.stats == ProgressiveStats(cache, calls)
    ensures r.sent == ProgressiveSent(cache, calls)
    ensures r.cache == FetchAll(cache, ProgressiveUses(calls))
  {
    var stats := ProgressiveStats(cache, calls);
    Progressive(FetchAll(cache, ProgressiveUses(calls)), stats, StageEvents(stats), ProgressiveSent(cache, calls))
  }

  /** The accumulator once the three stages have merged: each field is its fetch's data
      when the wrapper handed back a body, and stays empty otherwise. */
  function ProgressiveStats(cache: Cache<StatReply>, calls: DashboardCalls): (r: DashboardStats)
    ensures var v := ValueOf(cache, KeyCategories, calls.categories);
            r.categoryStats == (if Truthy(v) && v.value.data.Some? && v.value.data.value.CategoryData?
                                then v.value.data.value.categories else [])
    ensures var v := ValueOf(cache, KeyCountries, calls.countries);
            r.countryStats == (if Truthy(v) && v.value.data.Some? && v.value.data.value.CountryData?
                               then v.value.data.value.countries else [])
    ensures var v := ValueOf(cache, KeyTopRated, calls.topRated);
            r.topRated == (if Truthy(v) && v.value.data.Some? && v.value.data.value.TopRatedData?
                           then v.value.data.value.topRated else [])
    ensures var v := ValueOf(cache, KeyTopViewed, calls.topViewed);
            r.topViewed == (if Truthy(v) && v.value.data.Some? && v.value.data.value.TopViewedData?
                            then v.value.data.value.topViewed else [])
    ensures var v := ValueOf(cache, KeyTopFavorite, calls.topFavorite);
            r.topFavorite == (if Truthy(v) && v.value.data.Some? && v.value.data.value.TopFavoriteData?
                              then v.value.data.value.topFavorite else [])
    ensures var v := ValueOf(cache, KeyTopCommented, calls.topCommented);
            r.topCommented == (if Truthy(v) && v.value.data.Some? && v.value.data.value.TopCommentedData?
                               then v.value.data.value.topCommented else [])
    ensures r.viewStats == DefaultViewStats
  {
    EmptyStats.(
      categoryStats := Settle([], ValueOf(cache, KeyCategories, calls.categories), AsCategories, []),
      countryStats := Settle([], ValueOf(cache, KeyCountries, calls.countries), AsCountries, []),
      topRated := Settle([], ValueOf(cache, KeyTopRated, calls.topRated), AsTopRated, []),
      topViewed := Settle([], ValueOf(cache, KeyTopViewed, calls.topViewed), AsTopViewed, []),
      topFavorite := Settle([], ValueOf(cache, KeyTopFavorite, calls.topFavorite), AsTopFavorite, []),
      topCommented := Settle([], ValueOf(cache, KeyTopCommented, calls.topCommented), AsTopCommented, []))
  }

  /** The three `onProgress` calls, each carrying the two fields its stage fetched. */
  function StageEvents(stats: DashboardStats): seq<ProgressEvent> {
    [ProgressEvent("core", NoFields.(categoryStats := Some(stats.categoryStats), countryStats := Some(stats.countryStats))),
     ProgressEvent("movies", NoFields.(topRated := Some(stats.topRated), topViewed := Some(stats.topViewed))),
     ProgressEvent("additional", NoFields.(topFavorite := Some(stats.topFavorite), topCommented := Some(stats.topCommented)))]
  }

  /** The six limit-5 requests of the progressive loader, in stage order. */
  const ProgressiveRequests: seq<StatRequest> :=
    [CategoriesRequest, CountriesRequest, TopRatedRequest(5), TopViewedRequest(5), TopFavoriteRequest(5), TopCommentedRequest(5)]

  /** The requests the progressive loader sends: one per stat whose entry is not fresh,
      in stage order. */
  function ProgressiveSent(cache: Cache<StatReply>, calls: DashboardCalls): (r: seq<StatRequest>)
    ensures |r| <= 6
    ensures forall q :: q in r ==> q in ProgressiveRequests
  {
    SentBy(cache, KeyCategories, calls.categories, CategoriesRequest)
    + SentBy(cache, KeyCountries, calls.countries, CountriesRequest)
    + SentBy(cache, KeyTopRated, calls.topRated, TopRatedRequest(5))
    + SentBy(cache, KeyTopViewed, calls.topViewed, TopViewedRequest(5))
    + SentBy(cache, KeyTopFavorite, calls.topFavorite, TopFavoriteRequest(5))
    + SentBy(cache, KeyTopCommented, calls.topCommented, TopCommentedRequest(5))
  }

  /** The progressive loader's fetches, in the order it runs them. */
  function ProgressiveUses(calls: DashboardCalls): (r: Uses<StatReply>)
    ensures DistinctKeys(r)
    ensures forall i :: 0 <= i < |r| ==> r[i].0 != KeyViewStats
  {
    [(KeyCategories, calls.categories), (KeyCountries, calls.countries),
     (KeyTopRated, calls.topRated), (KeyTopViewed, calls.topViewed),
     (KeyTopFavorite, calls.topFavorite), (KeyTopCommented, calls.topCommented)]
  }

  // ---------------------------------------------------------------------------
  // Optimized loader

  /** `'loading' | 'loaded' | 'error'`. */
  datatype LoadState = Loading | Loaded | Error

  /** A settled fetch is 'loaded' when the wrapper handed back a body and 'error' otherwise. */
  function StateOf(value: Option<StatReply>): (r: LoadState)
    ensures r != Loading
    ensures r == Loaded <==> Truthy(value)
  {
    if Truthy(value) then Loaded else Error
  }

  /** The `loadingStatus` record, one state per statistic. */
  datatype LoadingStatus = LoadingStatus(
    categories: LoadState, countries: LoadState,
    topRated: LoadState, topViewed: LoadState,
    topFavorite: LoadState, topCommented: LoadState,
    viewStats: LoadState)

  const AllLoading := LoadingStatus(Loading, Loading, Loading, Loading, Loading, Loading, Loading)

  datatype Snapshot = Snapshot(stats: DashboardStats, loadingStatus: LoadingStatus)

  /** The snapshot the caller receives when the function returns, and the same objects
      once the two detached groups have settled. */
  datatype Optimized = Optimized(
    cache: Cache<StatReply>, atReturn: Snapshot, settled: Snapshot, sent: seq<StatRequest>)

  /** `getDashboardStatsOptimized`: every loading status starts as 'loading'; the
      essential group (categories, countries) is settled before returning; the important
      group (top rated and viewed, limit 10) and the optional group (top favorite and
      commented, limit 10, month view statistics of 30 days) settle afterwards. Only
      each group's settled result is modelled, not the interleaving. */
  function GetDashboardStatsOptimized(cache: Cache<StatReply>, calls: DashboardCalls): (r: Optimized)
    // at return: the essential fields are settled, the five others still loading and empty
    ensures r.atReturn.stats == EmptyStats.(categoryStats := r.settled.stats.categoryStats, countryStats := r.settled.stats.countryStats)
    ensures r.atReturn.loadingStatus == AllLoading.(categories := r.settled.loadingStatus.categories, countries := r.settled.loadingStatus.countries)
    // once settled, a status is 'loaded' iff its fetch handed back a body, else 'error'
    ensures r.settled.loadingStatus == LoadingStatus(
              StateOf(ValueOf(cache, KeyCategories, calls.categories)),
              StateOf(ValueOf(cache, KeyCountries, calls.countries)),
              StateOf(ValueOf(cache, KeyTopRated, calls.topRated)),
              StateOf(ValueOf(cache, KeyTopViewed, calls.topViewed)),
              StateOf(ValueOf(cache, KeyTopFavorite, calls.topFavorite)),
              StateOf(ValueOf(cache, KeyTopCommented, calls.topCommented)),
              StateOf(ValueOf(cache, KeyViewStats, calls.viewStats)))
    // and the fields follow the same merge rule as the progressive loader
    ensures r.settled.stats.categoryStats == Settle([], ValueOf(cache, KeyCategories, calls.categories), AsCategories, [])
    ensures r.settled.stats.countryStats == Settle([], ValueOf(cache, KeyCountries, calls.countries), AsCountries, [])
    ensures r.settled.stats.topRated == Settle([], ValueOf(cache, KeyTopRated, calls.topRated), AsTopRated, [])
    ensures r.settled.stats.topViewed == Settle([], ValueOf(cache, KeyTopViewed, calls.topViewed), AsTopViewed, [])
    ensures r.settled.stats.topFavorite == Settle([], ValueOf(cache, KeyTopFavorite, calls.topFavorite), AsTopFavorite, [])
    ensures r.settled.stats.topCommented == Settle([], ValueOf(cache, KeyTopCommented, calls.topCommented), AsTopCommented, [])
    ensures r.settled.stats.viewStats == Settle(DefaultViewStats, ValueOf(cache, KeyViewStats, calls.viewStats), AsViewStats, DefaultViewStats)
  {
    var v1 := ValueOf(cache, KeyCategories, calls.categories);
    var v2 := ValueOf(cache, KeyCountries, calls.countries);
    var v3 := ValueOf(cache, KeyTopRated, calls.topRated);
    var v4 := ValueOf(cache, KeyTopViewed, calls.topViewed);
    var v5 := ValueOf(cache, KeyTopFavorite, calls.topFavorite);
    var v6 := ValueOf(cache, KeyTopCommented, calls.topCommented);
    var v7 := ValueOf(cache, KeyViewStats, calls.viewStats);
    // essential group, awaited
    var essential := EmptyStats.(
      categoryStats := Settle([], v1, AsCategories, []),
      countryStats := Settle([], v2, AsCountries, []));
    var essentialStatus := AllLoading.(categories := StateOf(v1), countries := StateOf(v2));
    // important and optional groups, detached
    var all := essential.(
      topRated := Settle([], v3, AsTopRated, []),
      topViewed := Settle([], v4, AsTopViewed, []),
      topFavorite := Settle([], v5, AsTopFavorite, []),
      topCommented := Settle([], v6, AsTopCommented, []),
      viewStats := Settle(DefaultViewStats, v7, AsViewStats, DefaultViewStats));
    var allStatus := essentialStatus.(
      topRated := StateOf(v3), topViewed := StateOf(v4),
      topFavorite := StateOf(v5), topCommented := StateOf(v6), viewStats := StateOf(v7));
    Optimized(
      FetchAll(cache, OptimizedUses(calls)), Snapshot(essential, essentialStatus), Snapshot(all, allStatus),
      SentBy(cache, KeyCategories, calls.categories, CategoriesRequest)
      + SentBy(cache, KeyCountries, calls.countries, CountriesRequest)
      + SentBy(cache, KeyTopRated, calls.topRated, TopRatedRequest(10))
      + SentBy(cache, KeyTopViewed, calls.topViewed, TopViewedRequest(10))
      + SentBy(cache, KeyTopFavorite, calls.topFavorite, TopFavoriteRequest(10))
      + SentBy(cache, KeyTopCommented, calls.topCommented, TopCommentedRequest(10))
      + SentBy(cache, KeyViewStats, calls.viewStats, ViewStatsRequest("month", 30)))
  }

  /** The optimized loader's fetches, in the order it starts them. */
  function OptimizedUses(calls: DashboardCalls): (r: Uses<StatReply>)
    ensures DistinctKeys(r)
  {
    ProgressiveUses(calls) + [(KeyViewStats, calls.viewStats)]
  }

  // ---------------------------------------------------------------------------
  // Uncached all-settled merge

  /** How each of the seven requests of `getDashboardStats` settles. */
  datatype Outcomes = Outcomes(
    categories: Outcome<StatReply>, countries: Outcome<StatReply>,
    topRated: Outcome<StatReply>, topViewed: Outcome<StatReply>,
    topFavorite: Outcome<StatReply>, topCommented: Outcome<StatReply>,
    viewStats: Outcome<StatReply>)

  /** Reading `.data` of a fulfilled `null` body throws, which the outer handler turns
      into the all-empty record. Another falsy body reads as `undefined` and throws
      nothing. */
  predicate ThrowsOnRead(o: Outcome<StatReply>) {
    o.Success? && o.value.NullBody?
  }

  /** What `getDashboardStats` puts in each field. A fulfilled request contributes its
      response's `data` as it is: None when the envelope has none (the source's
      `undefined`, with no `|| []` to replace it), or data of whatever shape came back. A
      rejected request contributes the field's empty default, tagged with the field's
      shape. */
  datatype UncachedStats = UncachedStats(
    categoryStats: Option<StatData>, countryStats: Option<StatData>,
    topRated: Option<StatData>, topViewed: Option<StatData>,
    topFavorite: Option<StatData>, topCommented: Option<StatData>,
    viewStats: Option<StatData>)

  /** `defaultStats`: every list empty, and the month view statistics with 0 views. */
  const UncachedDefaults := UncachedStats(
    Some(CategoryData([])), Some(CountryData([])), Some(TopRatedData([])), Some(TopViewedData([])),
    Some(TopFavoriteData([])), Some(TopCommentedData([])), Some(ViewStatsData(DefaultViewStats)))

  /** `result.status === 'fulfilled' ? result.value.data : empty`, for a body that does not
      throw: an envelope's data, or nothing for a falsy body. */
  function FieldOf(o: Outcome<StatReply>, empty: StatData): Option<StatData> {
    if o.Success? then (if o.value.Envelope? then o.value.data else None) else Some(empty)
  }

  /** `getDashboardStats`: all seven requests settle, each field takes its fulfilled
      response's raw data and the empty default when that request rejected; an exception
      while reading the results yields `defaultStats`. It never rejects. */
  function GetDashboardStats(o: Outcomes): (r: UncachedStats)
    ensures (ThrowsOnRead(o.categories) || ThrowsOnRead(o.countries) || ThrowsOnRead(o.topRated)
             || ThrowsOnRead(o.topViewed) || ThrowsOnRead(o.topFavorite) || ThrowsOnRead(o.topCommented)
             || ThrowsOnRead(o.viewStats)) ==> r == UncachedDefaults
    ensures o.categories.Failure? ==> r.categoryStats == Some(CategoryData([]))
    ensures o.countries.Failure? ==> r.countryStats == Some(CountryData([]))
    ensures o.topRated.Failure? ==> r.topRated == Some(TopRatedData([]))
    ensures o.topViewed.Failure? ==> r.topViewed == Some(TopViewedData([]))
    ensures o.topFavorite.Failure? ==> r.topFavorite == Some(TopFavoriteData([]))
    ensures o.topCommented.Failure? ==> r.topCommented == Some(TopCommentedData([]))
    ensures o.viewStats.Failure? ==> r.viewStats == Some(ViewStatsData(DefaultViewStats))
    // without an exception, a fulfilled request's field is exactly its response's data,
    // and missing for a falsy body other than null
    ensures !(ThrowsOnRead(o.categories) || ThrowsOnRead(o.countries) || ThrowsOnRead(o.topRated)
              || ThrowsOnRead(o.topViewed) || ThrowsOnRead(o.topFavorite) || ThrowsOnRead(o.topCommented)
              || ThrowsOnRead(o.viewStats)) ==>
              (o.categories.Success? && o.categories.value.Envelope? ==> r.categoryStats == o.categories.value.data)
              && (o.categories == Success(FalsyBody) ==> r.categoryStats == None)
              && (o.countries.Success? && o.countries.value.Envelope? ==> r.countryStats == o.countries.value.data)
              && (o.countries == Success(FalsyBody) ==> r.countryStats == None)
              && (o.topRated.Success? && o.topRated.value.Envelope? ==> r.topRated == o.topRated.value.data)
              && (o.topRated == Success(FalsyBody) ==> r.topRated == None)
              && (o.topViewed.Success? && o.topViewed.value.Envelope? ==> r.topViewed == o.topViewed.value.data)
              && (o.topViewed == Success(FalsyBody) ==> r.topViewed == None)
              && (o.topFavorite.Success? && o.topFavorite.value.Envelope? ==> r.topFavorite == o.topFavorite.value.data)
              && (o.topFavorite == Success(FalsyBody) ==> r.topFavorite == None)
              && (o.topCommented.Success? && o.topCommented.value.Envelope? ==> r.topCommented == o.topCommented.value.data)
              && (o.topCommented == Success(FalsyBody) ==> r.topCommented == None)
              && (o.viewStats.Success? && o.viewStats.value.Envelope? ==> r.viewStats == o.viewStats.value.data)
              && (o.viewStats == Success(FalsyBody) ==> r.viewStats == None)
  {
    if ThrowsOnRead(o.categories) || ThrowsOnRead(o.countries) || ThrowsOnRead(o.topRated)
       || ThrowsOnRead(o.topViewed) || ThrowsOnRead(o.topFavorite) || ThrowsOnRead(o.topCommented)
       || ThrowsOnRead(o.viewStats)
    then UncachedDefaults
    else UncachedStats(
      FieldOf(o.categories, CategoryData([])),
      FieldOf(o.countries, CountryData([])),
      FieldOf(o.topRated, TopRatedData([])),
      FieldOf(o.topViewed, TopViewedData([])),
      FieldOf(o.topFavorite, TopFavoriteData([])),
      FieldOf(o.topCommented, TopCommentedData([])),
      FieldOf(o.viewStats, ViewStatsData(DefaultViewStats)))
  }

  /** A fulfilled request is read as a body whose `data` is there and has the field's
      shape; a rejected one is any outcome. */
  predicate Carries<T>(o: Outcome<StatReply>, extract: StatData -> Option<T>) {
    o.Success? ==> o.value.Envelope? && o.value.data.Some? && extract(o.value.data.value).Some?
  }

  // ---------------------------------------------------------------------------
  // Properties of the loaders

  /** The loaders' contracts read every fetch against the cache they started from. The
      source runs the fetches one after the other on a shared cache; since their keys are
      distinct, each one finds its key exactly as it was at the start. */
  lemma ThreadedFetchesSeeStartingCache(cache: Cache<StatReply>, calls: DashboardCalls)
    ensures var uses := OptimizedUses(calls);
            forall i :: 0 <= i < |uses| ==>
              FetchWithCache(FetchAll(cache, uses[..i]), uses[i].0, uses[i].1).value == ValueOf(cache, uses[i].0, uses[i].1)
  {
    var uses := OptimizedUses(calls);
    forall i | 0 <= i < |uses|
      ensures FetchWithCache(FetchAll(cache, uses[..i]), uses[i].0, uses[i].1).value == ValueOf(cache, uses[i].0, uses[i].1)
    {
      DistinctUsesSeeStartingEntries(cache, uses, i);
    }
  }

  /** The progressive loader never drops an entry, leaves the view-statistics entry (and
      every other key it does not fetch) alone, and sends at most the six limit-5
      requests, each at most once and never one for view statistics. */
  lemma ProgressiveCacheAndRequests(cache: Cache<StatReply>, calls: DashboardCalls)
    ensures var r := GetDashboardStatsProgressive(cache, calls);
            && cache.Keys <= r.cache.Keys
            && (KeyViewStats in r.cache <==> KeyViewStats in cache)
            && (KeyViewStats in cache ==> r.cache[KeyViewStats] == cache[KeyViewStats])
            && |r.sent| <= 6
            && (forall q :: q in r.sent ==> q in ProgressiveRequests)
  {
    assert Untouched(ProgressiveUses(calls), KeyViewStats);
  }

  /** The progressive loader sends a request exactly when it is one of its six limit-5
      requests and that stat's entry is not fresh. */
  lemma ProgressiveSendsExactlyTheStale(cache: Cache<StatReply>, calls: DashboardCalls, q: StatRequest)
    ensures q in GetDashboardStatsProgressive(cache, calls).sent <==>
              (q == CategoriesRequest && !Fresh(cache, KeyCategories, calls.categories))
              || (q == CountriesRequest && !Fresh(cache, KeyCountries, calls.countries))
              || (q == TopRatedRequest(5) && !Fresh(cache, KeyTopRated, calls.topRated))
              || (q == TopViewedRequest(5) && !Fresh(cache, KeyTopViewed, calls.topViewed))
              || (q == TopFavoriteRequest(5) && !Fresh(cache, KeyTopFavorite, calls.topFavorite))
              || (q == TopCommentedRequest(5) && !Fresh(cache, KeyTopCommented, calls.topCommented))
  {
    InSentBy(cache, KeyCategories, calls.categories, CategoriesRequest, q);
    InSentBy(cache, KeyCountries, calls.countries, CountriesRequest, q);
    InSentBy(cache, KeyTopRated, calls.topRated, TopRatedRequest(5), q);
    InSentBy(cache, KeyTopViewed, calls.topViewed, TopViewedRequest(5), q);
    InSentBy(cache, KeyTopFavorite, calls.topFavorite, TopFavoriteRequest(5), q);
    InSentBy(cache, KeyTopCommented, calls.topCommented, TopCommentedRequest(5), q);
  }

  lemma InSentBy(cache: Cache<StatReply>, key: string, call: Call<StatReply>, request: StatRequest, q: StatRequest)
    ensures q in SentBy(cache, key, call, request) <==> q == request && !Fresh(cache, key, call)
  {
  }

  /** With nothing cached and every request rejected, the progressive loader reports the
      three stages with empty lists, sends all six requests and resolves to the all-empty
      record. */
  lemma ProgressiveTotalFailure(calls: DashboardCalls)
    requires calls.categories.outcome.Failure? && calls.countries.outcome.Failure?
    requires calls.topRated.outcome.Failure? && calls.topViewed.outcome.Failure?
    requires calls.topFavorite.outcome.Failure? && calls.topCommented.outcome.Failure?
    ensures var r := GetDashboardStatsProgressive(map[], calls);
            && r.stats == EmptyStats
            && r.events == [
                 ProgressEvent("core", NoFields.(categoryStats := Some([]), countryStats := Some([]))),
                 ProgressEvent("movies", NoFields.(topRated := Some([]), topViewed := Some([]))),
                 ProgressEvent("additional", NoFields.(topFavorite := Some([]), topCommented := Some([])))]
            && r.sent == ProgressiveRequests
            && r.cache == map[]
  {
    var uses := ProgressiveUses(calls);
    assert forall i :: 0 <= i < |uses| ==> LeavesAlone(map[], uses[i].0, uses[i].1);
    FetchAllLeavesAlone(map[], uses);
  }

  /** One failing request of a stage does not spoil its sibling: with nothing cached,
      categories fulfilled with data and countries rejected, the "core" event carries the
      categories and an empty country list. */
  lemma ProgressiveStageMergesPartialFailure(calls: DashboardCalls, categories: seq<CategoryStats>, message: string)
    requires calls.categories.outcome == Success(Envelope(true, message, Some(CategoryData(categories))))
    requires calls.countries.outcome.Failure?
    ensures GetDashboardStatsProgressive(map[], calls).events[0]
              == ProgressEvent("core", NoFields.(categoryStats := Some(categories), countryStats := Some([])))
  {
    var stats := ProgressiveStats(map[], calls);
    assert stats.categoryStats == categories;
    assert stats.countryStats == [];
  }

  /** When all six entries are fresh the progressive loader sends nothing, changes no
      entry and reports the cached data. */
  lemma ProgressiveWarmCacheSendsNothing(cache: Cache<StatReply>, calls: DashboardCalls)
    requires Fresh(cache, KeyCategories, calls.categories) && Fresh(cache, KeyCountries, calls.countries)
    requires Fresh(cache, KeyTopRated, calls.topRated) && Fresh(cache, KeyTopViewed, calls.topViewed)
    requires Fresh(cache, KeyTopFavorite, calls.topFavorite) && Fresh(cache, KeyTopCommented, calls.topCommented)
    ensures var r := GetDashboardStatsProgressive(cache, calls);
            && r.sent == []
            && r.cache == cache
            && r.stats.categoryStats == Settle([], Some(cache[KeyCategories].data), AsCategories, [])
            && r.stats.topRated == Settle([], Some(cache[KeyTopRated].data), AsTopRated, [])
  {
    var uses := ProgressiveUses(calls);
    assert forall i :: 0 <= i < |uses| ==> LeavesAlone(cache, uses[i].0, uses[i].1);
    FetchAllLeavesAlone(cache, uses);
  }

  /** A top-rated fetch of the optimized loader that misses and succeeds leaves the
      reply in the cache, stamped when it settled. */
  lemma OptimizedStoresTopRated(cache: Cache<StatReply>, calls: DashboardCalls, reply: StatReply)
    requires KeyTopRated !in cache
    requires calls.topRated.outcome == Success(reply)
    ensures var warm := GetDashboardStatsOptimized(cache, calls).cache;
            KeyTopRated in warm && warm[KeyTopRated] == Entry(reply, calls.topRated.settledAt)
  {
    var uses := OptimizedUses(calls);
    FetchAllStoresEach(cache, uses, 2);
    assert uses[2] == (KeyTopRated, calls.topRated);
  }

  /** A fresh top-rated entry is what the progressive loader shows, without sending
      its top-rated request. */
  lemma ProgressiveServesFreshTopRated(warm: Cache<StatReply>, calls: DashboardCalls, reply: StatReply, stamp: int)
    requires KeyTopRated in warm && warm[KeyTopRated] == Entry(reply, stamp)
    requires calls.topRated.now - stamp < CacheDuration
    ensures var r := GetDashboardStatsProgressive(warm, calls);
            && r.stats.topRated == Settle([], Some(reply), AsTopRated, [])
            && TopRatedRequest(5) !in r.sent
  {
    assert Fresh(warm, KeyTopRated, calls.topRated);
    ProgressiveSendsExactlyTheStale(warm, calls, TopRatedRequest(5));
  }

  /** The limit is not part of the cache key: top-rated movies stored by the optimized
      loader (fetched with limit 10) are what the progressive loader (which asks for
      limit 5) shows within the cache duration, and it does not send its own request. */
  lemma LimitIsNotPartOfTheKey(cache: Cache<StatReply>, first: DashboardCalls, second: DashboardCalls, reply: StatReply)
    requires KeyTopRated !in cache
    requires first.topRated.outcome == Success(reply)
    requires second.topRated.now - first.topRated.settledAt < CacheDuration
    ensures var warm := GetDashboardStatsOptimized(cache, first).cache;
            var r := GetDashboardStatsProgressive(warm, second);
            && r.stats.topRated == Settle([], Some(reply), AsTopRated, [])
            && TopRatedRequest(5) !in r.sent
  {
    OptimizedStoresTopRated(cache, first, reply);
    ProgressiveServesFreshTopRated(GetDashboardStatsOptimized(cache, first).cache, second, reply, first.topRated.settledAt);
  }

  /** Once settled, the optimized loader holds the same six fields as the progressive
      loader run on the same cache and calls; it additionally fills in view statistics. */
  lemma SettledOptimizedAgreesWithProgressive(cache: Cache<StatReply>, calls: DashboardCalls)
    ensures GetDashboardStatsOptimized(cache, calls).settled.stats.(viewStats := DefaultViewStats)
              == GetDashboardStatsProgressive(cache, calls).stats
  {
  }

  /** An essential fetch that hands back no body is an error; the stat keeps its empty
      default, also at return. */
  lemma OptimizedEssentialFailure(cache: Cache<StatReply>, calls: DashboardCalls)
    requires KeyCategories !in cache && calls.categories.outcome.Failure?
    ensures var r := GetDashboardStatsOptimized(cache, calls);
            r.atReturn.loadingStatus.categories == Error && r.atReturn.stats.categoryStats == []
  {
  }

  /** On a cold cache, and as long as every fulfilled request carries data of its
      field's shape, the uncached merge holds, in each of the six fields the progressive
      loader loads, exactly the list that loader shows. */
  lemma UncachedAgreesWithProgressiveOnColdCache(calls: DashboardCalls, o: Outcomes)
    requires o.categories == calls.categories.outcome && o.countries == calls.countries.outcome
    requires o.topRated == calls.topRated.outcome && o.topViewed == calls.topViewed.outcome
    requires o.topFavorite == calls.topFavorite.outcome && o.topCommented == calls.topCommented.outcome
    requires Carries(o.categories, AsCategories) && Carries(o.countries, AsCountries)
    requires Carries(o.topRated, AsTopRated) && Carries(o.topViewed, AsTopViewed)
    requires Carries(o.topFavorite, AsTopFavorite) && Carries(o.topCommented, AsTopCommented)
    requires !ThrowsOnRead(o.viewStats)
    ensures var u := GetDashboardStats(o);
            var p := GetDashboardStatsProgressive(map[], calls).stats;
            && u.categoryStats == Some(CategoryData(p.categoryStats))
            && u.countryStats == Some(CountryData(p.countryStats))
            && u.topRated == Some(TopRatedData(p.topRated))
            && u.topViewed == Some(TopViewedData(p.topViewed))
            && u.topFavorite == Some(TopFavoriteData(p.topFavorite))
            && u.topCommented == Some(TopCommentedData(p.topCommented))
  {
  }

  /** A fulfilled envelope without data leaves its field missing in the uncached merge,
      while the progressive loader shows an empty list for it. */
  lemma MissingDataStaysMissing(calls: DashboardCalls, o: Outcomes, message: string)
    requires o.categories == calls.categories.outcome
    requires o.categories == Success(Envelope(true, message, None))
    requires !ThrowsOnRead(o.countries) && !ThrowsOnRead(o.topRated) && !ThrowsOnRead(o.topViewed)
    requires !ThrowsOnRead(o.topFavorite) && !ThrowsOnRead(o.topCommented) && !ThrowsOnRead(o.viewStats)
    ensures GetDashboardStats(o).categoryStats == None
    ensures GetDashboardStatsProgressive(map[], calls).stats.categoryStats == []
  {
  }

  /** One fulfilled `null` body discards every other result: the uncached merge returns
      `defaultStats` although the categories came back, and shows them once that request
      rejects instead. */
  lemma NullBodyDiscardsEverything(o: Outcomes, categories: seq<CategoryStats>, message: string)
    requires o.categories == Success(Envelope(true, message, Some(CategoryData(categories))))
    requires !ThrowsOnRead(o.countries) && !ThrowsOnRead(o.topRated) && !ThrowsOnRead(o.topViewed)
    requires !ThrowsOnRead(o.topFavorite) && !ThrowsOnRead(o.topCommented)
    requires o.viewStats == Success(NullBody)
    ensures GetDashboardStats(o) == UncachedDefaults
    ensures GetDashboardStats(o.(viewStats := Failure)).categoryStats == Some(CategoryData(categories))
  {
  }

  /** A fulfilled falsy body other than `null` costs only its own field: the uncached
      merge leaves that field missing and keeps every other one, where a `null` body in
      its place would have discarded them all. */
  lemma OtherFalsyBodyLosesOnlyItsField(o: Outcomes, categories: seq<CategoryStats>, message: string)
    requires o.categories == Success(Envelope(true, message, Some(CategoryData(categories))))
    requires !ThrowsOnRead(o.countries) && !ThrowsOnRead(o.topRated) && !ThrowsOnRead(o.topViewed)
    requires !ThrowsOnRead(o.topFavorite) && !ThrowsOnRead(o.topCommented)
    requires o.viewStats == Success(FalsyBody)
    ensures GetDashboardStats(o).viewStats == None
    ensures GetDashboardStats(o).categoryStats == Some(CategoryData(categories))
    ensures GetDashboardStats(o) == GetDashboardStats(o.(viewStats := Failure)).(viewStats := None)
    ensures GetDashboardStats(o.(viewStats := Success(NullBody))) == UncachedDefaults
  {
  }
}
