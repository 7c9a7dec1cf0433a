/** The movie-management hook (src/pages/movie_management/hooks/useMovieManagement.ts):
    cleaning of the category and country options, the translation of the filter form
    into list-request parameters, the current page after a filter change, a reset, a
    save or a delete, and which reloads those handlers issue. The reloads themselves
    are returned as requests; toasts are left out. */
module MovieManagement {
  import opened Wrappers
  import opened Text
  import opened Numbers
  import opened ApiTypes
  import opened Lists

  // ---------------------------------------------------------------------------------
  // Filter options

  /** An option is offered only when its name and its slug are both non-blank. */
  predicate IsUsableOption(c: CategoryStats) {
    !IsBlank(c.name) && !IsBlank(c.slug)
  }

  /** `(response.data || []).filter(…)`: the usable options of a response, in order. */
  function CleanOptions(data: Option<seq<CategoryStats>>): (r: seq<CategoryStats>)
    ensures forall i :: 0 <= i < |r| ==> IsUsableOption(r[i])
    ensures data.None? ==> r == []
    ensures data.Some? ==> Subsequence(r, data.value)
    ensures data.Some? ==> forall c :: c in r <==> c in data.value && IsUsableOption(c)
  {
    match data
    case None => []
    case Some(xs) =>
      FilterIsSubsequence(xs, IsUsableOption);
      assert forall c :: c in Filter(xs, IsUsableOption) <==> c in xs && IsUsableOption(c) by {
        forall c ensures c in Filter(xs, IsUsableOption) <==> c in xs && IsUsableOption(c) {
          FilterMembers(xs, IsUsableOption, c);
        }
      }
      Filter(xs, IsUsableOption)
  }

  /** The options after `loadFilterData`: both lists replaced when both requests
      resolved, both kept when either rejected. */
  function LoadFilterData(
    categories: seq<CategoryStats>, countries: seq<CountryStats>,
    categoryReply: Outcome<Option<seq<CategoryStats>>>, countryReply: Outcome<Option<seq<CountryStats>>>)
    : (r: (seq<CategoryStats>, seq<CountryStats>))
    ensures categoryReply.Success? && countryReply.Success? ==>
              r == (CleanOptions(categoryReply.value), CleanOptions(countryReply.value))
    ensures categoryReply.Failure? || countryReply.Failure? ==> r == (categories, countries)
  {
    if categoryReply.Success? && countryReply.Success? then
      (CleanOptions(categoryReply.value), CleanOptions(countryReply.value))
    else (categories, countries)
  }

  /** Options already made of usable entries come back unchanged. */
  lemma CleanOptionsKeepsUsable(xs: seq<CategoryStats>)
    requires forall i :: 0 <= i < |xs| ==> IsUsableOption(xs[i])
    ensures CleanOptions(Some(xs)) == xs
  {
    FilterKeepsAll(xs, IsUsableOption);
  }

  // ---------------------------------------------------------------------------------
  // Request parameters

  /** The filter form's values; the select sentinels are 'all_types', 'all_categories',
      'all_countries' and 'all_years'. A key the caller leaves out reads as "". */
  datatype FilterValues = FilterValues(
    search: string, movieType: string, category: string, country: string, year: string, sort: string)

  const DefaultFilters := FilterValues("", "all_types", "all_categories", "all_countries", "all_years", "latest")

  /** `parseInt` of the year filter: a number, or NaN when the text has no digits. */
  datatype YearParam = Year(n: int) | NotANumber

  /** The parameters `loadMovies` hands to `getMovies`; a key is sent when `Some`. */
  datatype ListQuery = ListQuery(
    page: int, limit: int, search: Option<string>, movieType: Option<string>,
    category: Option<string>, country: Option<string>, year: Option<YearParam>, sort: Option<string>)

  /** A select value is sent unless it is empty or the select's sentinel. */
  function Selected(value: string, sentinel: string): (r: Option<string>)
    ensures r.Some? <==> value != "" && value != sentinel
    ensures r.Some? ==> r.value == value
  {
    if value != "" && value != sentinel then Some(value) else None
  }

  function ParseYear(text: string): (r: YearParam)
    ensures r.Year? <==> ParseInt(text).Some?
    ensures r.Year? ==> r.n == ParseInt(text).value
  {
    match ParseInt(text)
    case Some(n) => Year(n)
    case None => NotANumber
  }

  /** `loadMovies(page, filterParams)`'s parameter record: always the page and a limit of
      10; with filter values, each filter that is set, as described field by field. */
  function BuildQuery(page: int, filters: Option<FilterValues>): (r: ListQuery)
    ensures r.page == page && r.limit == 10
    ensures filters.None? ==> r == ListQuery(page, 10, None, None, None, None, None, None)
    ensures filters.Some? ==>
              var f := filters.value;
              (r.search.Some? <==> Trim(f.search) != "")
              && (r.search.Some? ==> r.search.value == Trim(f.search))
              && (r.movieType.Some? <==> f.movieType == "single" || f.movieType == "series")
              && (r.movieType.Some? ==> r.movieType.value == f.movieType)
              && r.category == Selected(f.category, "all_categories")
              && r.country == Selected(f.country, "all_countries")
              && (r.year.Some? <==> f.year != "" && f.year != "all_years")
              && (r.year.Some? ==> r.year.value == ParseYear(f.year))
              && (r.sort.Some? <==> f.sort == "latest" || f.sort == "popular" || f.sort == "rating")
              && (r.sort.Some? ==> r.sort.value == f.sort)
  {
    match filters
    case None => ListQuery(page, 10, None, None, None, None, None, None)
    case Some(f) =>
      var search := Trim(f.search);
      ListQuery(
        page, 10,
        if search != "" then Some(search) else None,
        if f.movieType == "single" || f.movieType == "series" then Some(f.movieType) else None,
        Selected(f.category, "all_categories"),
        Selected(f.country, "all_countries"),
        if f.year != "" && f.year != "all_years" then Some(ParseYear(f.year)) else None,
        if f.sort == "latest" || f.sort == "popular" || f.sort == "rating" then Some(f.sort) else None)
  }

  /** The reset form asks for nothing but the page, the limit and the 'latest' order. */
  lemma DefaultFiltersSendOnlySort(page: int)
    ensures BuildQuery(page, Some(DefaultFilters)) == ListQuery(page, 10, None, None, None, None, None, Some("latest"))
  {
    assert Trim("") == "" by { TrimEmptyIffBlank(""); }
  }

  /** A white-space-only search is the same as no search at all. */
  lemma BlankSearchIsNotSent(page: int, f: FilterValues)
    requires IsBlank(f.search)
    ensures BuildQuery(page, Some(f)) == BuildQuery(page, Some(f.(search := "")))
  {
    TrimEmptyIffBlank(f.search);
    TrimEmptyIffBlank("");
  }

  /** A year filter of digits is sent as its value. */
  lemma DigitYearIsSentAsNumber(page: int, f: FilterValues, year: nat)
    requires f.year == NatToString(year)
    ensures BuildQuery(page, Some(f)).year == Some(Year(year))
  {
    ParseIntRoundTrip(year);
  }

  // ---------------------------------------------------------------------------------
  // Page handling

  /** The hook's state as far as its handlers read it. */
  datatype Hook = Hook(
    movies: seq<MovieResponse>, filters: FilterValues, currentPage: int,
    addOpen: bool, editOpen: bool, editing: Option<MovieResponse>)

  /** A `loadMovies(page, filterParams)` call issued by a handler. */
  datatype Reload = Reload(page: int, filters: Option<FilterValues>)

  /** `handleFilterChange`: the new filters, page 1, and a reload of page 1 with them. */
  function HandleFilterChange(h: Hook, newFilters: FilterValues): (r: (Hook, Reload))
    ensures r.0 == h.(filters := newFilters, currentPage := 1)
    ensures r.1 == Reload(1, Some(newFilters))
  {
    (h.(filters := newFilters, currentPage := 1), Reload(1, Some(newFilters)))
  }

  /** `handleResetFilters`: the default filters, page 1, and a reload without filters. */
  function HandleResetFilters(h: Hook): (r: (Hook, Reload))
    ensures r.0 == h.(filters := DefaultFilters, currentPage := 1)
    ensures r.1 == Reload(1, None)
  {
    (h.(filters := DefaultFilters, currentPage := 1), Reload(1, None))
  }

  /** `handlePageChange`: the new page, reloaded with the active filters. */
  function HandlePageChange(h: Hook, page: int): (r: (Hook, Reload))
    ensures r.0 == h.(currentPage := page)
    ensures r.1 == Reload(page, Some(h.filters))
  {
    (h.(currentPage := page), Reload(page, Some(h.filters)))
  }

  /** `handleMovieSaved` once the save answered `saved`: a saved edit reloads the current
      page, a saved creation reloads and shows page 1, both without the active filters;
      an unsaved answer reloads nothing. Either way the dialogs close and the edited
      movie is forgotten. */
  function HandleMovieSaved(h: Hook, saved: bool): (r: (Hook, Option<Reload>))
    ensures !r.0.addOpen && !r.0.editOpen && r.0.editing.None?
    ensures r.0.movies == h.movies && r.0.filters == h.filters
    ensures r.1.Some? <==> saved
    ensures saved && h.editing.Some? ==> r.1 == Some(Reload(h.currentPage, None)) && r.0.currentPage == h.currentPage
    ensures saved && h.editing.None? ==> r.1 == Some(Reload(1, None)) && r.0.currentPage == 1
    ensures !saved ==> r.0.currentPage == h.currentPage
  {
    var closed := h.(addOpen := false, editOpen := false, editing := None);
    if !saved then (closed, None)
    else if h.editing.Some? then (closed, Some(Reload(h.currentPage, None)))
    else (closed.(currentPage := 1), Some(Reload(1, None)))
  }

  /** `handleDeleteMovie` once the delete answered `deleted`: the page steps back only
      when it showed a single movie and was not the first; the page is then reloaded
      without the active filters. */
  function HandleDeleteMovie(h: Hook, deleted: bool): (r: (Hook, Option<Reload>))
    ensures r.1.Some? <==> deleted
    ensures r.0 == h.(currentPage := r.0.currentPage)
    ensures deleted ==> r.1 == Some(Reload(r.0.currentPage, None))
    ensures r.0.currentPage == h.currentPage - 1 <==> deleted && |h.movies| == 1 && h.currentPage > 1
    ensures r.0.currentPage != h.currentPage - 1 ==> r.0.currentPage == h.currentPage
  {
    if !deleted then (h, None)
    else if |h.movies| == 1 && h.currentPage > 1 then
      (h.(currentPage := h.currentPage - 1), Some(Reload(h.currentPage - 1, None)))
    else (h, Some(Reload(h.currentPage, None)))
  }

  /** Deleting never takes a valid page below 1. */
  lemma DeleteKeepsPageValid(h: Hook, deleted: bool)
    requires h.currentPage >= 1
    ensures HandleDeleteMovie(h, deleted).0.currentPage >= 1
  {
  }

  /** After any filter change or reset the hook is on page 1 and its reload asks for
      page 1; the first carries the new filters to the request, the second none. */
  lemma FilterChangesReturnToFirstPage(h: Hook, f: FilterValues)
    ensures HandleFilterChange(h, f).0.currentPage == 1
    ensures BuildQuery(HandleFilterChange(h, f).1.page, HandleFilterChange(h, f).1.filters)
            == BuildQuery(1, Some(f))
    ensures BuildQuery(HandleResetFilters(h).1.page, HandleResetFilters(h).1.filters)
            == ListQuery(1, 10, None, None, None, None, None, None)
  {
  }

  /** Reloads after a save or a delete drop the active filters: the request they issue is
      the bare page request, whatever the filters were. */
  lemma ReloadsAfterChangesIgnoreFilters(h: Hook, saved: bool, deleted: bool)
    ensures var rs := HandleMovieSaved(h, saved).1;
            rs.Some? ==> BuildQuery(rs.value.page, rs.value.filters).search.None?
                         && BuildQuery(rs.value.page, rs.value.filters).category.None?
    ensures var rd := HandleDeleteMovie(h, deleted).1;
            rd.Some? ==> rd.value.filters.None?
  {
  }
}
