/** The movie service (src/services/movieService.ts): the adapter from the catalogue's
    movie records to the admin `MovieResponse`, the default list parameters, and the
    create/update/delete wrappers that turn every failure into an envelope instead of
    throwing. The upstream call's settled outcome is an input; the clock reading used
    for the two date fields is a parameter. */
module MovieService {
  import opened Wrappers
  import opened ApiTypes
  import opened FormRequests

  /** `MovieListParams`: a present key is `Some`. */
  datatype MovieListParams = MovieListParams(
    page: Option<int>, limit: Option<int>, movieType: Option<string>,
    category: Option<string>, country: Option<string>, year: Option<int>,
    search: Option<string>, sort: Option<string>)

  const NoParams := MovieListParams(None, None, None, None, None, None, None, None)

  /** A category or country wrapper of a catalogue movie (`{ category: { id, name, slug } }`). */
  datatype RefWrapper = RefWrapper(inner: NamedRef)

  /** The fields of a catalogue `Movie | TVShow` the adapter reads; optional or possibly
      empty ones are `Option`s. */
  datatype CatalogueMovie = CatalogueMovie(
    id: Option<string>, name: string, slug: string, originName: Option<string>,
    content: Option<string>, movieType: Option<string>, status: Option<string>,
    posterUrl: Option<string>, thumbUrl: Option<string>, year: int,
    categories: Option<seq<RefWrapper>>, countries: Option<seq<RefWrapper>>)

  /** `v || fallback` for an optional string. */
  function Or(v: Option<string>, fallback: string): (r: string)
    ensures Given(v) ==> r == v.value
    ensures !Given(v) ==> r == fallback
  {
    if Given(v) then v.value else fallback
  }

  /** `wrappers?.map(w => w.inner) || []`. */
  function Unwrap(ws: Option<seq<RefWrapper>>): (r: seq<NamedRef>)
    ensures ws.None? ==> r == []
    ensures ws.Some? ==> |r| == |ws.value| && forall i :: 0 <= i < |r| ==> r[i] == ws.value[i].inner
  {
    if ws.None? then [] else seq(|ws.value|, i requires 0 <= i < |ws.value| => ws.value[i].inner)
  }

  /** `convertToMovieResponse`: a catalogue movie as the admin tables show it. The view
      count is always 0 and both dates are the current time. */
  function ConvertToMovieResponse(movie: CatalogueMovie, nowIso: string): (r: MovieResponse)
    ensures r.name == movie.name && r.slug == movie.slug && r.year == movie.year
    // a given (non-empty) text is passed through; a missing or empty one falls back
    ensures r.id == (if Given(movie.id) then movie.id.value else "")
    ensures r.originName == (if Given(movie.originName) then movie.originName.value else movie.name)
    ensures r.content == (if Given(movie.content) then movie.content.value else "")
    ensures r.movieType == (if Given(movie.movieType) then movie.movieType.value else "movie")
    ensures r.status == (if Given(movie.status) then movie.status.value else "completed")
    ensures r.posterUrl == (if Given(movie.posterUrl) then movie.posterUrl.value else "")
    ensures r.thumbUrl == (if Given(movie.thumbUrl) then movie.thumbUrl.value else r.posterUrl)
    ensures r.id == "" <==> !Given(movie.id)
    ensures r.posterUrl == "" <==> !Given(movie.posterUrl)
    ensures r.view == 0 && r.createdAt == nowIso && r.updatedAt == nowIso
    // categories and countries element for element, in order, [] when absent
    ensures r.categories == Unwrap(movie.categories) && r.countries == Unwrap(movie.countries)
  {
    var poster := Or(movie.posterUrl, "");
    MovieResponse(
      Or(movie.id, ""), movie.name, movie.slug, Or(movie.originName, movie.name),
      Or(movie.content, ""), Or(movie.movieType, "movie"), Or(movie.status, "completed"),
      poster, Or(movie.thumbUrl, poster),
      movie.year, 0, nowIso, nowIso,
      Unwrap(movie.categories), Unwrap(movie.countries))
  }

  /** A `MovieResponse` seen as a catalogue movie: every text given, every reference
      wrapped. */
  function AsCatalogue(m: MovieResponse): (r: CatalogueMovie)
    ensures Unwrap(r.categories) == m.categories && Unwrap(r.countries) == m.countries
  {
    var cats := seq(|m.categories|, i requires 0 <= i < |m.categories| => RefWrapper(m.categories[i]));
    var ctrs := seq(|m.countries|, i requires 0 <= i < |m.countries| => RefWrapper(m.countries[i]));
    CatalogueMovie(
      Some(m.id), m.name, m.slug, Some(m.originName), Some(m.content), Some(m.movieType), Some(m.status),
      Some(m.posterUrl), Some(m.thumbUrl), m.year, Some(cats), Some(ctrs))
  }

  /** The adapter loses nothing that was given: a movie whose texts are all non-empty
      converts back to itself, except for the view count (0) and the two dates (now). */
  lemma ConvertRoundTrip(m: MovieResponse, nowIso: string)
    requires m.id != "" && m.originName != "" && m.content != "" && m.movieType != "" && m.status != ""
    requires m.posterUrl != "" && m.thumbUrl != ""
    ensures ConvertToMovieResponse(AsCatalogue(m), nowIso) == m.(view := 0, createdAt := nowIso, updatedAt := nowIso)
  {
  }

  /** A bare catalogue movie (only name, slug and year) gets every fallback: no id, its
      name as original name, empty content and images, and type 'movie', status
      'completed'. */
  lemma ConvertBareMovie(name: string, slug: string, year: int, nowIso: string)
    ensures ConvertToMovieResponse(CatalogueMovie(None, name, slug, None, None, None, None, None, None, year, None, None), nowIso)
            == MovieResponse("", name, slug, name, "", "movie", "completed", "", "", year, 0, nowIso, nowIso, [], [])
  {
  }

  /** The defaults merged under the caller's parameters: page 1, limit 10, search ''. */
  function WithDefaults(params: MovieListParams): (r: MovieListParams)
    ensures r.page == Some(params.page.GetOr(1))
    ensures r.limit == Some(params.limit.GetOr(10))
    ensures r.search == Some(params.search.GetOr(""))
    ensures r.movieType == params.movieType && r.category == params.category && r.country == params.country
    ensures r.year == params.year && r.sort == params.sort
  {
    params.(page := Some(params.page.GetOr(1)), limit := Some(params.limit.GetOr(10)),
            search := Some(params.search.GetOr("")))
  }

  datatype Pagination = Pagination(total: int, page: int, limit: int, totalPages: int)

  /** The `data` of the list endpoint's envelope. */
  datatype MovieListData = MovieListData(movies: Option<seq<CatalogueMovie>>, pagination: Option<Pagination>)

  datatype MovieListReply = MovieListReply(success: bool, data: Option<MovieListData>)

  /** What `getMovies` resolves to. */
  datatype MovieList = MovieList(success: bool, data: seq<MovieResponse>, message: string, pagination: Option<Pagination>)

  const LoadFailed := MovieList(false, [], "Failed to load movies", None)

  /** `getMovies`: the parameters sent, and the converted list when the upstream call
      succeeded with a movie list; otherwise (a rejected call, a falsy body, success
      false, no data or no movies) the fixed failure envelope. It never rejects. */
  function GetMovies(params: MovieListParams, reply: Outcome<MovieListReply>, nowIso: string): (r: (MovieListParams, MovieList))
    ensures r.0 == WithDefaults(params)
    ensures r.1.success <==> reply.Success? && reply.value.success && reply.value.data.Some? && reply.value.data.value.movies.Some?
    ensures !r.1.success ==> r.1 == LoadFailed
    ensures r.1.success ==>
              var movies := reply.value.data.value.movies.value;
              |r.1.data| == |movies|
              && (forall i :: 0 <= i < |movies| ==> r.1.data[i] == ConvertToMovieResponse(movies[i], nowIso))
              && r.1.message == "Movies loaded successfully"
              && r.1.pagination == reply.value.data.value.pagination
  {
    var sent := WithDefaults(params);
    if reply.Success? && reply.value.success && reply.value.data.Some? && reply.value.data.value.movies.Some? then
      var movies := reply.value.data.value.movies.value;
      (sent, MovieList(true, seq(|movies|, i requires 0 <= i < |movies| => ConvertToMovieResponse(movies[i], nowIso)),
                       "Movies loaded successfully", reply.value.data.value.pagination))
    else (sent, LoadFailed)
  }

  /** What the create and update wrappers resolve to; `data` is `None` for the empty
      object of the failure envelope. */
  datatype MovieMutation = MovieMutation(success: bool, message: string, data: Option<MovieResponse>)

  /** `reply` when the call resolved, otherwise the failure envelope with `message`. */
  function OrFailure(reply: Outcome<MovieMutation>, message: string): (r: MovieMutation)
    ensures reply.Success? ==> r == reply.value
    ensures reply.Failure? ==> !r.success && r.message == message && r.data.None?
  {
    if reply.Success? then reply.value else MovieMutation(false, message, None)
  }

  /** `createMovie`: posts `addMovie`'s body and never rejects. */
  function CreateMovie(m: MovieCreateRequest, reply: Outcome<MovieMutation>): (r: (FormData, MovieMutation))
    ensures r.0 == AddMovieForm(m)
    ensures reply.Failure? ==> r.1 == MovieMutation(false, "Failed to create movie", None)
    ensures reply.Success? ==> r.1 == reply.value
  {
    (AddMovieForm(m), OrFailure(reply, "Failed to create movie"))
  }

  /** `updateMovieById`: puts `updateMovie`'s request and never rejects. */
  function UpdateMovieById(m: MovieUpdateRequest, reply: Outcome<MovieMutation>): (r: (PutRequest, MovieMutation))
    ensures r.0 == UpdateMovieRequest(m) && r.0.id == m.id
    ensures reply.Failure? ==> r.1 == MovieMutation(false, "Failed to update movie", None)
    ensures reply.Success? ==> r.1 == reply.value
  {
    (UpdateMovieRequest(m), OrFailure(reply, "Failed to update movie"))
  }

  /** What the delete wrapper resolves to. */
  datatype Deletion = Deletion(success: bool, message: string)

  /** `deleteMovieById`: never rejects. */
  function DeleteMovieById(movieId: string, reply: Outcome<Deletion>): (r: (string, Deletion))
    ensures r.0 == movieId
    ensures reply.Failure? ==> r.1 == Deletion(false, "Failed to delete movie")
    ensures reply.Success? ==> r.1 == reply.value
  {
    (movieId, if reply.Success? then reply.value else Deletion(false, "Failed to delete movie"))
  }

  /** With no parameters the list request asks for the first page of ten with an empty
      search, and nothing else. */
  lemma DefaultListRequest()
    ensures WithDefaults(NoParams) == NoParams.(page := Some(1), limit := Some(10), search := Some(""))
  {
  }

  /** Caller-supplied keys win over the defaults. */
  lemma CallerParamsOverrideDefaults(params: MovieListParams)
    requires params.page.Some? && params.limit.Some? && params.search.Some?
    ensures WithDefaults(params) == params
  {
  }
}
