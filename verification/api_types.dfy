/** Records exchanged with the REST backend (src/types/api.ts) and the two records of the
    legacy mock backend (src/services/api.ts) that the genre and user pages manipulate.
    Optional TypeScript properties become `Option`s; uploaded files are opaque tokens;
    counts are non-negative integers. */
module ApiTypes {
  import opened Wrappers

  /** The `{ success, message, data }` envelope every endpoint answers with. */
  datatype ApiResponse<T> = ApiResponse(success: bool, message: string, data: T)

  /** Per-category (and, with the same shape, per-country) movie counts. */
  datatype CategoryStats = CategoryStats(id: string, name: string, slug: string, movieCount: nat)

  /** `CountryStats` has exactly the fields of `CategoryStats`. */
  type CountryStats = CategoryStats

  datatype TopRatedMovie = TopRatedMovie(
    id: string, name: string, slug: string, originName: string,
    posterUrl: string, thumbUrl: string, year: int, view: nat,
    averageRating: string, ratingCount: string)

  datatype TopViewedMovie = TopViewedMovie(
    id: string, name: string, slug: string, originName: string,
    posterUrl: string, thumbUrl: string, year: int, view: nat)

  datatype TopFavoriteMovie = TopFavoriteMovie(
    id: string, name: string, slug: string, originName: string,
    posterUrl: string, thumbUrl: string, year: int, favoriteCount: nat,
    favoriteCountAlt: Option<nat>, countFavorites: Option<nat>)

  datatype TopCommentedMovie = TopCommentedMovie(
    id: string, name: string, slug: string, originName: string,
    posterUrl: string, thumbUrl: string, year: int, commentCount: nat,
    commentCountAlt: Option<nat>, countComments: Option<nat>)

  datatype ViewPoint = ViewPoint(date: string, views: nat)

  datatype ViewStats = ViewStats(period: string, totalViews: nat, data: seq<ViewPoint>)

  /** The seven dashboard statistics. */
  datatype DashboardStats = DashboardStats(
    categoryStats: seq<CategoryStats>,
    countryStats: seq<CountryStats>,
    topRated: seq<TopRatedMovie>,
    topViewed: seq<TopViewedMovie>,
    topFavorite: seq<TopFavoriteMovie>,
    topCommented: seq<TopCommentedMovie>,
    viewStats: ViewStats)

  /** The view statistics every loader starts from. */
  const DefaultViewStats: ViewStats := ViewStats("month", 0, [])

  /** The all-empty record every loader starts from and falls back to. */
  const EmptyStats: DashboardStats := DashboardStats([], [], [], [], [], [], DefaultViewStats)

  /** An uploaded file; its content never matters to the client logic. */
  datatype FileToken = FileToken(name: string)

  /** A JavaScript number, represented by its `toString()` text. A number is falsy
      exactly when it is 0, -0 or NaN, whose texts are "0" and "NaN". */
  type NumberText = string

  predicate NumberIsTruthy(n: NumberText) { n != "0" && n != "NaN" }

  datatype MovieCreateRequest = MovieCreateRequest(
    name: string, slug: string, originName: string, content: string,
    movieType: string, status: string,
    poster: Option<FileToken>, thumb: Option<FileToken>,
    isCopyright: Option<bool>, subDocquyen: Option<bool>, chieurap: Option<bool>,
    trailerUrl: Option<string>, time: Option<string>,
    episodeCurrent: Option<string>, episodeTotal: Option<string>,
    quality: Option<string>, lang: Option<string>,
    notify: Option<string>, showtimes: Option<string>,
    year: int,
    categories: seq<string>, countries: seq<string>, actors: Option<seq<string>>,
    tmdbId: Option<string>, tmdbType: Option<string>,
    tmdbVoteAverage: Option<NumberText>, tmdbVoteCount: Option<int>,
    imdbId: Option<string>)

  /** `Partial<MovieCreateRequest>` plus the mandatory `id`. */
  datatype MovieUpdateRequest = MovieUpdateRequest(
    id: string,
    name: Option<string>, slug: Option<string>, originName: Option<string>,
    content: Option<string>, movieType: Option<string>, status: Option<string>,
    poster: Option<FileToken>, thumb: Option<FileToken>,
    isCopyright: Option<bool>, subDocquyen: Option<bool>, chieurap: Option<bool>,
    trailerUrl: Option<string>, time: Option<string>,
    episodeCurrent: Option<string>, episodeTotal: Option<string>,
    quality: Option<string>, lang: Option<string>,
    notify: Option<string>, showtimes: Option<string>,
    year: Option<int>,
    categories: Option<seq<string>>, countries: Option<seq<string>>,
    actors: Option<seq<string>>,
    tmdbId: Option<string>, tmdbType: Option<string>,
    tmdbVoteAverage: Option<NumberText>, tmdbVoteCount: Option<int>,
    imdbId: Option<string>)

  /** A category or country reference inside a movie record. The records wrap each one
      as `{ category: {...} }` or `{ country: {...} }`; the wrapper carries nothing else
      and is represented by its inner reference. */
  datatype NamedRef = NamedRef(id: string, name: string, slug: string)

  datatype MovieResponse = MovieResponse(
    id: string, name: string, slug: string, originName: string, content: string,
    movieType: string, status: string, posterUrl: string, thumbUrl: string,
    year: int, view: nat, createdAt: string, updatedAt: string,
    categories: seq<NamedRef>, countries: seq<NamedRef>)

  datatype EpisodeCreateRequest = EpisodeCreateRequest(
    name: string, slug: string, movieId: string,
    serverName: Option<string>, video: FileToken)

  datatype EpisodeUpdateRequest = EpisodeUpdateRequest(
    id: string, name: Option<string>, slug: Option<string>, movieId: Option<string>,
    serverName: Option<string>, video: Option<FileToken>)

  datatype EpisodeResponse = EpisodeResponse(
    id: string, name: string, slug: string, filename: string,
    linkEmbed: string, linkM3u8: string, movieId: string, serverName: string,
    createdAt: string, updatedAt: string)

  /** An account as the authentication and user-management endpoints return it. */
  datatype User = User(
    id: string, email: string, name: string, isAdmin: bool,
    createdAt: string, updatedAt: string)

  datatype AuthResponse = AuthResponse(token: string, user: User)

  /** A genre of the legacy mock backend. */
  datatype Genre = Genre(id: string, name: string, slug: string, description: string, movieCount: nat)

  /** A user of the legacy mock backend. */
  datatype LegacyUser = LegacyUser(
    id: string, name: string, email: string, avatar: string, role: string,
    status: string, registeredDate: string, lastLogin: string, subscription: string)
}
