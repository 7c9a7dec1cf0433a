# PHIMMOI admin dashboard — a Dafny model of its core

This project models the logic at the heart of the PHIMMOI admin dashboard, a React
application through which administrators manage a movie catalogue. The model covers:

- the dashboard's five-minute statistics cache and the three loaders built on it (the
  progressive loader that reports three stages, the "optimized" loader with its
  per-statistic loading status, and the uncached all-settled merge);
- the multipart bodies of the movie and episode requests and the shape test of the
  user-info response;
- the movie service's conversion, list defaults and failure envelopes;
- the three slug generators (category dialog, movie and episode dialogs, legacy genres
  page) and the category dialog's slug pattern;
- the form-state transitions of the category, movie and episode dialogs, of the legacy
  genres page, and of the custom-value select, the step counter and the loading-state
  record;
- list filtering, query building and list updates on the movie, episode, category and
  user management screens;
- the statistics cards (sums, rounded averages, the top category) and the dashboard
  charts (stable descending sort, slicing, pie entries);
- the login form's input checks, response unwrapping, admin gate and error text.

Every network call, the clock and the browser's prompts are inputs: a settled request is
an `Outcome` (`Success(value)` or `Failure`) or a richer reply datatype, the current
time is an integer parameter, and a confirmation is a boolean. The state of a React
component is an immutable datatype, and each handler is a pure function from the state
and its inputs to the new state together with what it sends or hands to its caller.

Files: `wrappers.dfy` (Option, Outcome), `text.dfy` (ASCII characters, lower-casing,
trim, substring), `numbers.dfy` (decimal text, `parseInt`), `lists.dfy` (filter,
subsequence, removal, toggle, map), `aggregates.dfy` (sums, `Math.round` of an average),
`api_types.dfy` (the API records), and one file per modelled source file.

## Model

| member | source | states |
|---|---|---|
| TtlCache.FetchWithCache | src/services/dashboardService.ts:23-49 | A fresh entry (younger than five minutes) is handed back without running the producer and the cache is unchanged; otherwise the producer runs, and a success is stored stamped with the clock at settlement and handed back; a rejection hands back the old entry however stale, or null when there is none, and leaves the cache unchanged. |
| TtlCache.FetchDependsOnlyOnOwnKey | src/services/dashboardService.ts:28-48 | Two caches that agree on a key give the same value and the same entry for that key. |
| TtlCache.FetchAll | src/services/dashboardService.ts:28-48 | Running a sequence of uses never drops a key and leaves every key no use touches as it was. |
| TtlCache.DistinctUsesSeeStartingEntries | src/services/dashboardService.ts:190-193 | In a run of uses of distinct keys each use finds its key as at the start, so it hands back the value and makes the producer decision it would make alone. |
| TtlCache.FetchAllLeavesAlone | src/services/dashboardService.ts:40-47 | A run of uses each served fresh or failing leaves the cache unchanged. |
| TtlCache.Clear | src/services/dashboardService.ts:252-255 | The cleared cache has no entries. |
| TtlCache.CacheStatus | src/services/dashboardService.ts:258-268 | The status lists exactly the cached keys, with age = floor((now − timestamp)/1000) and valid exactly when now − timestamp is below the cache duration. |
| TtlCache.ExactlyExpiredIsRefetched | src/services/dashboardService.ts:18-20 | An entry exactly 300000 ms old is stale and the producer runs. |
| TtlCache.SecondCallWithinTtlIsServedFromCache | src/services/dashboardService.ts:29-39 | After a miss that succeeds, a second use within the cache duration of the store is served the first value without running its producer. |
| TtlCache.StaleValueServedOnFailure | src/services/dashboardService.ts:40-46 | A cached value, even expired, is handed back when the refresh rejects, and the entry is kept. |
| TtlCache.ClearForcesRefetch | src/services/dashboardService.ts:252-255 | After a clear every use runs its producer. |
| TtlCache.DistinctKeysCommute | src/services/dashboardService.ts:190-193 | Uses of two different keys give the same cache and the same values in either order. |
| TtlCache.FetchAllStoresEach | src/services/dashboardService.ts:34-39 | After a run of uses of distinct keys each key holds the entry its own use would leave on the starting cache. |
| TtlCache.OtherUseKeepsEntry | src/services/dashboardService.ts:37 | A use of another key leaves an entry as it was, or leaves it absent. |
| DashboardService.Settle | src/services/dashboardService.ts:195-200 | A value that is not a truthy body keeps the field; a truthy body replaces it with its data, or with the empty default when the data is missing or of another stat's shape. |
| DashboardService.SentBy | src/services/dashboardService.ts:29-35 | A fetch sends its request exactly when its entry is not fresh. |
| DashboardService.GetDashboardStatsProgressive | src/services/dashboardService.ts:170-249 | Exactly three progress events, 'core', 'movies', 'additional' in that order, each carrying only its stage's two fields with the accumulated values; view statistics stay {period 'month', totalViews 0, data []}. |
| DashboardService.ProgressiveStats | src/services/dashboardService.ts:174-240 | Each field is the list inside its fetch's body when the wrapper handed back a body carrying data of that field's shape, and the empty list otherwise; view statistics stay the month default. |
| DashboardService.ProgressiveSent | src/services/dashboardService.ts:188-231 | At most six requests, one per stale stat, in stage order, each with limit 5. |
| DashboardService.ProgressiveUses | src/services/dashboardService.ts:190-231 | The six fetches use distinct keys, none of them the view-statistics key. |
| DashboardService.StateOf | src/services/dashboardService.ts:105-110 | A settled fetch is never 'loading', and is 'loaded' exactly when a body came back. |
| DashboardService.GetDashboardStatsOptimized | src/services/dashboardService.ts:52-167 | Every status starts as 'loading'; at return only categories and countries are settled, each 'loaded' iff a body came back; after the background groups settle, every status is 'loaded' or 'error' accordingly and each field follows the merge rule. |
| DashboardService.OptimizedUses | src/services/dashboardService.ts:83-99 | The seven fetches use distinct keys. |
| DashboardService.GetDashboardStats | src/services/function.ts:430-496 | A fulfilled `null` body anywhere makes the whole result the all-empty record; otherwise each rejected request gives its field's empty default (the month view statistics with 0 views for the last one), each fulfilled envelope gives its `data` as it came, missing data included, and another falsy body leaves its field missing. |
| DashboardService.MissingDataStaysMissing | src/services/function.ts:471-472 | A fulfilled categories envelope without data leaves the uncached field without a value, while the progressive loader shows an empty list. |
| DashboardService.NullBodyDiscardsEverything | src/services/function.ts:470-495 | A `null` view-statistics body throws on reading its data, so the fulfilled categories are discarded for the all-empty record; with the view request rejected instead, the categories come through. |
| DashboardService.OtherFalsyBodyLosesOnlyItsField | src/services/function.ts:470-478 | A falsy view-statistics body other than `null` leaves only that field missing and keeps the fulfilled categories, where a `null` body would give the all-empty record. |
| DashboardService.ThreadedFetchesSeeStartingCache | src/services/dashboardService.ts:188-231 | The sequentially threaded cache gives every fetch the entry it had at the start. |
| DashboardService.ProgressiveCacheAndRequests | src/services/dashboardService.ts:188-231 | The progressive loader drops no entry, leaves the view-statistics entry alone, and sends each of its six requests at most once. |
| DashboardService.ProgressiveSendsExactlyTheStale | src/services/dashboardService.ts:188-231 | A request is sent iff it is one of the six limit-5 requests and that stat's entry is not fresh. |
| DashboardService.ProgressiveTotalFailure | src/services/dashboardService.ts:195-242 | On a cold cache with every request rejected: three events with empty lists, all six requests sent, the all-empty result. |
| DashboardService.ProgressiveStageMergesPartialFailure | src/services/dashboardService.ts:195-202 | A fulfilled categories fetch and a rejected countries fetch give a 'core' event with the categories and an empty country list. |
| DashboardService.ProgressiveWarmCacheSendsNothing | src/services/dashboardService.ts:188-242 | With all six entries fresh nothing is sent, the cache is unchanged and the cached data is reported. |
| DashboardService.OptimizedStoresTopRated | src/services/dashboardService.ts:89-91 | A top-rated miss that succeeds stores the reply stamped at settlement. |
| DashboardService.ProgressiveServesFreshTopRated | src/services/dashboardService.ts:208-216 | A fresh top-rated entry is what the progressive loader shows, with no top-rated request sent. |
| DashboardService.LimitIsNotPartOfTheKey | src/services/dashboardService.ts:208-215 | Top-rated movies stored by the limit-10 optimized call are served to the limit-5 progressive call within the cache duration, without a request. |
| DashboardService.SettledOptimizedAgreesWithProgressive | src/services/dashboardService.ts:118-164 | Once settled, the optimized loader's six shared fields equal the progressive loader's on the same cache and calls. |
| DashboardService.OptimizedEssentialFailure | src/services/dashboardService.ts:102-117 | An essential fetch with no body is 'error' and its stat keeps the empty default, also at return. |
| DashboardService.UncachedAgreesWithProgressiveOnColdCache | src/services/function.ts:471-479 | On a cold cache, when every fulfilled reply carries data of its stat's shape and the view request does not throw, the uncached merge holds exactly the lists the progressive loader shows on the six fields the latter loads. |
| FormRequests.EmitValues | src/services/function.ts:99-146 | Over an order without repetitions, the values under a field are exactly those its rule gives, and none outside the order. |
| FormRequests.AddMovieFormBasics | src/services/function.ts:103-109 | `addMovie`'s body starts with name, slug, originName, content, type, status and year, one value each. |
| FormRequests.AddMovieFormValues | src/services/function.ts:99-138 | Every field of `addMovie`'s body carries exactly its rule's values: the seven basics always, the three flags when defined, the other optionals when truthy, the files when given, one entry per category, country and actor. |
| FormRequests.EpisodeFieldsNotCreated | src/services/function.ts:99-138 | `addMovie` appends nothing under movieId, serverName or video. |
| FormRequests.UpdateMovieRequest | src/services/function.ts:193 | The movie id goes to the request path. |
| FormRequests.UpdateMovieValues | src/services/function.ts:148-191 | Every field of `updateMovie`'s body carries exactly its rule's values; an absent or falsy field, a year of 0 included, appends nothing. |
| FormRequests.EpisodeFieldsNotUpdated | src/services/function.ts:148-191 | `updateMovie` appends nothing under movieId, serverName or video. |
| FormRequests.AddEpisodeForm | src/services/function.ts:207-213 | `addEpisode`'s body starts with the name, the slug and the movie id. |
| FormRequests.AddEpisodeFormValues | src/services/function.ts:207-213 | Every field of `addEpisode`'s body carries exactly its rule's values; serverName only when truthy, video always. |
| FormRequests.UpdateEpisodeRequest | src/services/function.ts:231 | The episode id goes to the request path. |
| FormRequests.UpdateEpisodeValues | src/services/function.ts:223-229 | Every field of `updateEpisode`'s body carries exactly its rule's values; falsy fields append nothing. |
| FormRequests.ClassifyUserInfo | src/services/function.ts:335-340 | The body is taken as an envelope iff it is an object with both a `success` and a `data` key. |
| FormRequests.UserInfoShapes | src/services/function.ts:335-340 | An envelope is recognised as one; a bare user object is not. |
| MovieService.ConvertToMovieResponse | src/services/movieService.ts:12-42 | Name, slug and year are kept; a given id, originName, content, type, status and posterUrl pass through, otherwise '' for id, content and posterUrl, the name for originName, 'movie' and 'completed'; thumbUrl falls back to the poster URL; view is 0 and both dates are the given clock; categories and countries are the inner references in order, empty when absent. |
| MovieService.ConvertRoundTrip | src/services/movieService.ts:12-42 | A response with every text field filled, written as a catalogue movie and converted back, is the same response with view 0 and both dates the clock. |
| MovieService.ConvertBareMovie | src/services/movieService.ts:12-42 | A catalogue movie with only name, slug and year converts to the response holding every default. |
| MovieService.WithDefaults | src/services/movieService.ts:47-52 | Page 1, limit 10 and search '' unless the caller gives them; every caller key wins. |
| MovieService.GetMovies | src/services/movieService.ts:45-78 | The converted list with success true when the call succeeded with a movie list; otherwise success false, no data and 'Failed to load movies'. |
| MovieService.CreateMovie | src/services/movieService.ts:80-90 | The reply when the call resolves, otherwise success false with 'Failed to create movie'. |
| MovieService.UpdateMovieById | src/services/movieService.ts:92-102 | The reply when the call resolves, otherwise success false with 'Failed to update movie'. |
| MovieService.DeleteMovieById | src/services/movieService.ts:104-114 | The reply when the call resolves, otherwise success false with 'Failed to delete movie'. |
| MovieService.DefaultListRequest | src/services/movieService.ts:47-52 | With no parameters the request is page 1, limit 10, search '' and nothing else. |
| MovieService.CallerParamsOverrideDefaults | src/services/movieService.ts:47-52 | Caller-supplied keys override the defaults. |
| Slugs.UnderscoreFailsPattern | src/pages/genre_management/components/AddCategoryDialog.tsx:91 | A text with an underscore never matches `^[a-z0-9-]+$`. |
| Slugs.ReplaceRuns | src/pages/genre_management/components/AddCategoryDialog.tsx:55-56 | `replace(/x+/g, '-')`: empty exactly for empty input, never longer, a leading run becomes a hyphen, and every character of the result is a hyphen or outside the class. |
| Slugs.CategorySlug | src/pages/genre_management/components/AddCategoryDialog.tsx:50-58 | The category slug is made of `[a-z0-9_-]`, with no hyphen at either end and no two hyphens side by side. |
| Slugs.CategoryTextIsTrimmed | src/pages/genre_management/components/AddCategoryDialog.tsx:89 | Text of the generator's class has nothing for `trim` to remove. |
| Slugs.CategoryTextMatchesPattern | src/pages/genre_management/components/AddCategoryDialog.tsx:91 | Text of the generator's class matches the slug pattern iff it is non-empty and has no underscore. |
| Slugs.CategorySlugFixesCleanSlugs | src/pages/genre_management/components/AddCategoryDialog.tsx:50-58 | Every `[a-z0-9_-]` text without edge or double hyphens is its own category slug. |
| Slugs.CategorySlugIdempotent | src/pages/genre_management/components/AddCategoryDialog.tsx:50-58 | Generating a category slug from a category slug changes nothing. |
| Slugs.StripHyphens | src/pages/movie_management/components/AddMovieDialog.tsx:164 | `replace(/^-+\|-+$/g, '')` leaves no hyphen at either end, never lengthens, and changes nothing without edge hyphens. |
| Slugs.MovieSlug | src/pages/movie_management/components/AddMovieDialog.tsx:157-165 | The movie slug is made of `[a-z0-9-]`, with no hyphen at either end and no two side by side. |
| Slugs.MovieSlugRegeneratedDropsHyphens | src/pages/movie_management/components/AddMovieDialog.tsx:162 | Generating a movie slug from a movie slug drops its hyphens, so the rule is not idempotent. |
| Slugs.MovieSlugOfSlugText | src/pages/movie_management/components/AddMovieDialog.tsx:162-164 | On `[a-z0-9-]` text the movie rule only drops hyphens. |
| Slugs.MovieSlugOfHyphenated | src/pages/movie_management/components/AddMovieDialog.tsx:162 | A three-character slug with a hyphen in the middle comes back as its two outer characters. |
| Slugs.MovieAndCategoryAgreeOnPlainWords | src/pages/movie_management/components/AddMovieDialog.tsx:157-165 | On lower-case letters, digits and white space with no edge white space the movie rule and the category rule give the same slug. |
| Slugs.GenreSlug | src/pages/genres/GenresPage.tsx:77 | The genres slug is made of `[a-z0-9-]` and is never longer than the name. |
| Slugs.GenreSlugIdempotent | src/pages/genres/GenresPage.tsx:77 | Generating a genre slug from a genre slug changes nothing. |
| Slugs.GenreSlugLeadingSpace | src/pages/genres/GenresPage.tsx:77 | A name starting with white space gives a slug starting with a hyphen. |
| Slugs.GenreSlugHyphenBeforeSpace | src/pages/genres/GenresPage.tsx:77 | A hyphen followed by white space gives two hyphens side by side. |
| CategoryDialog.Prefill | src/pages/genre_management/components/AddCategoryDialog.tsx:38-48 | The form shows the edited category's name and slug, or is empty when adding; the errors are cleared. |
| CategoryDialog.HandleNameChange | src/pages/genre_management/components/AddCategoryDialog.tsx:60-72 | The name is stored; the slug is regenerated from it iff the old slug was empty or generated from the old name, and kept otherwise; the name error is cleared. |
| CategoryDialog.HandleSlugChange | src/pages/genre_management/components/AddCategoryDialog.tsx:74-80 | The typed slug is stored in generated form; the name is kept and the slug error cleared. |
| CategoryDialog.Validate | src/pages/genre_management/components/AddCategoryDialog.tsx:82-97 | A name error iff the trimmed name is empty; a slug error iff the trimmed slug is empty ('Slug is required') or the slug fails `^[a-z0-9-]+$` (the pattern message). |
| CategoryDialog.HandleSubmit | src/pages/genre_management/components/AddCategoryDialog.tsx:99-114 | `onSave` is called with the form iff it is valid; an invalid form only shows its errors; a resolved save closes and empties the dialog; a rejected one keeps it open with its data. |
| CategoryDialog.HandleClose | src/pages/genre_management/components/AddCategoryDialog.tsx:116-120 | The dialog asks to close, with an empty form and no errors. |
| CategoryDialog.NameChangeKeepsSlugFollowing | src/pages/genre_management/components/AddCategoryDialog.tsx:60-68 | A slug that follows the name keeps following it after any name change. |
| CategoryDialog.HandMadeSlugSurvivesNameChanges | src/pages/genre_management/components/AddCategoryDialog.tsx:60-68 | A hand-made slug that none of the typed names generates survives every name change. |
| CategoryDialog.NameChanges | src/pages/genre_management/components/AddCategoryDialog.tsx:60-68 | Typing names keeps the open flag; typing none changes nothing. |
| CategoryDialog.StoredSlugIsGenerated | src/pages/genre_management/components/AddCategoryDialog.tsx:74-76 | A slug stored by the slug field is a fixed point of the generator. |
| CategoryDialog.GeneratedSlugRejectedIffEmptyOrUnderscore | src/pages/genre_management/components/AddCategoryDialog.tsx:50-93 | The dialog's own validation rejects a generated slug iff it is empty or holds an underscore, which the generator keeps. |
| CategoryDialog.SlugCheckOnCategoryText | src/pages/genre_management/components/AddCategoryDialog.tsx:89-93 | On text of the generator's class the slug check fails iff the text is empty or holds an underscore. |
| CategoryDialog.UnderscoreNameIsRefused | src/pages/genre_management/components/AddCategoryDialog.tsx:54-92 | The name '_' generates the slug '_', which the pattern check refuses. |
| MovieDialog.RefSlugs | src/pages/movie_management/components/AddMovieDialog.tsx:106-107 | The slugs of the references, one per reference, in order. |
| MovieDialog.Prefill | src/pages/movie_management/components/AddMovieDialog.tsx:94-154 | A closed dialog is untouched; adding gives the blank form of the current year and empty selections; editing copies name, slug, origin name, content and year, empties the actors, and sets the form's and the selection's categories and countries to the movie's slugs. |
| MovieDialog.HandleInputChange | src/pages/movie_management/components/AddMovieDialog.tsx:166-177 | The field takes the value; a non-empty name also replaces the slug with the generated one, an empty name leaves it; nothing but the form changes. |
| MovieDialog.NameChangeGivesCleanSlug | src/pages/movie_management/components/AddMovieDialog.tsx:157-177 | After a non-empty name the slug is empty or matches the slug pattern, with no edge or double hyphen. |
| MovieDialog.HandleCategorySelect | src/pages/movie_management/components/AddMovieDialog.tsx:210-220 | The selection and the form's categories both become the toggled list; nothing else changes. |
| MovieDialog.HandleCountrySelect | src/pages/movie_management/components/AddMovieDialog.tsx:222-232 | The same toggle for countries. |
| MovieDialog.CategorySelectTwiceRestores | src/pages/movie_management/components/AddMovieDialog.tsx:210-215 | Selecting an unselected category twice restores the selection. |
| MovieDialog.CategorySelectKeepsDistinct | src/pages/movie_management/components/AddMovieDialog.tsx:210-215 | A selection without repeats keeps none after a toggle. |
| MovieDialog.CountrySelectTwiceRestores | src/pages/movie_management/components/AddMovieDialog.tsx:222-227 | Selecting an unselected country twice restores the selection. |
| MovieDialog.CountrySelectKeepsDistinct | src/pages/movie_management/components/AddMovieDialog.tsx:222-227 | A country selection without repeats keeps none after a toggle. |
| MovieDialog.HandleAddActor | src/pages/movie_management/components/AddMovieDialog.tsx:234-244 | A non-empty trimmed name not yet listed is appended to both lists and the input cleared; otherwise nothing changes. |
| MovieDialog.AddActorKeepsListClean | src/pages/movie_management/components/AddMovieDialog.tsx:234-244 | The actor list never gains a repeat or a blank name. |
| MovieDialog.HandleRemoveActor | src/pages/movie_management/components/AddMovieDialog.tsx:246-253 | Both lists become the list without any occurrence of the actor; nothing else changes. |
| MovieDialog.RemoveActorRemovesExactlyIt | src/pages/movie_management/components/AddMovieDialog.tsx:246-253 | The actor is gone, every other actor is still listed, and the order is kept. |
| MovieDialog.AddThenRemoveActor | src/pages/movie_management/components/AddMovieDialog.tsx:234-253 | Adding a new actor and removing it gives back the list. |
| MovieDialog.HandleSubmit | src/pages/movie_management/components/AddMovieDialog.tsx:255-271 | `onSave` is called iff name, slug, origin name and content are all non-empty, with the form, as an update carrying the movie's id exactly when editing; the dialog asks to close iff the save resolved. |
| MovieDialog.BlankFormIsNotSubmittable | src/pages/movie_management/components/AddMovieDialog.tsx:122-146 | A freshly opened add dialog cannot be submitted. |
| EpisodeManagement.Prefill | src/pages/movie_management/components/EpisodeManagement.tsx:78-98 | A closed dialog is untouched; editing copies the episode's name, slug, movie id and server; adding gives empty texts, the page's movie id and server 'Default'; the video is cleared on open. |
| EpisodeManagement.HandleInputChange | src/pages/movie_management/components/EpisodeManagement.tsx:110-122 | The field takes the value; a non-empty name also replaces the slug with the movie rule's slug; nothing else changes. |
| EpisodeManagement.HandleVideoChange | src/pages/movie_management/components/EpisodeManagement.tsx:110-114 | Only the video changes. |
| EpisodeManagement.NameChangeGivesCleanSlug | src/pages/movie_management/components/EpisodeManagement.tsx:100-122 | After a non-empty name the slug is empty or matches the slug pattern, with no edge or double hyphen. |
| EpisodeManagement.Keys | src/pages/movie_management/components/EpisodeManagement.tsx:132-134 | The submitted object has an `id` key exactly when it carries an id. |
| EpisodeManagement.HandleSubmit | src/pages/movie_management/components/EpisodeManagement.tsx:124-141 | `onSave` gets the form (plus the id when editing) iff name and slug are non-empty and, for a new episode, a video is chosen; the dialog asks to close iff the save resolved. |
| EpisodeManagement.Dispatch | src/pages/movie_management/components/EpisodeManagement.tsx:244-248 | The update handler is called iff the data has an `id` key. |
| EpisodeManagement.EditingAfterSave | src/pages/movie_management/components/EpisodeManagement.tsx:241-253 | The edited episode is forgotten iff the handler resolved. |
| EpisodeManagement.SubmissionRoutesByEditing | src/pages/movie_management/components/EpisodeManagement.tsx:132-134 | A submission reaches the update handler iff an episode was being edited, and then carries its id. |
| EpisodeManagement.CreateNeedsVideo | src/pages/movie_management/components/EpisodeManagement.tsx:127 | A new episode without a video is never submitted; an edited one with name and slug is. |
| EpisodeManagement.EditSubmitsWithoutVideo | src/pages/movie_management/components/EpisodeManagement.tsx:78-141 | Opening on an episode and submitting at once sends an update with its id and no video. |
| EpisodeManagement.HandleDeleteEpisode | src/pages/movie_management/components/EpisodeManagement.tsx:260-269 | A deletion is requested iff the id names a listed episode and the prompt is confirmed, and then for that id. |
| EpisodeManagement.DeleteMissingDoesNothing | src/pages/movie_management/components/EpisodeManagement.tsx:261-262 | An unlisted id requests nothing, whatever the prompt. |
| MovieEpisodes.LoadEpisodes | src/pages/movie_management/hooks/useMovieEpisodes.ts:12-34 | Whatever the movie id, and whether or not it is empty, loading leaves an empty episode list. |
| MovieEpisodes.HandleAddEpisode | src/pages/movie_management/hooks/useMovieEpisodes.ts:37-62 | Success is reported iff the reply succeeded; then the returned episode is appended after the unchanged list, otherwise the list is kept. |
| MovieEpisodes.HandleUpdateEpisode | src/pages/movie_management/hooks/useMovieEpisodes.ts:65-92 | On success every episode with the request's id is replaced by the returned one in place and the others are kept; on failure nothing changes. |
| MovieEpisodes.HandleDeleteEpisode | src/pages/movie_management/hooks/useMovieEpisodes.ts:95-120 | On success no episode with the id remains and the others stay in order; on failure nothing changes. |
| MovieEpisodes.AddThenDeleteRestores | src/pages/movie_management/hooks/useMovieEpisodes.ts:37-120 | Adding an episode with a new id and then deleting that id gives back the original list. |
| MovieEpisodes.DeleteTwiceIsDeleteOnce | src/pages/movie_management/hooks/useMovieEpisodes.ts:95-120 | A second successful delete of the same id changes nothing more. |
| MovieEpisodes.UpdateOfUnlistedIdKeepsList | src/pages/movie_management/hooks/useMovieEpisodes.ts:65-92 | Updating an id that is not listed leaves the list unchanged, although success is reported. |
| MovieManagement.CleanOptions | src/pages/movie_management/hooks/useMovieManagement.ts:48-53 | The options kept are exactly the usable ones of the response, in their order; a missing list gives none. |
| MovieManagement.LoadFilterData | src/pages/movie_management/hooks/useMovieManagement.ts:41-62 | Both option lists are replaced by their cleaned responses when both requests resolve, and both are kept when either fails. |
| MovieManagement.CleanOptionsKeepsUsable | src/pages/movie_management/hooks/useMovieManagement.ts:48-53 | Cleaning a list of usable options returns it unchanged. |
| MovieManagement.Selected | src/pages/movie_management/hooks/useMovieManagement.ts:82-88 | A select value is sent iff it is neither empty nor the select's "all" sentinel, and then unchanged. |
| MovieManagement.ParseYear | src/pages/movie_management/hooks/useMovieManagement.ts:90-92 | The year is a number exactly when `parseInt` finds one, and then it is that number; otherwise NaN is sent. |
| MovieManagement.BuildQuery | src/pages/movie_management/hooks/useMovieManagement.ts:63-99 | The query has the page and a limit of 10; the trimmed search iff non-blank, the type iff single or series, category and country iff not sentinels, the year iff set and not the sentinel, the sort iff one of the three orders. |
| MovieManagement.DefaultFiltersSendOnlySort | src/pages/movie_management/hooks/useMovieManagement.ts:22-29 | The default filters ask for only the page, the limit and the 'latest' order. |
| MovieManagement.BlankSearchIsNotSent | src/pages/movie_management/hooks/useMovieManagement.ts:72-74 | A white-space-only search gives the same query as an empty one. |
| MovieManagement.DigitYearIsSentAsNumber | src/pages/movie_management/hooks/useMovieManagement.ts:90-92 | A year written in decimal digits is sent as that number. |
| MovieManagement.HandleFilterChange | src/pages/movie_management/hooks/useMovieManagement.ts:211-215 | The new filters are stored, the page becomes 1, and page 1 is reloaded with the new filters. |
| MovieManagement.HandleResetFilters | src/pages/movie_management/hooks/useMovieManagement.ts:218-230 | The default filters are stored, the page becomes 1, and page 1 is reloaded without filters. |
| MovieManagement.HandlePageChange | src/pages/movie_management/hooks/useMovieManagement.ts:122-125 | The page changes and is reloaded with the active filters. |
| MovieManagement.HandleMovieSaved | src/pages/movie_management/hooks/useMovieManagement.ts:140-179 | The dialogs close and the edited movie is forgotten; a reload happens iff the save succeeded: the current page after an edit, page 1 after a creation, both without filters. |
| MovieManagement.HandleDeleteMovie | src/pages/movie_management/hooks/useMovieManagement.ts:180-208 | Only the page may change; it steps back by one iff the delete succeeded on a page holding a single movie that was not the first; a successful delete reloads that page without filters. |
| MovieManagement.DeleteKeepsPageValid | src/pages/movie_management/hooks/useMovieManagement.ts:190-196 | A delete never takes a page of at least 1 below 1. |
| MovieManagement.FilterChangesReturnToFirstPage | src/pages/movie_management/hooks/useMovieManagement.ts:211-230 | After a filter change or a reset the hook is on page 1 and the request it issues is for page 1, with the new filters or none. |
| MovieManagement.ReloadsAfterChangesIgnoreFilters | src/pages/movie_management/hooks/useMovieManagement.ts:140-208 | The reloads after a save or a delete issue the bare page request, whatever filters are active. |
| UserManagement.FilterUsers | src/pages/user_management/hooks/useUserManagement.ts:52-73 | The users shown are a subsequence of those loaded, and a user is shown exactly when a blank term or a match on the term lets it through and the role filter admits it. |
| UserManagement.NoFilterShowsAll | src/pages/user_management/hooks/useUserManagement.ts:56-70 | With a blank term and no role filter every loaded user is shown, in order. |
| UserManagement.StatusIsIgnored | src/pages/user_management/hooks/useUserManagement.ts:52-73 | The status filter never changes which users are shown. |
| UserManagement.ResetFilters | src/pages/user_management/hooks/useUserManagement.ts:169-173 | A reset empties the term and sets status and role back to 'all'. |
| UserManagement.ResetShowsAll | src/pages/user_management/hooks/useUserManagement.ts:169-173 | After a reset the whole loaded list is shown. |
| UserManagement.StatsOf | src/pages/user_management/hooks/useUserManagement.ts:147-150 | The total is the number of users, the admin count the number of positions holding an administrator, the regular count the number holding a non-administrator; they add up to the total. |
| UserManagement.StatsAddUp | src/pages/user_management/hooks/useUserManagement.ts:147-150 | The three counts of two concatenated lists are the sums of their counts. |
| UserManagement.PromotionMovesOneAccount | src/pages/user_management/hooks/useUserManagement.ts:147-150 | Making one regular account an administrator raises the admin count by one and lowers the regular count by one, the total unchanged. |
| UserManagement.LoadUsers | src/pages/user_management/hooks/useUserManagement.ts:26-50 | A successful answer replaces the users, with none when it has no data; a failed or rejected one keeps them. |
| UserManagement.HandleUpdateUser | src/pages/user_management/hooks/useUserManagement.ts:86-114 | The update is sent iff a user is being edited; a reload follows iff it also succeeded, and then the dialog closes and the user is forgotten; otherwise the state is kept. |
| UserManagement.HandleEditUser | src/pages/user_management/hooks/useUserManagement.ts:81-84 | The user is remembered and the dialog opens. |
| UserManagement.EditThenSaveCloses | src/pages/user_management/hooks/useUserManagement.ts:81-114 | Editing a user and saving successfully sends the update and ends with the dialog closed and no user remembered. |
| GenreManagement.SearchFilter | src/pages/genre_management/index.tsx:66-72 | The categories shown are a subsequence of those loaded, exactly those whose lower-cased name or slug contains the lower-cased term, so never more than were loaded. |
| GenreManagement.EmptyTermShowsAll | src/pages/genre_management/index.tsx:66-72 | The empty term shows every category. |
| GenreManagement.SpaceTermFilters | src/pages/genre_management/index.tsx:66-72 | The term is not trimmed: a single space hides every category with no space in its name or slug. |
| GenreManagement.ContainsCharIn | src/pages/genre_management/index.tsx:68-69 | A non-letter occurs in a lower-cased text only if it occurs in the text. |
| GenreManagement.LoadCategories | src/pages/genre_management/index.tsx:29-59 | An answer with data sets both the loaded and the shown lists to it; no data or a thrown error empties both. |
| GenreManagement.FailedLoadShowsNothing | src/pages/genre_management/index.tsx:29-72 | After a failed load no category is shown, whatever the term. |
| GenreManagement.HandleAddCategory | src/pages/genre_management/index.tsx:74-115 | The update call is made iff a category is being edited, else the create call; a reload happens iff the answer has data, and then the edited category is forgotten; otherwise the error is rethrown. |
| GenreManagement.HandleDeleteCategory | src/pages/genre_management/index.tsx:124-132 | The delete call is made iff the id names a loaded category and the prompt is confirmed, and then with that id. |
| GenreManagement.DeleteOfUnknownIdDoesNothing | src/pages/genre_management/index.tsx:125-126 | An id that names no loaded category deletes nothing, whatever the prompt. |
| UsersPage.SearchUsers | src/pages/users/UsersPage.tsx:32-46 | A blank term shows every user; otherwise exactly the users whose lower-cased name, e-mail or role contains the lower-cased untrimmed term, in order. |
| UsersPage.TermIsNotTrimmed | src/pages/users/UsersPage.tsx:33-44 | A non-blank term is matched with its surrounding spaces, so a user whose name contains the whole term is shown. |
| UsersPage.HandleDelete | src/pages/users/UsersPage.tsx:48-57 | A confirmed, successful delete removes every user with the id and keeps the others in order; otherwise the list is unchanged. |
| UsersPage.DeletedUserIsNeverShown | src/pages/users/UsersPage.tsx:32-57 | A deleted user is not shown under any search term. |
| GenresPage.HandleDialogOpen | src/pages/genres/GenresPage.tsx:37-55 | The dialog opens; editing iff a genre is given, and then the form holds its id, name, slug and description, otherwise the empty form. |
| GenresPage.HandleDialogClose | src/pages/genres/GenresPage.tsx:57-64 | The dialog closes and the form is emptied; the list and the edit flag are kept. |
| GenresPage.HandleInputChange | src/pages/genres/GenresPage.tsx:66-80 | The named field takes the value and nothing else on the page changes; a name typed for a new genre also sets the slug to the one generated from it. |
| GenresPage.TypeNameKeepsPage | src/pages/genres/GenresPage.tsx:66-80 | Any sequence of typed names changes only the form. |
| GenresPage.EditingNeverRegeneratesSlug | src/pages/genres/GenresPage.tsx:74-79 | While editing, the slug stays the genre's own however the name is retyped. |
| GenresPage.NewGenreSlugFollowsName | src/pages/genres/GenresPage.tsx:74-79 | For a new genre the slug is the one generated from the last name typed, and consists of lower-case letters, digits and hyphens only. |
| GenresPage.HandleSubmit | src/pages/genres/GenresPage.tsx:82-97 | A successful update merges the form into the genres with the edited id, a successful create appends the returned genre, and either closes the dialog; a failed call leaves the page unchanged. |
| GenresPage.UpdateOfUnlistedIdKeepsList | src/pages/genres/GenresPage.tsx:86-88 | An update whose id is not listed leaves the list as it was. |
| GenresPage.UpdateKeepsIds | src/pages/genres/GenresPage.tsx:86-88 | An update never changes which ids are listed, nor where. |
| GenresPage.HandleDelete | src/pages/genres/GenresPage.tsx:99-108 | A confirmed, successful delete removes every genre with the id and keeps the others in order; otherwise nothing changes. |
| GenresPage.CreateThenDeleteRestores | src/pages/genres/GenresPage.tsx:82-108 | Creating a genre under a new id and then deleting that id gives back the original list. |
| Aggregates.SumConcat | src/pages/genre_management/components/CategoryStatsOverview.tsx:31 | The sum over a concatenation is the sum of the parts, so the left-to-right `reduce` from 0 and the recursive sum agree. |
| Aggregates.RoundedQuotient | src/pages/genre_management/components/CategoryStatsOverview.tsx:32 | `Math.round(total / count)` is the integer nearest the quotient, a half rounding up. |
| Aggregates.RoundedAverage | src/pages/genre_management/components/CategoryStatsOverview.tsx:32 | The average is 0 when there is nothing to average and the rounded quotient otherwise. |
| Aggregates.AverageAtMostBound | src/pages/movie_management/components/MovieStatsOverview.tsx:30-31 | When every count is at most a bound, so is the rounded average. |
| CategoryStatsOverview.TopIndex | src/pages/genre_management/components/CategoryStatsOverview.tsx:33-36 | After reading a prefix, the `reduce` holds the first index of the largest count among those read. |
| CategoryStatsOverview.TopCategory | src/pages/genre_management/components/CategoryStatsOverview.tsx:33-36 | With no categories the top is 'N/A' with 0; otherwise it is the first category with the largest count. |
| CategoryStatsOverview.TopLabel | src/pages/genre_management/components/CategoryStatsOverview.tsx:62 | The top card shows the top name, or 'N/A' when the name is empty; never an empty text. |
| CategoryStatsOverview.OverviewOf | src/pages/genre_management/components/CategoryStatsOverview.tsx:30-36 | The cards show the number of categories, the sum of their counts, the rounded average and the top category. |
| CategoryStatsOverview.AverageAtMostTop | src/pages/genre_management/components/CategoryStatsOverview.tsx:30-36 | The average per category never exceeds the top category's count, and no count exceeds the total. |
| CategoryStatsOverview.EarliestMaximumWins | src/pages/genre_management/components/CategoryStatsOverview.tsx:33-36 | Among equal largest counts the earliest category is the top one. |
| MovieStatsOverview.OverviewOf | src/pages/movie_management/components/MovieStatsOverview.tsx:29-35 | The cards show the number of movies, the total and rounded average views, and the current-year count: the number of positions holding a movie of that year, equal to the number of movies iff every movie is from that year. |
| MovieStatsOverview.CurrentYearAddsUp | src/pages/movie_management/components/MovieStatsOverview.tsx:34-35 | The current-year counts of two concatenated pages add up. |
| MovieStatsOverview.OneMovieCountsByYear | src/pages/movie_management/components/MovieStatsOverview.tsx:34-35 | A single movie counts 1 when its year is the current year and 0 otherwise. |
| MovieStatsOverview.AverageWithinViews | src/pages/movie_management/components/MovieStatsOverview.tsx:29-31 | The average views never exceed the most viewed movie's views, and no movie has more views than the total. |
| MovieStatsOverview.TotalViewsAddUp | src/pages/movie_management/components/MovieStatsOverview.tsx:30 | The total views of two lists of movies add up. |
| ChartsGrid.SortDescPermutes | src/pages/dashboard/components/ChartsGrid.tsx:61-63 | The sort returns a permutation of its input. |
| ChartsGrid.SortDescSorted | src/pages/dashboard/components/ChartsGrid.tsx:61-63 | The sort leaves the movie counts in non-increasing order. |
| ChartsGrid.SortDescStable | src/pages/dashboard/components/ChartsGrid.tsx:61-63 | The sort is stable: the entries with any one count keep their input order. |
| ChartsGrid.SortDescOfSorted | src/pages/dashboard/components/ChartsGrid.tsx:68-70 | Sorting an already sorted list changes nothing, so the pie chart's second sort finds the array as the bar chart left it. |
| ChartsGrid.Take | src/pages/dashboard/components/ChartsGrid.tsx:63 | `slice(0, n)` keeps the first n entries, or all when there are fewer. |
| ChartsGrid.ToPieEntry | src/pages/dashboard/components/ChartsGrid.tsx:71-74 | A slice carries the category's count and its name, or 'Unknown' when the name is empty. |
| ChartsGrid.ChartsOf | src/pages/dashboard/components/ChartsGrid.tsx:61-74 | The caller's arrays end up sorted; the bar charts are their first 10 and 8 entries; the pie is the first 6 entries of the sorted categories sorted again. |
| ChartsGrid.ChartsShape | src/pages/dashboard/components/ChartsGrid.tsx:61-74 | The charts hold at most 10, 8 and 6 entries in non-increasing order of count, and the pie's slices are the first six category bars. |
| ChartsGrid.ChartedEntriesComeFromInput | src/pages/dashboard/components/ChartsGrid.tsx:61-63 | Every charted category comes from the input, and the first bar has the largest count of all. |
| Numbers.IntToString | src/services/function.ts:109 | The text of an integer is non-empty, starts with a minus sign iff it is negative, and is otherwise made of digits. |
| Numbers.ParseInt | src/pages/movie_management/hooks/useMovieManagement.ts:91 | `parseInt` gives NaN exactly when no digit follows the leading white space and the optional sign. |
| Numbers.ParseIntRoundTrip | src/services/function.ts:109 | Parsing the text of any integer gives that integer back. |
| Numbers.ParseIntIgnoresTrailingText | src/pages/movie_management/hooks/useMovieManagement.ts:91 | `parseInt` stops at the first character after the digits that is not a digit. |
| Login.HandleInputChange | src/pages/login/components/LoginForm.tsx:25-33 | The edited field takes the value, the other is kept, and any shown error is cleared. |
| Login.Validate | src/pages/login/components/LoginForm.tsx:39-47 | An empty field is reported first; then a missing '@'; both checks pass exactly when both fields are filled and the e-mail has an '@'. |
| Login.Unwrap | src/pages/login/components/LoginForm.tsx:58-68 | A bare response and a successful envelope give the authentication data; a failed envelope becomes an error with its message, or 'Login failed' when that is empty. |
| Login.ErrorText | src/pages/login/components/LoginForm.tsx:93-107 | The text for a 401, then a 403, then the server's message, the error's message and a default; never empty. |
| Login.HandleSubmit | src/pages/login/components/LoginForm.tsx:35-111 | A failed check shows its message and sends nothing; otherwise the request is sent and loading ends; a session is stored iff the reply unwraps to an admin's data, and an error is shown iff none is stored. |
| Login.EmptyFieldComesFirst | src/pages/login/components/LoginForm.tsx:39-42 | An empty field is reported even when the e-mail also lacks an '@', and nothing is sent. |
| Login.FailedEnvelopeShowsItsMessage | src/pages/login/components/LoginForm.tsx:58-68 | A failed envelope shows its message, or 'Login failed' when the message is empty. |
| Login.NonAdminIsTurnedAway | src/pages/login/components/LoginForm.tsx:71-74 | A non-admin account stores nothing and sees the same text as an HTTP 403. |
| Login.EditAfterFailureClears | src/pages/login/components/LoginForm.tsx:25-33 | After any failed submit, typing into a field clears the error and keeps the other field. |
| CustomSelect.Sync | src/components/ui/custom-select.tsx:47-54 | Custom mode is on iff the value is non-empty and no option has it, and then the custom text is the value; the popover is untouched. |
| CustomSelect.HandleSelectChange | src/components/ui/custom-select.tsx:75-83 | Choosing 'other' enters custom mode and reports nothing; any other value is reported, leaves custom mode and closes the popover. |
| CustomSelect.HandleCustomInputChange | src/components/ui/custom-select.tsx:85-87 | Only the custom text changes. |
| CustomSelect.HandleCustomInputBlur | src/components/ui/custom-select.tsx:89-93 | The trimmed text is reported iff it is not blank, and it is then non-empty; the state is untouched. |
| CustomSelect.HandleCustomInputKeyDown | src/components/ui/custom-select.tsx:95-100 | Enter on a non-blank text reports what a blur would and closes the popover; anything else does nothing. |
| CustomSelect.ToggleBackToSelect | src/components/ui/custom-select.tsx:102-104 | Custom mode ends and the custom text is kept. |
| CustomSelect.FindLabel | src/components/ui/custom-select.tsx:118-122 | A label is found iff some option has the value, and it is the label of the first such option. |
| CustomSelect.TriggerLabel | src/components/ui/custom-select.tsx:118-122 | The trigger shows the custom text or the 'other' label in custom mode, else the placeholder for an empty value, the value itself when no option has it, and otherwise the label of the first option with the value, or the value itself when that label is empty. |
| CustomSelect.FirstMatchIsFound | src/components/ui/custom-select.tsx:121 | The `find` returns the label of the first option carrying the value. |
| CustomSelect.LaterOptionsDoNotChangeTrigger | src/components/ui/custom-select.tsx:118-122 | Once an option carries the value, options appended after it never change the trigger text. |
| CustomSelect.ExternalCustomValueIsShown | src/components/ui/custom-select.tsx:47-54 | Once the parent holds a value no option has, the trigger shows that value. |
| CustomSelect.BlurRoundTrip | src/components/ui/custom-select.tsx:85-93 | Typing and leaving the field reports the trimmed text; taken back by the parent, it keeps the component in custom mode with that text, and leaving again reports the same value. |
| CustomSelect.ChosenOptionIsShown | src/components/ui/custom-select.tsx:75-83 | Choosing an option reports its value and, once the parent takes it, leaves custom mode with the option's label on the trigger. |
| CustomSelect.OptionValuedOtherIsShadowed | src/components/ui/custom-select.tsx:164 | An option whose value is 'other' cannot be chosen: picking it enters custom mode and reports nothing. |
| Steps.UseSteps | src/components/ui/step-indicator.tsx:26-27 | The counter starts at the given step, unclamped, with the given number of steps. |
| Steps.UseStepsFromStart | src/components/ui/step-indicator.tsx:26-27 | Without an initial step the counter starts on step 1, which is in range when there is at least one step. |
| Steps.NextStep | src/components/ui/step-indicator.tsx:29-31 | One step forward below the last step, else the last step. |
| Steps.PreviousStep | src/components/ui/step-indicator.tsx:33-35 | One step back above step 1, else step 1. |
| Steps.GoToStep | src/components/ui/step-indicator.tsx:37-39 | A target within the steps is taken as is; one below 1 becomes 1 and one past the end becomes the last step. |
| Steps.MovesKeepRange | src/components/ui/step-indicator.tsx:29-39 | The three moves keep an in-range counter in range. |
| Steps.EndsAreFixedPoints | src/components/ui/step-indicator.tsx:29-42 | In range, the counter is on the last step iff a step forward changes nothing, and on the first iff a step back changes nothing. |
| Steps.NextThenPrevious | src/components/ui/step-indicator.tsx:29-35 | Forward then back returns to the step unless it was the last; back then forward unless it was the first. |
| Steps.GoToStepIdempotent | src/components/ui/step-indicator.tsx:37-39 | Going to a step twice is going once, and going to the current in-range step changes nothing. |
| Steps.InitialStepIsNotClamped | src/components/ui/step-indicator.tsx:26-31 | A counter started past the end is out of range and a step forward moves it back to the last step. |
| ProgressiveLoading.SetLoading | src/hooks/useProgressiveLoading.ts:18-20 | Only the loading flag changes. |
| ProgressiveLoading.SetStage | src/hooks/useProgressiveLoading.ts:22-28 | The stage changes, and the progress only when one is given. |
| ProgressiveLoading.SetProgress | src/hooks/useProgressiveLoading.ts:30-32 | Only the progress changes. |
| ProgressiveLoading.SetError | src/hooks/useProgressiveLoading.ts:34-36 | Only the error changes. |
| ProgressiveLoading.Reset | src/hooks/useProgressiveLoading.ts:38-45 | The record returns to not loading, stage 'Ready', progress 0 and no error. |
| ProgressiveLoading.StageWithProgressSplits | src/hooks/useProgressiveLoading.ts:22-32 | Setting a stage with a progress is setting the stage alone and then the progress. |
| ProgressiveLoading.SettersCommute | src/hooks/useProgressiveLoading.ts:18-36 | The setters touch separate parts of the record, so their order does not matter. |
| ProgressiveLoading.SettersOverwrite | src/hooks/useProgressiveLoading.ts:18-36 | Setting a part to its own value changes nothing, and the later of two settings wins. |
| ProgressiveLoading.ResetForgetsEverything | src/hooks/useProgressiveLoading.ts:11-45 | Whatever the setters did, a reset gives back the initial record. |

## Left out

- HTTP: every axios request, the endpoint URL constants and the token header are not modelled; a settled request is an input outcome or reply.
- Session storage: writing the token and user to `localStorage`, setting the axios header, `onLoginSuccess` and the navigation after sign-in are modelled only as the `Login.Session` the submit produces.
- Prompts, toasts and console output: `window.confirm` is a boolean input, and toasts and logging have no effect on the model.
- Async interleaving: the optimized loader's detached continuations and its eager start of all seven fetches are modelled by two snapshots (at return and after every group settled), and the fetches inside a stage run one after another; distinct keys make their order irrelevant.
- The clock: `Date.now()` and `new Date()` are integer parameters (milliseconds, or the current year for the movie cards); the `createdAt`/`updatedAt` stamps of `convertToMovieResponse` are the clock's ISO text passed in as `nowIso`, which is not computed from milliseconds.
- `recentUsers` of the user statistics is left out: it compares creation dates with the clock a week back.
- Floating point: the step indicator's `progressPercentage`, ratings and `toFixed`, and the text of `tmdbVoteAverage` are not computed; a JavaScript number field is carried as its text.
- Unicode: `normalize('NFD')` is treated as the identity on its input (the removal of U+0300 to U+036F that follows is modelled); `\s`, `trim` and `toLowerCase` are modelled on ASCII only.
- Files: poster, thumbnail and video files are opaque tokens; the movie dialog's `FileReader` previews are not modelled.
- Loading flags: the `loading`, `saving` and `usersLoading` flags of the hooks and pages only drive spinners and are not modelled (the login form's `isLoading` is).
- `handleDeleteUser`, `handleSearch`, `handleToggleUserStatus` and `handleSaveUser` of the user-management hook are not modelled: they only reload, store the term, log, or forward to `handleUpdateUser`.
- `handleEditCategory` and `handleRefresh` of the category page, and the initial fetches of the legacy users and genres pages, only set state from an input and are not modelled.
- The custom select's measured trigger width, and the list widget's own normalisation of item values, are not modelled.
- The mock backend of the legacy pages (`src/services/api.ts`) is not part of this model; its calls are input outcomes.
- src/types/movie.ts is not part of this model; the records follow src/types/api.ts.
- Login.HandleSubmit: a resolved reply without a `user` makes the source throw a `TypeError` whose message becomes the error text; the model always has a user, so this path is not modelled.
- Numbers.ParseInt: a `0x` prefix makes `parseInt` read hexadecimal; only decimal digits are modelled, which suffices for the year select's decimal values.
- ProgressiveLoading.SetProgress: progress is an integer, while the source accepts any number.
- Counts and views are non-negative integers, so the floating-point division and `Math.round` are modelled exactly by integer arithmetic; negative or fractional counts are not modelled.
- DashboardService.Settle: the cached loaders read data of another stat's shape as missing and show the empty default; the TypeScript types rule such replies out, and the uncached `getDashboardStats` passes them through as they came.
