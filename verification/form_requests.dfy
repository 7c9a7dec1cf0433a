/** The multipart bodies the movie and episode endpoints receive
    (src/services/function.ts:99-237) and the shape test of the user-info response
    (src/services/function.ts:328-345).

    A body is the ordered list of `formData.append(name, value)` calls. Names are the
    `Field` constructors (`WireName` gives the text on the wire); values are texts or
    opaque uploaded files. There is no field for a record's id: the update builders put
    it in the request path only. */
module FormRequests {
  import opened Wrappers
  import opened ApiTypes
  import opened Numbers

  datatype Field =
    | Name | Slug | OriginName | Content | Type | Status | Year
    | IsCopyright | SubDocquyen | Chieurap
    | TrailerUrl | Time | EpisodeCurrent | EpisodeTotal | Quality | Lang | Notify | Showtimes
    | TmdbId | TmdbType | TmdbVoteAverage | TmdbVoteCount | ImdbId
    | Poster | Thumb
    | CategoryItem | CountryItem | ActorItem
    | MovieId | ServerName | Video

  function WireName(f: Field): string {
    match f
    case Name => "name" case Slug => "slug" case OriginName => "originName"
    case Content => "content" case Type => "type" case Status => "status" case Year => "year"
    case IsCopyright => "isCopyright" case SubDocquyen => "subDocquyen" case Chieurap => "chieurap"
    case TrailerUrl => "trailerUrl" case Time => "time" case EpisodeCurrent => "episodeCurrent"
    case EpisodeTotal => "episodeTotal" case Quality => "quality" case Lang => "lang"
    case Notify => "notify" case Showtimes => "showtimes"
    case TmdbId => "tmdbId" case TmdbType => "tmdbType" case TmdbVoteAverage => "tmdbVoteAverage"
    case TmdbVoteCount => "tmdbVoteCount" case ImdbId => "imdbId"
    case Poster => "poster" case Thumb => "thumb"
    case CategoryItem => "categories[]" case CountryItem => "countries[]" case ActorItem => "actors[]"
    case MovieId => "movieId" case ServerName => "serverName" case Video => "video"
  }

  datatype FieldValue = Text(text: string) | Blob(file: FileToken)

  type FormData = seq<(Field, FieldValue)>

  /** The values appended under `f`, in order. */
  function Values(form: FormData, f: Field): (r: seq<FieldValue>)
    ensures |r| <= |form|
    decreases |form|
  {
    if |form| == 0 then []
    else (if form[0].0 == f then [form[0].1] else []) + Values(form[1..], f)
  }

  /** The field names of a body, in order. */
  function Names(form: FormData): (r: seq<Field>)
    ensures |r| == |form| && forall i :: 0 <= i < |form| ==> r[i] == form[i].0
  {
    seq(|form|, i requires 0 <= i < |form| => form[i].0)
  }

  lemma {:induction false} ValuesConcat(a: FormData, b: FormData, f: Field)
    ensures Values(a + b, f) == Values(a, f) + Values(b, f)
    decreases |a|
  {
    if |a| == 0 {
      assert a + b == b;
    } else {
      var ab := a + b;
      var head := if a[0].0 == f then [a[0].1] else [];
      assert ab[0] == a[0] && ab[1..] == a[1..] + b;
      ValuesConcat(a[1..], b, f);
      assert Values(ab, f) == head + (Values(a[1..], f) + Values(b, f));
      assert Values(a, f) == head + Values(a[1..], f);
      SeqAssoc(head, Values(a[1..], f), Values(b, f));
    }
  }

  lemma SeqAssoc<T>(x: seq<T>, y: seq<T>, z: seq<T>)
    ensures x + (y + z) == (x + y) + z
  {
  }

  /** `f` appended once per value of `vs`. */
  function Pairs(f: Field, vs: seq<FieldValue>): (r: FormData)
    ensures |r| == |vs| && forall i :: 0 <= i < |vs| ==> r[i] == (f, vs[i])
  {
    seq(|vs|, i requires 0 <= i < |vs| => (f, vs[i]))
  }

  lemma {:induction false} PairsValues(f: Field, vs: seq<FieldValue>, g: Field)
    ensures Values(Pairs(f, vs), g) == (if g == f then vs else [])
    decreases |vs|
  {
    if |vs| > 0 {
      assert Pairs(f, vs)[1..] == Pairs(f, vs[1..]);
      PairsValues(f, vs[1..], g);
    }
  }

  /** A builder that walks the fields of `order` and appends, for each, the values its
      rule `rule` gives: none for a skipped field, one for a scalar, one per element for
      a list. */
  function Emit(order: seq<Field>, rule: Field -> seq<FieldValue>): (r: FormData)
    decreases |order|
  {
    if |order| == 0 then [] else Pairs(order[0], rule(order[0])) + Emit(order[1..], rule)
  }

  predicate Distinct(order: seq<Field>) {
    forall i, j :: 0 <= i < j < |order| ==> order[i] != order[j]
  }

  /** Over an order without repetitions, the values appended under a field are exactly
      those its rule gives, and none for a field outside the order. */
  lemma {:induction false} EmitValues(order: seq<Field>, rule: Field -> seq<FieldValue>, f: Field)
    requires Distinct(order)
    ensures Values(Emit(order, rule), f) == (if f in order then rule(f) else [])
    decreases |order|
  {
    if |order| > 0 {
      ValuesConcat(Pairs(order[0], rule(order[0])), Emit(order[1..], rule), f);
      PairsValues(order[0], rule(order[0]), f);
      DistinctTail(order);
      EmitValues(order[1..], rule, f);
      InTail(order, f);
    }
  }

  /** The rest of an order without repetitions has none either, and lacks the head. */
  lemma DistinctTail(order: seq<Field>)
    requires |order| > 0 && Distinct(order)
    ensures Distinct(order[1..]) && order[0] !in order[1..]
  {
    var rest := order[1..];
    assert forall i :: 0 <= i < |rest| ==> rest[i] == order[i + 1];
  }

  lemma InTail(order: seq<Field>, f: Field)
    requires |order| > 0
    ensures f in order <==> f == order[0] || f in order[1..]
  {
    assert order == [order[0]] + order[1..];
  }

  /** When the first `k` fields of the order each have exactly one value, the body starts
      with those `k` pairs, in order. */
  lemma {:induction false} EmitSingletonPrefix(order: seq<Field>, rule: Field -> seq<FieldValue>, k: int)
    requires 0 <= k <= |order|
    requires forall i :: 0 <= i < k ==> |rule(order[i])| == 1
    ensures |Emit(order, rule)| >= k
    ensures k == |order| ==> |Emit(order, rule)| == k
    ensures forall i :: 0 <= i < k ==> Emit(order, rule)[i] == (order[i], rule(order[i])[0])
    decreases k
  {
    if k > 0 {
      var head := Pairs(order[0], rule(order[0]));
      EmitSingletonPrefix(order[1..], rule, k - 1);
      forall i | 0 <= i < k ensures Emit(order, rule)[i] == (order[i], rule(order[i])[0]) {
        if i > 0 {
          assert Emit(order, rule)[i] == Emit(order[1..], rule)[i - 1];
          assert order[1..][i - 1] == order[i];
        }
      }
    }
  }

  lemma {:induction false} EmitConcat(a: seq<Field>, b: seq<Field>, rule: Field -> seq<FieldValue>)
    ensures Emit(a + b, rule) == Emit(a, rule) + Emit(b, rule)
    decreases |a|
  {
    if |a| == 0 {
      assert a + b == b;
    } else {
      assert (a + b)[1..] == a[1..] + b;
      EmitConcat(a[1..], b, rule);
    }
  }

  // ---------------------------------------------------------------------------
  // The value rules, with JavaScript's truthiness tests

  /** `Boolean.prototype.toString()`. */
  function BoolText(b: bool): string { if b then "true" else "false" }

  /** A JavaScript string is truthy when it is not empty. */
  predicate Given(v: Option<string>) { v.Some? && v.value != "" }

  /** `if (v !== undefined)` for a boolean: false is sent too. */
  function IfDefined(v: Option<bool>): seq<FieldValue> {
    if v.Some? then [Text(BoolText(v.value))] else []
  }

  /** `if (v)` for a string. */
  function IfGiven(v: Option<string>): seq<FieldValue> {
    if Given(v) then [Text(v.value)] else []
  }

  /** `if (v) v.toString()` for a number given by its text. */
  function IfNumberGiven(v: Option<NumberText>): seq<FieldValue> {
    if v.Some? && NumberIsTruthy(v.value) then [Text(v.value)] else []
  }

  /** `if (v) v.toString()` for an integer: 0 is skipped. */
  function IfNonZero(v: Option<int>): seq<FieldValue> {
    if v.Some? && v.value != 0 then [Text(IntToString(v.value))] else []
  }

  /** `if (v)` for an uploaded file; a file object is always truthy. */
  function IfFile(v: Option<FileToken>): seq<FieldValue> {
    if v.Some? then [Blob(v.value)] else []
  }

  /** `xs?.forEach(x => append(f, x))`: one value per element, none when absent. */
  function IfList(xs: Option<seq<string>>): seq<FieldValue> {
    if xs.Some? then Texts(xs.value) else []
  }

  /** Each string of `xs` as a text value. */
  function Texts(xs: seq<string>): (r: seq<FieldValue>)
    ensures |r| == |xs| && forall i :: 0 <= i < |xs| ==> r[i] == Text(xs[i])
  {
    seq(|xs|, i requires 0 <= i < |xs| => Text(xs[i]))
  }

  // ---------------------------------------------------------------------------
  // Movies

  /** The order in which both movie builders append their fields, the order of `Rank`:
      the seven basic fields, then the options, the files and the lists. */
  const MovieOrder: seq<Field> := FieldsBelowRank(28)

  /** The fields of rank below `n`, in rank order. */
  function FieldsBelowRank(n: nat): (r: seq<Field>)
    requires n <= 31
    ensures |r| == n && forall i :: 0 <= i < n ==> r[i] == FieldOfRank(i)
  {
    seq(n, i requires 0 <= i < n => FieldOfRank(i))
  }

  /** The position of a field in the movie builders' order; the three episode-only
      fields come last. */
  function Rank(f: Field): nat {
    match f
    case Name => 0 case Slug => 1 case OriginName => 2 case Content => 3 case Type => 4
    case Status => 5 case Year => 6 case IsCopyright => 7 case SubDocquyen => 8 case Chieurap => 9
    case TrailerUrl => 10 case Time => 11 case EpisodeCurrent => 12 case EpisodeTotal => 13
    case Quality => 14 case Lang => 15 case Notify => 16 case Showtimes => 17 case TmdbId => 18
    case TmdbType => 19 case TmdbVoteAverage => 20 case TmdbVoteCount => 21 case ImdbId => 22
    case Poster => 23 case Thumb => 24 case CategoryItem => 25 case CountryItem => 26
    case ActorItem => 27 case MovieId => 28 case ServerName => 29 case Video => 30
  }

  /** The field of each rank: the inverse of `Rank`. */
  function FieldOfRank(i: nat): Field
    requires i < 31
  {
    match i
    case 0 => Name case 1 => Slug case 2 => OriginName case 3 => Content case 4 => Type
    case 5 => Status case 6 => Year case 7 => IsCopyright case 8 => SubDocquyen case 9 => Chieurap
    case 10 => TrailerUrl case 11 => Time case 12 => EpisodeCurrent case 13 => EpisodeTotal
    case 14 => Quality case 15 => Lang case 16 => Notify case 17 => Showtimes case 18 => TmdbId
    case 19 => TmdbType case 20 => TmdbVoteAverage case 21 => TmdbVoteCount case 22 => ImdbId
    case 23 => Poster case 24 => Thumb case 25 => CategoryItem case 26 => CountryItem
    case 27 => ActorItem case 28 => MovieId case 29 => ServerName case _ => Video
  }

  lemma RankOfFieldOfRank(i: nat)
    requires i < 31
    ensures Rank(FieldOfRank(i)) == i
  {
  }

  lemma FieldOfRankOfRank(f: Field)
    ensures Rank(f) < 31 && FieldOfRank(Rank(f)) == f
  {
  }

  /** The movie order lists no field twice. */
  lemma MovieOrderDistinct()
    ensures Distinct(MovieOrder)
  {
    forall i, j | 0 <= i < j < |MovieOrder| ensures MovieOrder[i] != MovieOrder[j] {
      RankOfFieldOfRank(i);
      RankOfFieldOfRank(j);
    }
  }

  /** The movie order lists every field but the three episode-only ones. */
  lemma InMovieOrder(f: Field)
    ensures f !in MovieOrder <==> f == MovieId || f == ServerName || f == Video
  {
    FieldOfRankOfRank(f);
    if Rank(f) < 28 {
      assert MovieOrder[Rank(f)] == f;
    }
    if f in MovieOrder {
      var i :| 0 <= i < |MovieOrder| && MovieOrder[i] == f;
      RankOfFieldOfRank(i);
    }
  }

  /** The scalar options both movie builders treat alike. */
  function SharedOption(f: Field, isCopyright: Option<bool>, subDocquyen: Option<bool>, chieurap: Option<bool>,
                        trailerUrl: Option<string>, time: Option<string>,
                        episodeCurrent: Option<string>, episodeTotal: Option<string>,
                        quality: Option<string>, lang: Option<string>,
                        notify: Option<string>, showtimes: Option<string>,
                        tmdbId: Option<string>, tmdbType: Option<string>,
                        tmdbVoteAverage: Option<NumberText>, tmdbVoteCount: Option<int>,
                        imdbId: Option<string>,
                        poster: Option<FileToken>, thumb: Option<FileToken>): seq<FieldValue>
  {
    match f
    case IsCopyright => IfDefined(isCopyright)
    case SubDocquyen => IfDefined(subDocquyen)
    case Chieurap => IfDefined(chieurap)
    case TrailerUrl => IfGiven(trailerUrl)
    case Time => IfGiven(time)
    case EpisodeCurrent => IfGiven(episodeCurrent)
    case EpisodeTotal => IfGiven(episodeTotal)
    case Quality => IfGiven(quality)
    case Lang => IfGiven(lang)
    case Notify => IfGiven(notify)
    case Showtimes => IfGiven(showtimes)
    case TmdbId => IfGiven(tmdbId)
    case TmdbType => IfGiven(tmdbType)
    case TmdbVoteAverage => IfNumberGiven(tmdbVoteAverage)
    case TmdbVoteCount => IfNonZero(tmdbVoteCount)
    case ImdbId => IfGiven(imdbId)
    case Poster => IfFile(poster)
    case Thumb => IfFile(thumb)
    case _ => []
  }

  /** What `addMovie` appends under each field: the six basic texts and the year's
      decimal text always, the flags whenever defined (false included), the other
      options only when truthy, the categories and countries one per element, the
      actors only when given. */
  function CreateRule(m: MovieCreateRequest, f: Field): seq<FieldValue> {
    match f
    case Name => [Text(m.name)]
    case Slug => [Text(m.slug)]
    case OriginName => [Text(m.originName)]
    case Content => [Text(m.content)]
    case Type => [Text(m.movieType)]
    case Status => [Text(m.status)]
    case Year => [Text(IntToString(m.year))]
    case CategoryItem => Texts(m.categories)
    case CountryItem => Texts(m.countries)
    case ActorItem => IfList(m.actors)
    case _ => SharedOption(f, m.isCopyright, m.subDocquyen, m.chieurap, m.trailerUrl, m.time,
                           m.episodeCurrent, m.episodeTotal, m.quality, m.lang, m.notify, m.showtimes,
                           m.tmdbId, m.tmdbType, m.tmdbVoteAverage, m.tmdbVoteCount, m.imdbId,
                           m.poster, m.thumb)
  }

  /** `addMovie`'s body. */
  function AddMovieForm(m: MovieCreateRequest): FormData {
    Emit(MovieOrder, f => CreateRule(m, f))
  }

  /** `addMovie`'s body starts with the seven basic fields, each with its one value. */
  lemma AddMovieFormBasics(m: MovieCreateRequest)
    ensures |AddMovieForm(m)| >= 7
    ensures AddMovieForm(m)[..7] == CreateBasics(m)
  {
    var rule := f => CreateRule(m, f);
    MovieOrderStart();
    CreateBasicRules(m);
    FirstSeven(MovieOrder, rule);
  }

  /** The rule of each basic field gives its one value. */
  lemma CreateBasicRules(m: MovieCreateRequest)
    ensures CreateRule(m, Name) == [Text(m.name)] && CreateRule(m, Slug) == [Text(m.slug)]
    ensures CreateRule(m, OriginName) == [Text(m.originName)] && CreateRule(m, Content) == [Text(m.content)]
    ensures CreateRule(m, Type) == [Text(m.movieType)] && CreateRule(m, Status) == [Text(m.status)]
    ensures CreateRule(m, Year) == [Text(IntToString(m.year))]
  {
  }

  /** When the first seven fields of the order each have one value, the body starts with
      those seven pairs. */
  lemma FirstSeven(order: seq<Field>, rule: Field -> seq<FieldValue>)
    requires |order| >= 7
    requires |rule(order[0])| == 1 && |rule(order[1])| == 1 && |rule(order[2])| == 1
    requires |rule(order[3])| == 1 && |rule(order[4])| == 1 && |rule(order[5])| == 1
    requires |rule(order[6])| == 1
    ensures |Emit(order, rule)| >= 7
    ensures Emit(order, rule)[..7] ==
              [(order[0], rule(order[0])[0]), (order[1], rule(order[1])[0]), (order[2], rule(order[2])[0]),
               (order[3], rule(order[3])[0]), (order[4], rule(order[4])[0]), (order[5], rule(order[5])[0]),
               (order[6], rule(order[6])[0])]
  {
    assert forall i :: 0 <= i < 7 ==> |rule(order[i])| == 1 by {
      forall i | 0 <= i < 7 ensures |rule(order[i])| == 1 {
        if i == 0 {} else if i == 1 {} else if i == 2 {} else if i == 3 {} else if i == 4 {} else if i == 5 {} else {}
      }
    }
    EmitSingletonPrefix(order, rule, 7);
  }

  /** The movie order starts with the seven basic fields. */
  lemma MovieOrderStart()
    ensures MovieOrder[0] == Name && MovieOrder[1] == Slug && MovieOrder[2] == OriginName
    ensures MovieOrder[3] == Content && MovieOrder[4] == Type && MovieOrder[5] == Status
    ensures MovieOrder[6] == Year
  {
  }

  /** The seven fields `addMovie` appends unconditionally, in this order, the year as its
      decimal text. */
  function CreateBasics(m: MovieCreateRequest): seq<(Field, FieldValue)> {
    [(Name, Text(m.name)), (Slug, Text(m.slug)), (OriginName, Text(m.originName)),
     (Content, Text(m.content)), (Type, Text(m.movieType)), (Status, Text(m.status)),
     (Year, Text(IntToString(m.year)))]
  }

  /** Every field of `addMovie`'s body carries exactly the values its rule gives. */
  lemma AddMovieFormValues(m: MovieCreateRequest, f: Field)
    ensures Values(AddMovieForm(m), f) == CreateRule(m, f)
  {
    MovieOrderDistinct();
    InMovieOrder(f);
    EmitValues(MovieOrder, g => CreateRule(m, g), f);
    if f !in MovieOrder {
      EpisodeFieldsNotCreated(m, f);
    }
  }

  /** `addMovie` appends nothing under the episode-only fields. */
  lemma EpisodeFieldsNotCreated(m: MovieCreateRequest, f: Field)
    requires f == MovieId || f == ServerName || f == Video
    ensures CreateRule(m, f) == []
  {
  }

  /** What `updateMovie` appends under each field: every scalar only when truthy (a
      year of 0 is skipped), the flags whenever defined, each list only when given. */
  function UpdateRule(m: MovieUpdateRequest, f: Field): seq<FieldValue> {
    match f
    case Name => IfGiven(m.name)
    case Slug => IfGiven(m.slug)
    case OriginName => IfGiven(m.originName)
    case Content => IfGiven(m.content)
    case Type => IfGiven(m.movieType)
    case Status => IfGiven(m.status)
    case Year => IfNonZero(m.year)
    case CategoryItem => IfList(m.categories)
    case CountryItem => IfList(m.countries)
    case ActorItem => IfList(m.actors)
    case _ => SharedOption(f, m.isCopyright, m.subDocquyen, m.chieurap, m.trailerUrl, m.time,
                           m.episodeCurrent, m.episodeTotal, m.quality, m.lang, m.notify, m.showtimes,
                           m.tmdbId, m.tmdbType, m.tmdbVoteAverage, m.tmdbVoteCount, m.imdbId,
                           m.poster, m.thumb)
  }

  /** `updateMovie`'s request: the id goes to the path, the body holds the given fields. */
  datatype PutRequest = PutRequest(id: string, form: FormData)

  function UpdateMovieRequest(m: MovieUpdateRequest): (r: PutRequest)
    ensures r.id == m.id
  {
    PutRequest(m.id, Emit(MovieOrder, f => UpdateRule(m, f)))
  }

  /** Every field of `updateMovie`'s body carries exactly the values its rule gives; in
      particular an absent or falsy field, a year of 0 included, appends nothing. */
  lemma UpdateMovieValues(m: MovieUpdateRequest, f: Field)
    ensures Values(UpdateMovieRequest(m).form, f) == UpdateRule(m, f)
  {
    MovieOrderDistinct();
    InMovieOrder(f);
    EmitValues(MovieOrder, g => UpdateRule(m, g), f);
    if f !in MovieOrder {
      EpisodeFieldsNotUpdated(m, f);
    }
  }

  /** `updateMovie` appends nothing under the episode-only fields. */
  lemma EpisodeFieldsNotUpdated(m: MovieUpdateRequest, f: Field)
    requires f == MovieId || f == ServerName || f == Video
    ensures UpdateRule(m, f) == []
  {
  }

  // ---------------------------------------------------------------------------
  // Episodes

  const EpisodeOrder: seq<Field> := [Name, Slug, MovieId, ServerName, Video]

  lemma EpisodeOrderFacts()
    ensures Distinct(EpisodeOrder)
  {
  }

  /** What `addEpisode` appends: name, slug and movie id always, the server name when
      non-empty, the video always. */
  function AddEpisodeRule(e: EpisodeCreateRequest, f: Field): seq<FieldValue> {
    match f
    case Name => [Text(e.name)]
    case Slug => [Text(e.slug)]
    case MovieId => [Text(e.movieId)]
    case ServerName => IfGiven(e.serverName)
    case Video => [Blob(e.video)]
    case _ => []
  }

  /** `addEpisode`'s body; it starts with the name, the slug and the movie id. */
  function AddEpisodeForm(e: EpisodeCreateRequest): (r: FormData)
    ensures |r| >= 3
    ensures r[0] == (Name, Text(e.name)) && r[1] == (Slug, Text(e.slug)) && r[2] == (MovieId, Text(e.movieId))
  {
    var rule := f => AddEpisodeRule(e, f);
    EmitSingletonPrefix(EpisodeOrder, rule, 3);
    Emit(EpisodeOrder, rule)
  }

  /** Every field of `addEpisode`'s body carries exactly the values its rule gives. */
  lemma AddEpisodeFormValues(e: EpisodeCreateRequest, f: Field)
    ensures Values(AddEpisodeForm(e), f) == AddEpisodeRule(e, f)
  {
    EpisodeOrderFacts();
    EmitValues(EpisodeOrder, g => AddEpisodeRule(e, g), f);
  }

  /** What `updateEpisode` appends: each field only when given. */
  function UpdateEpisodeRule(e: EpisodeUpdateRequest, f: Field): seq<FieldValue> {
    match f
    case Name => IfGiven(e.name)
    case Slug => IfGiven(e.slug)
    case MovieId => IfGiven(e.movieId)
    case ServerName => IfGiven(e.serverName)
    case Video => IfFile(e.video)
    case _ => []
  }

  /** `updateEpisode`'s request: the id goes to the path, the body holds the given fields. */
  function UpdateEpisodeRequest(e: EpisodeUpdateRequest): (r: PutRequest)
    ensures r.id == e.id
  {
    PutRequest(e.id, Emit(EpisodeOrder, f => UpdateEpisodeRule(e, f)))
  }

  /** Every field of `updateEpisode`'s body carries exactly the values its rule gives. */
  lemma UpdateEpisodeValues(e: EpisodeUpdateRequest, f: Field)
    ensures Values(UpdateEpisodeRequest(e).form, f) == UpdateEpisodeRule(e, f)
  {
    EpisodeOrderFacts();
    EmitValues(EpisodeOrder, g => UpdateEpisodeRule(e, g), f);
  }

  // ---------------------------------------------------------------------------
  // User info

  /** The body of the user-info response, as far as the shape test looks at it. */
  datatype Body = Falsy | Primitive | Object(keys: set<string>)

  datatype UserInfo = AsEnvelope | AsUser

  /** `getUserInfo`: an envelope exactly when the body is an object carrying both a
      `success` and a `data` key; anything else is taken to be the user itself. */
  function ClassifyUserInfo(body: Body): (r: UserInfo)
    ensures r == AsEnvelope <==> body.Object? && "success" in body.keys && "data" in body.keys
  {
    if body.Object? && "success" in body.keys && "data" in body.keys then AsEnvelope else AsUser
  }

  /** The keys of a serialised `ApiResponse` and of a serialised `User`. */
  const EnvelopeKeys: set<string> := {"success", "message", "data"}
  const UserKeys: set<string> := {"id", "email", "name", "isAdmin", "createdAt", "updatedAt"}

  /** An envelope is recognised as one, and a bare user is not mistaken for one. */
  lemma UserInfoShapes()
    ensures ClassifyUserInfo(Object(EnvelopeKeys)) == AsEnvelope
    ensures ClassifyUserInfo(Object(UserKeys)) == AsUser
  {
    assert "success" in EnvelopeKeys;
    assert "data" !in UserKeys;
  }
}
