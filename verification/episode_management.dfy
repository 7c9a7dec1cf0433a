/** The episode panel of the movie page
    (src/pages/movie_management/components/EpisodeManagement.tsx): the add/edit episode
    dialog with its slug that follows a non-empty name and its submit guard, the routing
    of a submitted form to the add or the update handler, and the delete guard. The
    confirmation prompt's answer is an input. */
module EpisodeManagement {
  import opened Wrappers
  import opened ApiTypes
  import opened Slugs

  /** The dialog's `Partial<EpisodeCreateRequest>`. */
  datatype EpisodeForm = EpisodeForm(
    name: string, slug: string, movieId: string, serverName: string, video: Option<FileToken>)

  /** The effect run when the dialog opens, the edited episode or the movie changes: on a
      closed dialog nothing; editing copies the episode's texts and clears the video,
      which has to be chosen again; adding starts from an empty episode of this movie on
      the 'Default' server. */
  function Prefill(f: EpisodeForm, open: bool, editing: Option<EpisodeResponse>, movieId: string): (r: EpisodeForm)
    ensures !open ==> r == f
    ensures open ==> r.video.None?
    ensures open && editing.Some? ==>
              r == EpisodeForm(editing.value.name, editing.value.slug, editing.value.movieId, editing.value.serverName, None)
    ensures open && editing.None? ==> r == EpisodeForm("", "", movieId, "Default", None)
  {
    if !open then f
    else if editing.Some? then
      EpisodeForm(editing.value.name, editing.value.slug, editing.value.movieId, editing.value.serverName, None)
    else EpisodeForm("", "", movieId, "Default", None)
  }

  /** The text inputs of the dialog. */
  datatype TextField = NameField | SlugField | ServerNameField

  /** `handleInputChange` on a text input: store the value; a non-empty name also
      replaces the slug by the one the movie rule generates from it. */
  function HandleInputChange(f: EpisodeForm, field: TextField, value: string): (r: EpisodeForm)
    ensures field == NameField && value != "" ==> r == f.(name := value, slug := MovieSlug(value))
    ensures field == NameField && value == "" ==> r == f.(name := "")
    ensures field == SlugField ==> r == f.(slug := value)
    ensures field == ServerNameField ==> r == f.(serverName := value)
  {
    match field
    case NameField => if value != "" then f.(name := value, slug := MovieSlug(value)) else f.(name := value)
    case SlugField => f.(slug := value)
    case ServerNameField => f.(serverName := value)
  }

  /** `handleInputChange('video', files?.[0] || undefined)`. */
  function HandleVideoChange(f: EpisodeForm, file: Option<FileToken>): (r: EpisodeForm)
    ensures r.video == file && r.(video := f.video) == f
  {
    f.(video := file)
  }

  /** The generated slug of a non-empty name is clean: pattern characters only, no
      hyphen at either end, none doubled. */
  lemma NameChangeGivesCleanSlug(f: EpisodeForm, value: string)
    requires value != ""
    ensures var slug := HandleInputChange(f, NameField, value).slug;
            (slug == "" || MatchesSlugPattern(slug)) && NoEdgeHyphen(slug) && NoDoubleHyphen(slug)
  {
  }

  /** The object handed to `onSave`: the form, plus an `id` key when editing. */
  datatype SubmitData = SubmitData(form: EpisodeForm, id: Option<string>)

  /** The own keys of the submitted object. The video key is present even when its value
      is `undefined`. */
  function Keys(data: SubmitData): (r: set<string>)
    ensures "id" in r <==> data.id.Some?
  {
    {"name", "slug", "movieId", "serverName", "video"} + (if data.id.Some? then {"id"} else {})
  }

  /** The submit guard: a name and a slug, and a video file unless editing. */
  predicate CanSubmit(f: EpisodeForm, editing: bool) {
    f.name != "" && f.slug != "" && (editing || f.video.Some?)
  }

  /** `handleSubmit`: the data handed to `onSave`, if the guard let it through, and
      whether the dialog asked to close (only after the save resolved). */
  function HandleSubmit(f: EpisodeForm, editingId: Option<string>, onSave: Outcome<()>): (r: (Option<SubmitData>, bool))
    ensures r.0.Some? <==> CanSubmit(f, editingId.Some?)
    ensures r.0.Some? ==> r.0.value == SubmitData(f, editingId)
    ensures r.1 <==> r.0.Some? && onSave.Success?
  {
    if !CanSubmit(f, editingId.Some?) then (None, false)
    else (Some(SubmitData(f, editingId)), onSave.Success?)
  }

  /** Which parent handler a submitted episode goes to. */
  datatype Route = ToAdd | ToUpdate

  /** `handleAddEpisode`'s dispatch: to the update handler when the data has an `id`
      key, to the add handler otherwise. */
  function Dispatch(data: SubmitData): (r: Route)
    ensures r == ToUpdate <==> "id" in Keys(data)
  {
    if "id" in Keys(data) then ToUpdate else ToAdd
  }

  /** `handleAddEpisode` after the handler settled: the edited episode is forgotten only
      when the handler resolved; a rejection propagates with it still set. */
  function EditingAfterSave(editing: Option<EpisodeResponse>, handler: Outcome<()>): (r: Option<EpisodeResponse>)
    ensures handler.Success? ==> r.None?
    ensures handler.Failure? ==> r == editing
  {
    if handler.Success? then None else editing
  }

  /** A submission from the dialog reaches the update handler exactly when an episode
      was being edited, and then carries that episode's id. */
  lemma SubmissionRoutesByEditing(f: EpisodeForm, editingId: Option<string>, onSave: Outcome<()>)
    requires CanSubmit(f, editingId.Some?)
    ensures var data := HandleSubmit(f, editingId, onSave).0.value;
            (Dispatch(data) == ToUpdate <==> editingId.Some?)
            && (editingId.Some? ==> data.id == editingId)
  {
  }

  /** A new episode without a video file is never submitted; an edited one may be. */
  lemma CreateNeedsVideo(f: EpisodeForm, onSave: Outcome<()>)
    requires f.video.None?
    ensures HandleSubmit(f, None, onSave).0.None?
    ensures f.name != "" && f.slug != "" ==> HandleSubmit(f, Some("x"), onSave).0.Some?
  {
  }

  /** Opening the dialog on an episode and submitting right away sends an update with
      that episode's id and no video. */
  lemma EditSubmitsWithoutVideo(f: EpisodeForm, e: EpisodeResponse, movieId: string, onSave: Outcome<()>)
    requires e.name != "" && e.slug != ""
    ensures var shown := Prefill(f, true, Some(e), movieId);
            var sent := HandleSubmit(shown, Some(e.id), onSave).0;
            sent.Some? && sent.value.id == Some(e.id) && sent.value.form.video.None?
  {
  }

  /** `handleDeleteEpisode`: the id whose deletion is requested, if any. An id that names
      no listed episode is ignored before the prompt; otherwise the prompt decides. */
  function HandleDeleteEpisode(episodes: seq<EpisodeResponse>, episodeId: string, confirmed: bool): (r: Option<string>)
    ensures r.Some? <==> confirmed && exists i :: 0 <= i < |episodes| && episodes[i].id == episodeId
    ensures r.Some? ==> r.value == episodeId
  {
    if (exists i :: 0 <= i < |episodes| && episodes[i].id == episodeId) && confirmed then Some(episodeId) else None
  }

  /** Deleting an id that is not in the episode list does nothing, whatever the prompt. */
  lemma DeleteMissingDoesNothing(episodes: seq<EpisodeResponse>, episodeId: string, confirmed: bool)
    requires forall i :: 0 <= i < |episodes| ==> episodes[i].id != episodeId
    ensures HandleDeleteEpisode(episodes, episodeId, confirmed).None?
  {
  }
}
