/** The add/edit movie dialog (src/pages/movie_management/components/AddMovieDialog.tsx):
    the form's text fields with the slug that follows a non-empty name, the category and
    country multi-selects, the actor list, the prefill effect and the submit guard.

    The dialog keeps each list twice: in the form data sent to `onSave` and in a
    `selected…` state that drives the badges. Every handler writes both. The option
    fields (time, quality, language, flags, files, …) are stored as typed and never read
    by the dialog's own logic, so they are not part of this model. */
module MovieDialog {
  import opened Wrappers
  import opened Text
  import opened ApiTypes
  import opened Slugs
  import opened Lists

  /** The form data the dialog reads: `Partial<MovieCreateRequest>` as far as its own
      logic goes. */
  datatype MovieForm = MovieForm(
    name: string, slug: string, originName: string, content: string,
    movieType: string, status: string, year: int,
    categories: seq<string>, countries: seq<string>, actors: seq<string>)

  datatype Dialog = Dialog(
    form: MovieForm,
    selectedCategories: seq<string>, selectedCountries: seq<string>,
    selectedActors: seq<string>, newActor: string)

  /** The form of a new movie: empty texts, a 'movie' that is 'completed', the current
      year and no categories, countries or actors. */
  function BlankForm(currentYear: int): MovieForm {
    MovieForm("", "", "", "", "movie", "completed", currentYear, [], [], [])
  }

  /** The slugs of a movie's category or country references, in order. */
  function RefSlugs(refs: seq<NamedRef>): (r: seq<string>)
    ensures |r| == |refs| && forall i :: 0 <= i < |refs| ==> r[i] == refs[i].slug
  {
    seq(|refs|, i requires 0 <= i < |refs| => refs[i].slug)
  }

  /** The effect run when the dialog opens or the edited movie changes. On a closed
      dialog it does nothing. Editing fills the form from the movie, with no actors, and
      selects its categories and countries, but leaves the selected actors and the actor
      input as they were; adding resets the form and the three selections. */
  function Prefill(d: Dialog, open: bool, editing: Option<MovieResponse>, currentYear: int): (r: Dialog)
    ensures !open ==> r == d
    ensures open && editing.None? ==>
              r.form == BlankForm(currentYear)
              && r.selectedCategories == [] && r.selectedCountries == [] && r.selectedActors == []
    ensures open && editing.Some? ==>
              var m := editing.value;
              r.form.name == m.name && r.form.slug == m.slug && r.form.originName == m.originName
              && r.form.content == m.content && r.form.year == m.year && r.form.actors == []
              && r.form.categories == r.selectedCategories == RefSlugs(m.categories)
              && r.form.countries == r.selectedCountries == RefSlugs(m.countries)
              && r.selectedActors == d.selectedActors
    ensures r.newActor == d.newActor
  {
    if !open then d
    else match editing
      case Some(m) =>
        var cats := RefSlugs(m.categories);
        var countries := RefSlugs(m.countries);
        d.(form := MovieForm(m.name, m.slug, m.originName, m.content, m.movieType, m.status, m.year, cats, countries, []),
           selectedCategories := cats, selectedCountries := countries)
      case None =>
        d.(form := BlankForm(currentYear), selectedCategories := [], selectedCountries := [], selectedActors := [])
  }

  /** The text inputs whose value `handleInputChange` stores as typed. */
  datatype TextField = NameField | SlugField | OriginNameField | ContentField | TypeField | StatusField

  function SetText(f: MovieForm, field: TextField, value: string): MovieForm {
    match field
    case NameField => f.(name := value)
    case SlugField => f.(slug := value)
    case OriginNameField => f.(originName := value)
    case ContentField => f.(content := value)
    case TypeField => f.(movieType := value)
    case StatusField => f.(status := value)
  }

  /** `handleInputChange` on a text field: store the value; a non-empty name also
      replaces the slug by the one generated from it. */
  function HandleInputChange(d: Dialog, field: TextField, value: string): (r: Dialog)
    ensures field == NameField && value != "" ==> r.form.name == value && r.form.slug == MovieSlug(value)
    ensures field == NameField && value == "" ==> r.form == d.form.(name := "")
    ensures field != NameField ==> r.form == SetText(d.form, field, value)
    ensures r.(form := d.form) == d
  {
    var stored := SetText(d.form, field, value);
    if field == NameField && value != "" then d.(form := stored.(slug := MovieSlug(value)))
    else d.(form := stored)
  }

  /** Typing a non-empty name leaves a slug that matches the slug pattern or is empty,
      with no hyphen at either end and none doubled. */
  lemma NameChangeGivesCleanSlug(d: Dialog, value: string)
    requires value != ""
    ensures var slug := HandleInputChange(d, NameField, value).form.slug;
            (slug == "" || MatchesSlugPattern(slug)) && NoEdgeHyphen(slug) && NoDoubleHyphen(slug)
  {
  }

  /** `handleCategorySelect`: toggle the slug in the selection and the form alike. */
  function HandleCategorySelect(d: Dialog, slug: string): (r: Dialog)
    ensures r.selectedCategories == r.form.categories == Toggle(d.selectedCategories, slug)
    ensures r == d.(selectedCategories := r.selectedCategories, form := d.form.(categories := r.selectedCategories))
  {
    var next := Toggle(d.selectedCategories, slug);
    d.(selectedCategories := next, form := d.form.(categories := next))
  }

  /** `handleCountrySelect`: the same toggle on the countries. */
  function HandleCountrySelect(d: Dialog, slug: string): (r: Dialog)
    ensures r.selectedCountries == r.form.countries == Toggle(d.selectedCountries, slug)
    ensures r == d.(selectedCountries := r.selectedCountries, form := d.form.(countries := r.selectedCountries))
  {
    var next := Toggle(d.selectedCountries, slug);
    d.(selectedCountries := next, form := d.form.(countries := next))
  }

  /** Selecting a category that is not selected and then selecting it again restores the
      selection; a selection never holds a slug twice. */
  lemma CategorySelectTwiceRestores(d: Dialog, slug: string)
    requires slug !in d.selectedCategories
    ensures HandleCategorySelect(HandleCategorySelect(d, slug), slug).selectedCategories == d.selectedCategories
  {
    ToggleTwiceRestores(d.selectedCategories, slug);
  }

  lemma CategorySelectKeepsDistinct(d: Dialog, slug: string)
    requires Distinct(d.selectedCategories)
    ensures Distinct(HandleCategorySelect(d, slug).selectedCategories)
  {
    ToggleKeepsDistinct(d.selectedCategories, slug);
  }

  lemma CountrySelectTwiceRestores(d: Dialog, slug: string)
    requires slug !in d.selectedCountries
    ensures HandleCountrySelect(HandleCountrySelect(d, slug), slug).selectedCountries == d.selectedCountries
  {
    ToggleTwiceRestores(d.selectedCountries, slug);
  }

  lemma CountrySelectKeepsDistinct(d: Dialog, slug: string)
    requires Distinct(d.selectedCountries)
    ensures Distinct(HandleCountrySelect(d, slug).selectedCountries)
  {
    ToggleKeepsDistinct(d.selectedCountries, slug);
  }

  /** `handleAddActor`: the trimmed input is appended, and the input cleared, only when
      it is non-empty and not listed yet; otherwise nothing changes. */
  function HandleAddActor(d: Dialog): (r: Dialog)
    ensures var t := Trim(d.newActor);
            t != "" && t !in d.selectedActors ==>
              r.selectedActors == r.form.actors == d.selectedActors + [t] && r.newActor == ""
              && r.form == d.form.(actors := r.selectedActors)
              && r.selectedCategories == d.selectedCategories && r.selectedCountries == d.selectedCountries
    ensures var t := Trim(d.newActor);
            t == "" || t in d.selectedActors ==> r == d
  {
    var t := Trim(d.newActor);
    if t != "" && t !in d.selectedActors then
      var next := d.selectedActors + [t];
      d.(selectedActors := next, form := d.form.(actors := next), newActor := "")
    else d
  }

  /** Adding actors never lists one twice, and never lists a blank name. */
  lemma AddActorKeepsListClean(d: Dialog)
    requires Distinct(d.selectedActors)
    requires forall i :: 0 <= i < |d.selectedActors| ==> d.selectedActors[i] != ""
    ensures Distinct(HandleAddActor(d).selectedActors)
    ensures forall i :: 0 <= i < |HandleAddActor(d).selectedActors| ==> HandleAddActor(d).selectedActors[i] != ""
  {
    var t := Trim(d.newActor);
    if t != "" && t !in d.selectedActors {
      AppendDistinct(d.selectedActors, t);
    }
  }

  /** `handleRemoveActor`: every occurrence of the actor goes, the others stay in order. */
  function HandleRemoveActor(d: Dialog, actor: string): (r: Dialog)
    ensures r.selectedActors == r.form.actors == RemoveAll(d.selectedActors, actor)
    ensures r == d.(selectedActors := r.selectedActors, form := d.form.(actors := r.selectedActors))
  {
    var next := RemoveAll(d.selectedActors, actor);
    d.(selectedActors := next, form := d.form.(actors := next))
  }

  /** Removing an actor removes exactly that one: it is gone, every other listed actor
      stays, in the same order. */
  lemma RemoveActorRemovesExactlyIt(d: Dialog, actor: string)
    ensures var after := HandleRemoveActor(d, actor).selectedActors;
            actor !in after
            && (forall a :: a != actor ==> (a in after <==> a in d.selectedActors))
            && Subsequence(after, d.selectedActors)
  {
    RemoveAllIsSubsequence(d.selectedActors, actor);
  }

  /** Adding a new actor and removing it again gives back the list. */
  lemma AddThenRemoveActor(d: Dialog)
    requires Trim(d.newActor) != "" && Trim(d.newActor) !in d.selectedActors
    ensures HandleRemoveActor(HandleAddActor(d), Trim(d.newActor)).selectedActors == d.selectedActors
  {
    ToggleTwiceRestores(d.selectedActors, Trim(d.newActor));
  }

  /** What `handleSubmit` hands to `onSave`: the form, with the edited movie's id when
      editing. */
  datatype SubmitData = CreateData(form: MovieForm) | UpdateData(form: MovieForm, id: string)

  /** `onSave` was called with `saved`, and the dialog asked to close. */
  datatype Submitted = Submitted(saved: Option<SubmitData>, closeRequested: bool)

  /** The submit guard: name, slug, original name and content all non-empty. */
  predicate CanSubmit(f: MovieForm) {
    f.name != "" && f.slug != "" && f.originName != "" && f.content != ""
  }

  /** `handleSubmit`: nothing happens unless the four required texts are filled in;
      then `onSave` is called, with the edited movie's id when editing, and the dialog
      asks to close only when the save resolved. A rejected save is swallowed. */
  function HandleSubmit(d: Dialog, editingId: Option<string>, onSave: Outcome<()>): (r: Submitted)
    ensures r.saved.Some? <==> CanSubmit(d.form)
    ensures r.saved.Some? ==> r.saved.value.form == d.form
    ensures r.saved.Some? ==> (r.saved.value.UpdateData? <==> editingId.Some?)
    ensures r.saved.Some? && editingId.Some? ==> r.saved.value.id == editingId.value
    ensures r.closeRequested <==> CanSubmit(d.form) && onSave.Success?
  {
    if !CanSubmit(d.form) then Submitted(None, false)
    else
      var data := if editingId.Some? then UpdateData(d.form, editingId.value) else CreateData(d.form);
      Submitted(Some(data), onSave.Success?)
  }

  /** A freshly opened add dialog cannot be submitted: its texts are empty. */
  lemma BlankFormIsNotSubmittable(d: Dialog, currentYear: int, onSave: Outcome<()>)
    ensures HandleSubmit(Prefill(d, true, None, currentYear), None, onSave).saved.None?
  {
  }
}
