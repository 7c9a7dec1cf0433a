/** The genres page of the legacy screens (src/pages/genres/GenresPage.tsx): the
    add/edit dialog with its automatic slug, and the list updates after a save or a
    delete. Backend answers and the confirmation prompt are inputs. */
module GenresPage {
  import opened Wrappers
  import opened ApiTypes
  import opened Slugs
  import opened Lists

  /** The dialog's `Partial<Genre>`: the id is present only when a genre is edited. */
  datatype GenreForm = GenreForm(id: Option<string>, name: string, slug: string, description: string)

  /** The form the dialog starts from and returns to when closed. */
  const EmptyForm := GenreForm(None, "", "", "")

  datatype Page = Page(genres: seq<Genre>, dialogOpen: bool, editing: bool, form: GenreForm)

  /** `handleDialogOpen`: with a genre, edit a copy of its four texts; without one, start
      a new genre from the empty form. */
  function HandleDialogOpen(p: Page, genre: Option<Genre>): (r: Page)
    ensures r.dialogOpen && r.genres == p.genres
    ensures r.editing <==> genre.Some?
    ensures genre.Some? ==>
              r.form == GenreForm(Some(genre.value.id), genre.value.name, genre.value.slug, genre.value.description)
    ensures genre.None? ==> r.form == EmptyForm
  {
    match genre
    case Some(g) => p.(dialogOpen := true, editing := true, form := GenreForm(Some(g.id), g.name, g.slug, g.description))
    case None => p.(dialogOpen := true, editing := false, form := EmptyForm)
  }

  /** `handleDialogClose`: the dialog closes and the form is emptied; the edit flag is
      left as it was until the next opening sets it. */
  function HandleDialogClose(p: Page): (r: Page)
    ensures !r.dialogOpen && r.form == EmptyForm
    ensures r.genres == p.genres && r.editing == p.editing
  {
    p.(dialogOpen := false, form := EmptyForm)
  }

  /** The dialog's inputs, named as their `name` attribute. */
  datatype TextField = NameField | SlugField | DescriptionField

  /** `handleInputChange`: store the value; a name typed for a new genre also replaces
      the slug by the one generated from it. */
  function HandleInputChange(p: Page, field: TextField, value: string): (r: Page)
    ensures field == NameField ==> r.form.name == value && r.form.id == p.form.id
                                   && r.form.description == p.form.description
    ensures field == NameField && !p.editing ==> r.form.slug == GenreSlug(value)
    ensures field == NameField && p.editing ==> r.form.slug == p.form.slug
    ensures field == SlugField ==> r.form == p.form.(slug := value)
    ensures field == DescriptionField ==> r.form == p.form.(description := value)
    ensures r.(form := p.form) == p
  {
    match field
    case NameField =>
      var named := p.form.(name := value);
      p.(form := if p.editing then named else named.(slug := GenreSlug(value)))
    case SlugField => p.(form := p.form.(slug := value))
    case DescriptionField => p.(form := p.form.(description := value))
  }

  /** The page after the name input received each of `values` in turn. */
  function TypeName(p: Page, values: seq<string>): (r: Page)
    decreases |values|
  {
    if |values| == 0 then p else TypeName(HandleInputChange(p, NameField, values[0]), values[1..])
  }

  /** Typing a name never changes anything but the form, and never the edit flag. */
  lemma {:induction false} TypeNameKeepsPage(p: Page, values: seq<string>)
    ensures TypeName(p, values).(form := p.form) == p
    decreases |values|
  {
    if |values| > 0 {
      TypeNameKeepsPage(HandleInputChange(p, NameField, values[0]), values[1..]);
    }
  }

  /** While editing, however the name is retyped, the slug stays the genre's own. */
  lemma {:induction false} EditingNeverRegeneratesSlug(p: Page, values: seq<string>)
    requires p.editing
    ensures TypeName(p, values).form.slug == p.form.slug
    decreases |values|
  {
    if |values| > 0 {
      var q := HandleInputChange(p, NameField, values[0]);
      EditingNeverRegeneratesSlug(q, values[1..]);
    }
  }

  /** For a new genre the slug is always the one generated from the last name typed, and
      so made of `[a-z0-9-]` only. */
  lemma {:induction false} NewGenreSlugFollowsName(p: Page, values: seq<string>)
    requires !p.editing && |values| > 0
    ensures TypeName(p, values).form.slug == GenreSlug(values[|values| - 1])
    ensures All(TypeName(p, values).form.slug, IsSlugChar)
    decreases |values|
  {
    var q := HandleInputChange(p, NameField, values[0]);
    if |values| > 1 {
      NewGenreSlugFollowsName(q, values[1..]);
      assert values[1..][|values[1..]| - 1] == values[|values| - 1];
    }
  }

  /** Whether a submit updates: only when editing a form whose id is a non-empty string. */
  predicate IsUpdate(p: Page) {
    p.editing && p.form.id.Some? && p.form.id.value != ""
  }

  /** A listed genre with the form's texts merged over it (`{ ...g, ...currentGenre }`). */
  function Merge(g: Genre, f: GenreForm): Genre {
    g.(name := f.name, slug := f.slug, description := f.description)
  }

  /** The genres after a successful update of the genre with id `id`. */
  function MergeInto(genres: seq<Genre>, id: string, f: GenreForm): (r: seq<Genre>)
    ensures |r| == |genres|
  {
    MapWhere(genres, (g: Genre) => g.id == id, (g: Genre) => Merge(g, f))
  }

  /** `handleSubmit`: an update merges the form into the genre with the edited id, a
      create appends the genre the backend returned; either closes the dialog. A failed
      call leaves the page as it was, dialog open. */
  function HandleSubmit(p: Page, update: Outcome<()>, create: Outcome<Genre>): (r: Page)
    ensures IsUpdate(p) && update.Success? ==>
              var id := p.form.id.value;
              |r.genres| == |p.genres|
              && (forall i :: 0 <= i < |p.genres| && p.genres[i].id != id ==> r.genres[i] == p.genres[i])
              && (forall i :: 0 <= i < |p.genres| && p.genres[i].id == id ==>
                    r.genres[i].id == id && r.genres[i].movieCount == p.genres[i].movieCount
                    && r.genres[i].name == p.form.name && r.genres[i].slug == p.form.slug
                    && r.genres[i].description == p.form.description)
    ensures !IsUpdate(p) && create.Success? ==> r.genres == p.genres + [create.value]
    ensures (if IsUpdate(p) then update.Success? else create.Success?) ==>
              !r.dialogOpen && r.form == EmptyForm && r.editing == p.editing
    ensures (if IsUpdate(p) then update.Failure? else create.Failure?) ==> r == p
  {
    if IsUpdate(p) then
      if update.Success? then HandleDialogClose(p.(genres := MergeInto(p.genres, p.form.id.value, p.form))) else p
    else
      if create.Success? then HandleDialogClose(p.(genres := p.genres + [create.value])) else p
  }

  /** An update whose id is not listed leaves the list as it was. */
  lemma UpdateOfUnlistedIdKeepsList(p: Page, update: Outcome<()>, create: Outcome<Genre>)
    requires IsUpdate(p) && update.Success?
    requires forall i :: 0 <= i < |p.genres| ==> p.genres[i].id != p.form.id.value
    ensures HandleSubmit(p, update, create).genres == p.genres
  {
    MapWhereNoMatch(p.genres, (g: Genre) => g.id == p.form.id.value, (g: Genre) => Merge(g, p.form));
  }

  /** Updating never changes which ids are listed, nor where. */
  lemma UpdateKeepsIds(p: Page, update: Outcome<()>, create: Outcome<Genre>)
    requires IsUpdate(p) && update.Success?
    ensures var after := HandleSubmit(p, update, create).genres;
            |after| == |p.genres| && forall i :: 0 <= i < |after| ==> after[i].id == p.genres[i].id
  {
  }

  function GenreId(g: Genre): string { g.id }

  /** `handleDelete`: after a confirmed, successful delete every genre with the id is
      gone and the others stay, in order; otherwise nothing changes. */
  function HandleDelete(p: Page, id: string, confirmed: bool, delete: Outcome<()>): (r: Page)
    ensures confirmed && delete.Success? ==>
              r == p.(genres := r.genres)
              && (forall i :: 0 <= i < |r.genres| ==> r.genres[i].id != id)
              && (forall g: Genre :: g.id != id ==> (g in r.genres <==> g in p.genres))
              && Subsequence(r.genres, p.genres)
    ensures !(confirmed && delete.Success?) ==> r == p
  {
    if confirmed && delete.Success? then
      var kept := Filter(p.genres, KeyIsNot(GenreId, id));
      FilterIsSubsequence(p.genres, KeyIsNot(GenreId, id));
      assert forall g: Genre :: g.id != id ==> (g in kept <==> g in p.genres) by {
        forall g: Genre | g.id != id ensures g in kept <==> g in p.genres {
          FilterMembers(p.genres, KeyIsNot(GenreId, id), g);
        }
      }
      p.(genres := kept)
    else p
  }

  /** Creating a genre under an id not listed yet and then deleting that id gives back
      the list the page had. */
  lemma CreateThenDeleteRestores(p: Page, update: Outcome<()>, g: Genre, delete: Outcome<()>)
    requires !IsUpdate(p) && delete.Success?
    requires forall i :: 0 <= i < |p.genres| ==> p.genres[i].id != g.id
    ensures HandleDelete(HandleSubmit(p, update, Success(g)), g.id, true, delete).genres == p.genres
  {
    FilterConcat(p.genres, [g], KeyIsNot(GenreId, g.id));
    FilterKeepsAll(p.genres, KeyIsNot(GenreId, g.id));
    assert Filter([g], KeyIsNot(GenreId, g.id)) == [];
  }
}
