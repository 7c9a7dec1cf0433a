/** The add/edit category dialog (src/pages/genre_management/components/AddCategoryDialog.tsx):
    the form's name and slug, the slug that follows the name until it is edited by hand,
    the validation of both fields and the submit step. The dialog's open flag is the
    one it asks its parent for through `onOpenChange`; the parent's `onSave` is given as
    its settled outcome. */
module CategoryDialog {
  import opened Wrappers
  import opened Text
  import opened ApiTypes
  import opened Slugs

  datatype Form = Form(name: string, slug: string)

  const EmptyForm := Form("", "")

  /** The messages shown under the two inputs; `None` is no error. */
  datatype Errors = Errors(name: Option<string>, slug: Option<string>)

  const NoErrors := Errors(None, None)

  datatype Dialog = Dialog(open: bool, form: Form, errors: Errors)

  const NameRequired := "Category name is required"
  const SlugRequired := "Slug is required"
  const SlugInvalid := "Slug can only contain lowercase letters, numbers, and hyphens"

  /** The effect run when the edited category or the open flag changes: the form shows the
      edited category, or is empty when adding, and every error is cleared. */
  function Prefill(open: bool, editing: Option<CategoryStats>): (r: Dialog)
    ensures r.open == open && r.errors == NoErrors
    ensures editing.None? ==> r.form == EmptyForm
    ensures editing.Some? ==> r.form.name == editing.value.name && r.form.slug == editing.value.slug
  {
    Dialog(open, if editing.Some? then Form(editing.value.name, editing.value.slug) else EmptyForm, NoErrors)
  }

  /** The slug still follows the name: it is empty or what the name generates. */
  predicate SlugFollowsName(f: Form) {
    f.slug == CategorySlug(f.name) || f.slug == ""
  }

  /** `handleNameChange`: store the name; regenerate the slug from it when the slug still
      followed the previous name, and otherwise leave the hand-made slug alone. Clears the
      name error. */
  function HandleNameChange(d: Dialog, value: string): (r: Dialog)
    ensures r.form.name == value && r.open == d.open
    ensures SlugFollowsName(d.form) ==> r.form.slug == CategorySlug(value)
    ensures !SlugFollowsName(d.form) ==> r.form.slug == d.form.slug
    ensures r.errors == d.errors.(name := None)
  {
    var slug := if d.form.slug == CategorySlug(d.form.name) || d.form.slug == "" then CategorySlug(value) else d.form.slug;
    d.(form := Form(value, slug), errors := d.errors.(name := None))
  }

  /** `handleSlugChange`: whatever is typed is stored in generated form. Clears the slug
      error. */
  function HandleSlugChange(d: Dialog, value: string): (r: Dialog)
    ensures r.form.name == d.form.name && r.open == d.open
    ensures r.form.slug == CategorySlug(value)
    ensures r.errors == d.errors.(slug := None)
  {
    d.(form := d.form.(slug := CategorySlug(value)), errors := d.errors.(slug := None))
  }

  /** `validateForm`'s errors: the name must not be blank; the slug must not be blank
      and, as typed, must match `^[a-z0-9-]+$`. */
  function Validate(f: Form): (r: Errors)
    ensures r.name.Some? <==> Trim(f.name) == ""
    ensures r.slug.Some? <==> Trim(f.slug) == "" || !MatchesSlugPattern(f.slug)
    ensures r.name.Some? ==> r.name.value == NameRequired
    ensures r.slug.Some? ==> r.slug.value == (if Trim(f.slug) == "" then SlugRequired else SlugInvalid)
  {
    Errors(
      if Trim(f.name) == "" then Some(NameRequired) else None,
      if Trim(f.slug) == "" then Some(SlugRequired)
      else if !MatchesSlugPattern(f.slug) then Some(SlugInvalid)
      else None)
  }

  /** `validateForm`'s answer: no error recorded. */
  predicate IsValid(f: Form) {
    Validate(f) == NoErrors
  }

  /** What a submit leaves: the dialog, and the form handed to `onSave` if it was called. */
  datatype Submitted = Submitted(dialog: Dialog, saved: Option<Form>)

  /** `handleSubmit`: an invalid form shows its errors and `onSave` is not called; a
      valid one is saved, and the dialog closes and empties only when the save resolves.
      A rejected save leaves the dialog open with its data. */
  function HandleSubmit(d: Dialog, onSave: Outcome<()>): (r: Submitted)
    ensures r.saved.Some? <==> IsValid(d.form)
    ensures r.saved.Some? ==> r.saved.value == d.form
    ensures r.dialog.errors == Validate(d.form) || r.dialog.errors == NoErrors
    ensures !IsValid(d.form) ==> r.dialog == d.(errors := Validate(d.form))
    ensures IsValid(d.form) && onSave.Success? ==> r.dialog == Dialog(false, EmptyForm, NoErrors)
    ensures IsValid(d.form) && onSave.Failure? ==> r.dialog == d.(errors := NoErrors)
  {
    var errors := Validate(d.form);
    if errors != NoErrors then Submitted(d.(errors := errors), None)
    else if onSave.Success? then Submitted(Dialog(false, EmptyForm, NoErrors), Some(d.form))
    else Submitted(d.(errors := NoErrors), Some(d.form))
  }

  /** `handleClose`: ask to close, empty the form and clear the errors. */
  function HandleClose(d: Dialog): (r: Dialog)
    ensures !r.open && r.form == EmptyForm && r.errors == NoErrors
  {
    Dialog(false, EmptyForm, NoErrors)
  }

  /** A slug that follows the name keeps following it through any name change. */
  lemma NameChangeKeepsSlugFollowing(d: Dialog, value: string)
    requires SlugFollowsName(d.form)
    ensures SlugFollowsName(HandleNameChange(d, value).form)
  {
  }

  /** Once the slug is edited into something the name does not generate, later name
      changes never touch it. */
  lemma HandMadeSlugSurvivesNameChanges(d: Dialog, names: seq<string>)
    requires d.form.slug != "" && d.form.slug != CategorySlug(d.form.name)
    requires forall i :: 0 <= i < |names| ==> d.form.slug != CategorySlug(names[i])
    ensures NameChanges(d, names).form.slug == d.form.slug
    decreases |names|
  {
    if |names| > 0 {
      HandMadeSlugSurvivesNameChanges(HandleNameChange(d, names[0]), names[1..]);
    }
  }

  /** The dialog after the name is typed as each of `names` in turn. */
  function NameChanges(d: Dialog, names: seq<string>): (r: Dialog)
    ensures r.open == d.open
    ensures |names| == 0 ==> r == d
    decreases |names|
  {
    if |names| == 0 then d else NameChanges(HandleNameChange(d, names[0]), names[1..])
  }

  /** Every stored slug is a fixed point of the generator, since it was generated. */
  lemma StoredSlugIsGenerated(d: Dialog, value: string)
    ensures CategorySlug(HandleSlugChange(d, value).form.slug) == HandleSlugChange(d, value).form.slug
  {
    CategorySlugIdempotent(value);
  }

  /** A generated slug is rejected by the dialog's own validation exactly when it is
      empty or holds an underscore, which the generator keeps as a word character. */
  lemma GeneratedSlugRejectedIffEmptyOrUnderscore(name: string)
    ensures Validate(Form(name, CategorySlug(name))).slug.Some? <==>
              CategorySlug(name) == "" || '_' in CategorySlug(name)
  {
    SlugCheckOnCategoryText(name, CategorySlug(name));
  }

  /** The slug check on text of the generator's class `[a-z0-9_-]` that does not start or
      end with white space: it fails exactly on the empty text and on an underscore. */
  lemma SlugCheckOnCategoryText(name: string, y: string)
    requires All(y, IsCategorySlugChar)
    ensures Validate(Form(name, y)).slug.Some? <==> y == "" || '_' in y
  {
    CategoryTextIsTrimmed(y);
    CategoryTextMatchesPattern(y);
    SlugCheckOnTrimmed(name, y);
  }

  lemma SlugCheckOnTrimmed(name: string, y: string)
    requires Trim(y) == y
    requires MatchesSlugPattern(y) <==> y != "" && '_' !in y
    ensures Validate(Form(name, y)).slug.Some? <==> y == "" || '_' in y
  {
  }

  /** Such names exist: an underscore is generated as itself and then refused. */
  lemma UnderscoreNameIsRefused()
    ensures CategorySlug("_") == "_"
    ensures Validate(Form("_", CategorySlug("_"))).slug == Some(SlugInvalid)
  {
    assert ToLower("_") == "_";
    assert Trim("_") == "_" by { TrimIdentity("_"); }
    assert Keep("_", IsCategoryKept) == "_";
    assert ReplaceRuns("_", Spaces) == "_";
    assert ReplaceRuns("_", Hyphens) == "_";
    assert !IsSlugChar("_"[0]);
  }
}
