/** The category page (src/pages/genre_management/index.tsx): the search filter over the
    loaded categories, the load with its empty fallback, the dispatch of a saved dialog
    to the update or the create call, and the delete guard. Backend answers and the
    confirmation prompt are inputs; reloads are returned as requests. */
module GenreManagement {
  import opened Wrappers
  import opened Text
  import opened ApiTypes
  import opened Lists

  /** Whether the lower-cased name or slug contains the lower-cased term. The term is not
      trimmed. */
  predicate MatchesTerm(term: string, c: CategoryStats) {
    Contains(ToLower(c.name), ToLower(term)) || Contains(ToLower(c.slug), ToLower(term))
  }

  /** The search effect: the categories the term matches, in order. The page's 'Showing X
      of Y' therefore never shows X above Y. */
  function SearchFilter(categories: seq<CategoryStats>, term: string): (r: seq<CategoryStats>)
    ensures Subsequence(r, categories) && |r| <= |categories|
    ensures forall c :: c in r <==> c in categories && MatchesTerm(term, c)
  {
    var r := FilterWhen(true, categories, c => MatchesTerm(term, c));
    SubsequenceLength(r, categories);
    r
  }

  /** The empty term shows every category. */
  lemma EmptyTermShowsAll(categories: seq<CategoryStats>)
    ensures SearchFilter(categories, "") == categories
  {
    forall i | 0 <= i < |categories| ensures MatchesTerm("", categories[i]) {
      ContainsEmpty(ToLower(categories[i].name));
    }
    FilterKeepsAll(categories, c => MatchesTerm("", c));
  }

  /** A term of one space is not trimmed away: it hides every category whose name and slug
      have no space. */
  lemma SpaceTermFilters(categories: seq<CategoryStats>, c: CategoryStats)
    requires ' ' !in c.name && ' ' !in c.slug
    ensures c !in SearchFilter(categories, " ")
  {
    assert ToLower(" ") == " ";
    ContainsCharIn(c.name, ' ');
    ContainsCharIn(c.slug, ' ');
  }

  /** The lower-cased text contains a non-letter only where the text has it. */
  lemma ContainsCharIn(s: string, ch: char)
    requires !IsUpper(ch) && !IsLowerLetter(ch)
    ensures Contains(ToLower(s), [ch]) ==> ch in s
  {
    if Contains(ToLower(s), [ch]) {
      ContainsIffOccurs(ToLower(s), [ch]);
      var k :| SliceAt(ToLower(s), [ch], k);
      assert ToLower(s)[k] == ch;
      assert s[k] == ch;
    }
  }

  /** The page's two lists after a load, before the search effect runs again. */
  datatype Loaded = Loaded(categories: seq<CategoryStats>, filtered: seq<CategoryStats>)

  /** `loadCategories`: an answer with data (an empty list counts) sets both lists to
      it; no data, or a thrown error, empties both. */
  function LoadCategories(reply: Outcome<Option<seq<CategoryStats>>>): (r: Loaded)
    ensures reply.Success? && reply.value.Some? ==> r.categories == r.filtered == reply.value.value
    ensures !(reply.Success? && reply.value.Some?) ==> r.categories == [] && r.filtered == []
  {
    if reply.Success? && reply.value.Some? then Loaded(reply.value.value, reply.value.value)
    else Loaded([], [])
  }

  /** After a failed load nothing is shown, whatever the search term. */
  lemma FailedLoadShowsNothing(reply: Outcome<Option<seq<CategoryStats>>>, term: string)
    requires !(reply.Success? && reply.value.Some?)
    ensures SearchFilter(LoadCategories(reply).categories, term) == []
  {
  }

  /** The backend call a saved dialog makes. */
  datatype SaveCall = UpdateCall(id: string, name: string, slug: string) | CreateCall(name: string, slug: string)

  /** How `handleAddCategory` ended: the call made, whether a reload was issued, the
      edited category afterwards, and whether the error was rethrown to the dialog. */
  datatype SaveResult = SaveResult(call: SaveCall, reloaded: bool, editing: Option<CategoryStats>, rethrown: bool)

  /** `handleAddCategory`: the update call when a category is being edited, the create
      call otherwise. An answer with data reloads and forgets the edited category;
      anything else is rethrown so that the dialog stays open. */
  function HandleAddCategory(editing: Option<CategoryStats>, name: string, slug: string, reply: Outcome<Option<CategoryStats>>)
    : (r: SaveResult)
    ensures r.call.UpdateCall? <==> editing.Some?
    ensures editing.Some? ==> r.call == UpdateCall(editing.value.id, name, slug)
    ensures editing.None? ==> r.call == CreateCall(name, slug)
    ensures r.reloaded <==> reply.Success? && reply.value.Some?
    ensures r.rethrown <==> !r.reloaded
    ensures r.editing == if r.reloaded then None else editing
  {
    var call := if editing.Some? then UpdateCall(editing.value.id, name, slug) else CreateCall(name, slug);
    if reply.Success? && reply.value.Some? then SaveResult(call, true, None, false)
    else SaveResult(call, false, editing, true)
  }

  /** `handleDeleteCategory`'s guard: the id sent to the delete call, if any. An id that
      names no loaded category is ignored before any prompt; otherwise the prompt
      decides. */
  function HandleDeleteCategory(categories: seq<CategoryStats>, id: string, confirmed: bool): (r: Option<string>)
    ensures r.Some? <==> confirmed && exists i :: 0 <= i < |categories| && categories[i].id == id
    ensures r.Some? ==> r.value == id
  {
    if (exists i :: 0 <= i < |categories| && categories[i].id == id) && confirmed then Some(id) else None
  }

  /** Deleting an id that is not loaded does nothing, whatever the prompt would say. */
  lemma DeleteOfUnknownIdDoesNothing(categories: seq<CategoryStats>, id: string, confirmed: bool)
    requires forall i :: 0 <= i < |categories| ==> categories[i].id != id
    ensures HandleDeleteCategory(categories, id, confirmed).None?
  {
  }
}
