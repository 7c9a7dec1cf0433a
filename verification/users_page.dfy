/** The users page of the legacy screens (src/pages/users/UsersPage.tsx): the search
    over name, e-mail and role, and the list after a delete. The confirmation prompt and
    the backend answer are inputs. */
module UsersPage {
  import opened Wrappers
  import opened Text
  import opened ApiTypes
  import opened Lists

  /** Whether the lower-cased name, e-mail or role contains the lower-cased term. The
      term is only lower-cased here, not trimmed. */
  predicate MatchesTerm(term: string, u: LegacyUser) {
    var t := ToLower(term);
    Contains(ToLower(u.name), t) || Contains(ToLower(u.email), t) || Contains(ToLower(u.role), t)
  }

  /** The search effect: every user when the trimmed term is empty, otherwise the users
      the untrimmed term matches, in order. */
  function SearchUsers(users: seq<LegacyUser>, term: string): (r: seq<LegacyUser>)
    ensures Subsequence(r, users)
    ensures IsBlank(term) ==> r == users
    ensures !IsBlank(term) ==> forall u :: u in r <==> u in users && MatchesTerm(term, u)
  {
    TrimEmptyIffBlank(term);
    FilterWhen(Trim(term) != "", users, u => MatchesTerm(term, u))
  }

  /** The spaces around a non-blank term are part of what has to occur: the user is
      shown when the untrimmed, lower-cased term occurs in the lower-cased name. */
  lemma TermIsNotTrimmed(users: seq<LegacyUser>, term: string, u: LegacyUser)
    requires !IsBlank(term) && u in users && Contains(ToLower(u.name), ToLower(term))
    ensures u in SearchUsers(users, term)
  {
  }

  function UserId(u: LegacyUser): string { u.id }

  /** `handleDelete`: a confirmed, successful delete removes every user with the id and
      keeps the others in order; otherwise the list is unchanged. */
  function HandleDelete(users: seq<LegacyUser>, id: string, confirmed: bool, delete: Outcome<()>): (r: seq<LegacyUser>)
    ensures confirmed && delete.Success? ==>
              (forall i :: 0 <= i < |r| ==> r[i].id != id)
              && (forall u: LegacyUser :: u.id != id ==> (u in r <==> u in users))
              && Subsequence(r, users)
    ensures !(confirmed && delete.Success?) ==> r == users
  {
    if confirmed && delete.Success? then
      var kept := Filter(users, KeyIsNot(UserId, id));
      FilterIsSubsequence(users, KeyIsNot(UserId, id));
      assert forall u: LegacyUser :: u.id != id ==> (u in kept <==> u in users) by {
        forall u: LegacyUser | u.id != id ensures u in kept <==> u in users {
          FilterMembers(users, KeyIsNot(UserId, id), u);
        }
      }
      kept
    else users
  }

  /** A deleted user no longer shows up under any search. */
  lemma DeletedUserIsNeverShown(users: seq<LegacyUser>, id: string, delete: Outcome<()>, term: string, u: LegacyUser)
    requires delete.Success? && u.id == id
    ensures u !in SearchUsers(HandleDelete(users, id, true, delete), term)
  {
    var after := HandleDelete(users, id, true, delete);
    SubsequenceMembers(SearchUsers(after, term), after, u);
  }
}
