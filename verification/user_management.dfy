/** The user-management hook (src/pages/user_management/hooks/useUserManagement.ts): the
    list shown for a search term and a role filter, the account counts, the filter
    reset, and the state changes after a load or an update. Reloads are
    returned as requests; toasts are left out. */
module UserManagement {
  import opened Wrappers
  import opened Text
  import opened ApiTypes
  import opened Lists

  /** The three filter inputs. The status filter is kept and reset but never applied. */
  datatype Filters = Filters(searchTerm: string, statusFilter: string, roleFilter: string)

  /** Whether the lower-cased name or e-mail contains the lower-cased, untrimmed term. */
  predicate MatchesTerm(term: string, u: User) {
    Contains(ToLower(u.name), ToLower(term)) || Contains(ToLower(u.email), ToLower(term))
  }

  /** Whether a role filter lets the account through: 'admin' and 'user' pick one side,
      any other value filters nothing. */
  predicate RoleAllows(role: string, u: User) {
    (role == "admin" ==> u.isAdmin) && (role == "user" ==> !u.isAdmin)
  }

  /** The filter effect: the search step when the trimmed term is non-empty, then the
      role step when the role is 'admin' or 'user'. What it shows is a subsequence of the
      loaded users, and an account is shown exactly when both steps let it through. */
  function FilterUsers(users: seq<User>, f: Filters): (r: seq<User>)
    ensures Subsequence(r, users)
    ensures forall u :: u in r <==> u in users && (IsBlank(f.searchTerm) || MatchesTerm(f.searchTerm, u))
                                                  && RoleAllows(f.roleFilter, u)
  {
    var afterSearch := FilterWhen(Trim(f.searchTerm) != "", users, u => MatchesTerm(f.searchTerm, u));
    var afterRole := FilterWhen(f.roleFilter == "admin" || f.roleFilter == "user", afterSearch, u => RoleAllows(f.roleFilter, u));
    TrimEmptyIffBlank(f.searchTerm);
    SubsequenceTransitive(afterRole, afterSearch, users);
    afterRole
  }

  /** With a blank term and no role filter, every loaded user is shown, in order. */
  lemma NoFilterShowsAll(users: seq<User>, f: Filters)
    requires IsBlank(f.searchTerm) && f.roleFilter != "admin" && f.roleFilter != "user"
    ensures FilterUsers(users, f) == users
  {
    TrimEmptyIffBlank(f.searchTerm);
  }

  /** The status filter never changes what is shown. */
  lemma StatusIsIgnored(users: seq<User>, f: Filters, status: string)
    ensures FilterUsers(users, f.(statusFilter := status)) == FilterUsers(users, f)
  {
  }

  /** `resetFilters`: an empty term and 'all' for status and role. */
  function ResetFilters(f: Filters): (r: Filters)
    ensures r.searchTerm == "" && r.statusFilter == "all" && r.roleFilter == "all"
  {
    Filters("", "all", "all")
  }

  /** After a reset the whole list is shown again. */
  lemma ResetShowsAll(users: seq<User>, f: Filters)
    ensures FilterUsers(users, ResetFilters(f)) == users
  {
    NoFilterShowsAll(users, ResetFilters(f));
  }

  /** The account counts of the page header; the count of recent accounts depends on the
      clock and is not part of this model. */
  datatype Stats = Stats(totalUsers: nat, adminUsers: nat, regularUsers: nat)

  function IsAdmin(u: User): bool { u.isAdmin }

  function IsRegular(u: User): bool { !u.isAdmin }

  /** The header counts: every loaded account, the positions holding an administrator,
      and the positions holding a regular account. */
  function StatsOf(users: seq<User>): (r: Stats)
    ensures r.totalUsers == |users|
    ensures r.adminUsers == |set i | 0 <= i < |users| && users[i].isAdmin|
    ensures r.regularUsers == |set i | 0 <= i < |users| && !users[i].isAdmin|
    ensures r.adminUsers + r.regularUsers == r.totalUsers
    ensures r.adminUsers == |users| ==> forall i :: 0 <= i < |users| ==> users[i].isAdmin
  {
    var admins := Filter(users, IsAdmin);
    FilterSplitCount(users, IsAdmin, IsRegular);
    FilterCountsPositions(users, IsAdmin);
    FilterCountsPositions(users, IsRegular);
    assert Positions(users, IsAdmin) == set i | 0 <= i < |users| && users[i].isAdmin;
    assert Positions(users, IsRegular) == set i | 0 <= i < |users| && !users[i].isAdmin;
    assert |admins| == |users| ==> forall i :: 0 <= i < |users| ==> users[i].isAdmin by {
      forall i | 0 <= i < |users| && |admins| == |users| ensures users[i].isAdmin {
        FilterMembers(users, IsRegular, users[i]);
      }
    }
    Stats(|users|, |admins|, |Filter(users, IsRegular)|)
  }

  /** The counts of two lists of accounts shown one after the other add up field by field. */
  lemma StatsAddUp(a: seq<User>, b: seq<User>)
    ensures StatsOf(a + b) == Stats(StatsOf(a).totalUsers + StatsOf(b).totalUsers,
                                    StatsOf(a).adminUsers + StatsOf(b).adminUsers,
                                    StatsOf(a).regularUsers + StatsOf(b).regularUsers)
  {
    FilterConcat(a, b, IsAdmin);
    FilterConcat(a, b, IsRegular);
  }

  /** Promoting one regular account to administrator moves exactly one account from the
      regular count to the administrator count. */
  lemma PromotionMovesOneAccount(users: seq<User>, k: int)
    requires 0 <= k < |users| && !users[k].isAdmin
    ensures var after := StatsOf(users[k := users[k].(isAdmin := true)]);
            after.adminUsers == StatsOf(users).adminUsers + 1
            && after.regularUsers + 1 == StatsOf(users).regularUsers
            && after.totalUsers == StatsOf(users).totalUsers
  {
    var promoted := users[k := users[k].(isAdmin := true)];
    assert users == users[..k] + [users[k]] + users[k+1..];
    assert promoted == users[..k] + [promoted[k]] + users[k+1..];
    StatsAddUp(users[..k] + [users[k]], users[k+1..]);
    StatsAddUp(users[..k], [users[k]]);
    StatsAddUp(users[..k] + [promoted[k]], users[k+1..]);
    StatsAddUp(users[..k], [promoted[k]]);
  }

  /** The hook's state as far as its handlers change it. */
  datatype Hook = Hook(users: seq<User>, filters: Filters, editing: Option<User>, editOpen: bool)

  /** `loadUsers`: a successful answer replaces the users (no data gives none); a failed
      one keeps them. */
  function LoadUsers(h: Hook, reply: Outcome<ApiResponse<Option<seq<User>>>>): (r: Hook)
    ensures reply.Success? && reply.value.success ==> r == h.(users := reply.value.data.GetOr([]))
    ensures !(reply.Success? && reply.value.success) ==> r == h
  {
    if reply.Success? && reply.value.success then h.(users := reply.value.data.GetOr([])) else h
  }

  /** `handleUpdateUser` once the update answered: without an edited user nothing is sent
      and nothing changes; a successful update asks for a reload, then closes the dialog
      and forgets the user; a failed one keeps the dialog as it was. The second component
      tells whether the update was sent, the third whether a reload was asked for. */
  function HandleUpdateUser(h: Hook, updated: bool): (r: (Hook, bool, bool))
    ensures r.1 <==> h.editing.Some?
    ensures r.2 <==> h.editing.Some? && updated
    ensures r.2 ==> r.0 == h.(editOpen := false, editing := None)
    ensures !r.2 ==> r.0 == h
  {
    if h.editing.None? then (h, false, false)
    else if updated then (h.(editOpen := false, editing := None), true, true)
    else (h, true, false)
  }

  /** `handleEditUser`: remember the user and open the dialog. */
  function HandleEditUser(h: Hook, u: User): (r: Hook)
    ensures r == h.(editing := Some(u), editOpen := true)
  {
    h.(editing := Some(u), editOpen := true)
  }

  /** Editing a user and saving successfully sends the update and leaves the dialog
      closed with no user remembered. */
  lemma EditThenSaveCloses(h: Hook, u: User)
    ensures var r := HandleUpdateUser(HandleEditUser(h, u), true);
            r.1 && r.2 && !r.0.editOpen && r.0.editing.None?
  {
  }
}
