/** The state of the user list page and its fetch lifecycle
    (src/pages/UsersPage.tsx lines 30-78). React's settled state after each
    handler and the effects it triggers is one value of `State`; every
    handler is a function from state to state. */
module PageState {
  import opened Options
  import opened Replies
  import opened Users

  const FetchFailed: string := "Failed to fetch users"
  const UpdateFailed: string := "Failed to update user"
  const DeleteFailed: string := "Failed to delete user"

  /** What `userService.getUsers(page)` resolves with. */
  datatype UsersPage = UsersPage(data: seq<User>, totalPages: int)

  /** The edit dialog's three text fields. */
  datatype EditForm = EditForm(firstName: string, lastName: string, email: string)

  /** A request issued to the remote user service. */
  datatype Call = GetUsers(page: int) | UpdateUser(id: int, form: EditForm) | DeleteUser(id: int)

  /** The list half of the page: the loaded page, its search view and the
      fetch status. */
  datatype Listing = Listing(
    users: seq<User>,
    filtered: seq<User>,
    page: int,
    totalPages: int,
    loading: bool,
    error: string,
    query: string)

  /** The dialog half of the page: who was last clicked, the edit form and
      the two open flags. */
  datatype DialogState = DialogState(
    selected: Option<User>,
    form: EditForm,
    editOpen: bool,
    deleteOpen: bool)

  datatype State = State(list: Listing, dialogs: DialogState)

  /** The state after a handler together with the service requests it
      issued, in order. */
  datatype Transition = Transition(next: State, calls: seq<Call>)

  /** The search effect has caught up: the shown users are exactly the
      loaded users that match the query. */
  predicate Settled(s: State) {
    s.list.filtered == Filter(s.list.users, s.list.query)
  }

  /** No dialog is open. */
  predicate Quiet(d: DialogState) {
    !d.editOpen && !d.deleteOpen
  }

  /** The initial `useState` values (lines 30-44). */
  function Init(): (s: State)
    ensures Settled(s)
    ensures Quiet(s.dialogs) && s.dialogs.selected == None
    ensures s.list.users == [] && !s.list.loading && s.list.error == "" && s.list.query == ""
    ensures s.list.page == 1 && s.list.totalPages == 1
  {
    State(Listing([], [], 1, 1, false, "", ""),
          DialogState(None, EditForm("", "", ""), false, false))
  }

  /** The synchronous start of `fetchUsers` (lines 51-53): raise the
      loading flag, clear the error and ask for the current page. */
  function StartFetch(s: State): (r: Transition)
    ensures r.calls == [GetUsers(s.list.page)]
    ensures r.next.list.loading && r.next.list.error == ""
    ensures r.next.list.(loading := s.list.loading, error := s.list.error) == s.list
    ensures r.next.dialogs == s.dialogs
  {
    Transition(s.(list := s.list.(loading := true, error := "")), [GetUsers(s.list.page)])
  }

  /** The continuation of `fetchUsers` once the request settles (lines
      54-60): a resolved page replaces users, shown users and page count
      wholesale; a rejection only sets the fixed error. Either way the
      loading flag drops. */
  function ResolveFetch(s: State, reply: Reply<UsersPage>): (r: State)
    ensures !r.list.loading
    ensures r.dialogs == s.dialogs
    ensures reply.Ok? ==> r.list.users == reply.value.data && r.list.filtered == reply.value.data
    ensures reply.Ok? ==> r.list.totalPages == reply.value.totalPages && r.list.error == s.list.error
    ensures reply.Err? ==> r.list.error == FetchFailed
    ensures reply.Err? ==> r.list.(loading := s.list.loading, error := s.list.error) == s.list
    ensures r.list.page == s.list.page && r.list.query == s.list.query
  {
    match reply
    case Ok(p) =>
      s.(list := s.list.(users := p.data, filtered := p.data, totalPages := p.totalPages, loading := false))
    case Err =>
      s.(list := s.list.(error := FetchFailed, loading := false))
  }

  /** The search effect (lines 68-78): recompute the shown users from the
      loaded users and the query, touching nothing else. */
  function RunFilterEffect(s: State): (r: State)
    ensures Settled(r)
    ensures r.list.(filtered := s.list.filtered) == s.list && r.dialogs == s.dialogs
  {
    s.(list := s.list.(filtered := Filter(s.list.users, s.list.query)))
  }

  /** A settling request followed by the effects React runs for it: a
      resolved page is a new `users` array, so the search effect runs;
      a rejection changes no dependency of it. */
  function CompleteFetch(s: State, reply: Reply<UsersPage>): (r: State)
    ensures Settled(s) ==> Settled(r)
    ensures !r.list.loading
    ensures reply.Ok? ==> r.list.users == reply.value.data && r.list.totalPages == reply.value.totalPages
    ensures reply.Ok? ==> r.list.filtered == Filter(reply.value.data, s.list.query)
    ensures reply.Ok? ==> r.list.error == s.list.error
    ensures reply.Err? ==> r.list.error == FetchFailed
    ensures reply.Err? ==> r.list.users == s.list.users && r.list.filtered == s.list.filtered
    ensures reply.Err? ==> r.list.totalPages == s.list.totalPages
    ensures r.list.page == s.list.page && r.list.query == s.list.query && r.dialogs == s.dialogs
  {
    var resolved := ResolveFetch(s, reply);
    if reply.Ok? then RunFilterEffect(resolved) else resolved
  }

  /** One whole `fetchUsers` round trip for the current page. */
  function FetchUsers(s: State, reply: Reply<UsersPage>): (r: Transition)
    ensures r.calls == [GetUsers(s.list.page)]
    ensures !r.next.list.loading
    ensures reply.Ok? ==> r.next.list.users == reply.value.data && r.next.list.totalPages == reply.value.totalPages
    ensures reply.Ok? ==> r.next.list.error == ""
    ensures reply.Ok? ==> r.next.list.filtered == Filter(reply.value.data, s.list.query)
    ensures reply.Err? ==> r.next.list.error == FetchFailed
    ensures reply.Err? ==> r.next.list.users == s.list.users && r.next.list.filtered == s.list.filtered
    ensures reply.Err? ==> r.next.list.totalPages == s.list.totalPages
    ensures r.next.list.page == s.list.page && r.next.list.query == s.list.query
    ensures r.next.dialogs == s.dialogs
    ensures Settled(s) ==> Settled(r.next)
  {
    var started := StartFetch(s);
    Transition(CompleteFetch(started.next, reply), started.calls)
  }

  /** Mounting the page: the `[page]` effect (lines 64-66) runs once on
      the initial state and asks for page 1. */
  function Mount(): (r: Transition)
    ensures r.calls == [GetUsers(1)]
    ensures Settled(r.next) && Quiet(r.next.dialogs)
    ensures r.next.list.loading && r.next.list.users == []
  {
    StartFetch(Init())
  }

  /** The pagination control's `onChange` (line 317) and the `[page]`
      effect (lines 64-66): a new page number starts a fetch for it;
      choosing the current page again changes no dependency, so nothing
      happens. The loaded users stay until the request settles. */
  function ChangePage(s: State, page: int): (r: Transition)
    ensures r.next.list.page == page
    ensures page == s.list.page ==> r == Transition(s, [])
    ensures page != s.list.page ==> r.calls == [GetUsers(page)] && r.next.list.loading && r.next.list.error == ""
    ensures r.next.list.users == s.list.users && r.next.list.filtered == s.list.filtered
    ensures r.next.list.totalPages == s.list.totalPages && r.next.list.query == s.list.query
    ensures r.next.dialogs == s.dialogs
  {
    if page == s.list.page then Transition(s, [])
    else StartFetch(s.(list := s.list.(page := page)))
  }

  /** Typing in the search box (line 145) and the search effect it
      triggers (lines 68-78): only the query and the shown users change. */
  function ChangeQuery(s: State, query: string): (r: State)
    ensures r.list.query == query
    ensures r.list.filtered == Filter(s.list.users, query)
    ensures r.list.users == s.list.users && r.list.page == s.list.page && r.list.totalPages == s.list.totalPages
    ensures r.list.loading == s.list.loading && r.list.error == s.list.error
    ensures r.dialogs == s.dialogs
  {
    RunFilterEffect(s.(list := s.list.(query := query)))
  }

  /** The handler's own setters show the new page unfiltered: before the
      search effect runs, a non-empty query is not yet applied to it. */
  lemma ResolvedPageIsUnfilteredUntilEffect(s: State, p: UsersPage)
    ensures ResolveFetch(s, Ok(p)).list.filtered == p.data
    ensures CompleteFetch(s, Ok(p)) == RunFilterEffect(ResolveFetch(s, Ok(p)))
    ensures s.list.query == "" ==> CompleteFetch(s, Ok(p)).list.filtered == p.data
  {
    FilterEmptyQuery(p.data);
  }

  /** A page change whose request is rejected leaves the new page number
      showing the previous page's users. */
  lemma FailedPageChangeKeepsOldUsers(s: State, page: int)
    requires page != s.list.page
    ensures var t := ChangePage(s, page);
            var r := CompleteFetch(t.next, Err);
            && t.calls == [GetUsers(page)]
            && r.list.page == page && r.list.users == s.list.users
            && r.list.totalPages == s.list.totalPages && r.list.error == FetchFailed
  {
  }

  /** Choosing the same page twice fetches it once: the second choice
      changes nothing. */
  lemma ChangePageTwiceFetchesOnce(s: State, page: int)
    ensures var first := ChangePage(s, page);
            ChangePage(first.next, page) == Transition(first.next, [])
  {
  }

  /** Typing one more character searches within the users already shown:
      the new result is a subsequence of the previous one. */
  lemma TypingSearchesShownUsers(s: State, c: char)
    requires Settled(s)
    ensures var r := ChangeQuery(s, s.list.query + [c]);
            && r.list.filtered == Filter(s.list.filtered, s.list.query + [c])
            && Subsequence(r.list.filtered, s.list.filtered)
  {
    TypingNarrows(s.list.users, s.list.query, c);
  }

  /** Clearing the search box shows the whole loaded page again. */
  lemma ClearingQueryShowsPage(s: State)
    ensures ChangeQuery(s, "").list.filtered == s.list.users
  {
    FilterEmptyQuery(s.list.users);
  }
}
