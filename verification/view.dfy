/** What the user list page shows for a state (the render predicates of
    src/pages/UsersPage.tsx at lines 183, 189, 200, 217-219 and 312);
    layout and styling are not modelled. */
module View {
  import opened Options
  import opened Replies
  import opened Users
  import opened PageState

  const NoMatchHint: string := "Try adjusting your search query"
  const EmptyPageHint: string := "No users available in the current page"

  /** The main area: a spinner, the "No users found" box with its hint, or
      the grid of user cards. */
  datatype Body = Spinner | NoUsers(hint: string) | Cards(users: seq<User>)

  /** The pagination control: page count and current page. */
  datatype Pager = Pager(count: int, current: int)

  datatype Screen = Screen(alert: Option<string>, body: Body, pager: Option<Pager>)

  function Render(s: State): (r: Screen)
    ensures r.body.Spinner? <==> s.list.loading
    ensures r.body.Cards? ==> r.body.users == s.list.filtered && r.body.users != []
    ensures r.alert.Some? <==> s.list.error != ""
    ensures r.alert.Some? ==> r.alert.value == s.list.error
    ensures !s.list.loading && s.list.filtered != [] ==> r.body == Cards(s.list.filtered)
    ensures r.pager.Some? <==> s.list.query == "" && s.list.filtered != []
    ensures r.pager.Some? ==> r.pager.value == Pager(s.list.totalPages, s.list.page)
  {
    var alert := if s.list.error != "" then Some(s.list.error) else None;
    var body :=
      if s.list.loading then Spinner
      else if |s.list.filtered| == 0 then NoUsers(if s.list.query != "" then NoMatchHint else EmptyPageHint)
      else Cards(s.list.filtered);
    var pager := if s.list.query == "" && |s.list.filtered| > 0 then Some(Pager(s.list.totalPages, s.list.page)) else None;
    Screen(alert, body, pager)
  }

  /** In a settled state the pagination control is shown iff the search
      box is empty and the loaded page has users, whether or not a fetch is
      in flight. */
  lemma PagerVisibility(s: State)
    requires Settled(s)
    ensures Render(s).pager.Some? <==> s.list.query == "" && s.list.users != []
  {
    FilterEmptyQuery(s.list.users);
  }

  /** While a search is active the pagination control is hidden, since
      only the loaded page is searched. */
  lemma PagerHiddenWhileSearching(s: State)
    requires s.list.query != ""
    ensures Render(s).pager == None
  {
  }

  /** In a settled state and not loading, the cards are exactly the search
      result: every loaded user that matches the query and no other, in
      their loaded order; and the empty box appears iff no loaded user
      matches. */
  lemma BodyShowsMatches(s: State)
    requires Settled(s) && !s.list.loading
    ensures Render(s).body.Cards? ==> Render(s).body.users == Filter(s.list.users, s.list.query)
    ensures Render(s).body.Cards? ==> Subsequence(Render(s).body.users, s.list.users)
    ensures Render(s).body.Cards? ==> forall u :: u in Render(s).body.users ==> Matches(u, s.list.query)
    ensures Render(s).body.NoUsers? <==> forall u :: u in s.list.users ==> !Matches(u, s.list.query)
  {
    FilterIsSubsequence(s.list.users, s.list.query);
    var f := s.list.filtered;
    if f != [] {
      assert f[0] in f;
    }
  }

  /** The empty box asks to adjust the search iff a query is active, and
      otherwise says the page itself is empty; with no query a settled empty
      box means the page has no users at all. */
  lemma EmptyStateHint(s: State)
    requires Render(s).body.NoUsers?
    ensures Render(s).body.hint == NoMatchHint <==> s.list.query != ""
    ensures Render(s).body.hint == EmptyPageHint <==> s.list.query == ""
    ensures Settled(s) && s.list.query == "" ==> s.list.users == []
  {
    FilterEmptyQuery(s.list.users);
  }
}
