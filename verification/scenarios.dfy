/** Two concrete walks through the page with users shaped like those of
    the mock directory the page is written against. */
module Scenarios {
  import opened Options
  import opened Replies
  import opened Text
  import opened Users
  import opened PageState
  import opened Dialogs
  import opened View

  const George := User(1, "George", "Bluth", "george.bluth@reqres.in", "1-image.jpg")
  const Janet := User(2, "Janet", "Weaver", "janet.weaver@reqres.in", "2-image.jpg")

  /** Page 1 of 2 holds George and Janet. Searching "JA" shows Janet alone
      and hides the pagination control; clearing the search shows both
      again with the control back. */
  lemma SearchHidesPagination()
    ensures var loaded := CompleteFetch(Mount().next, Ok(UsersPage([George, Janet], 2)));
            var searching := ChangeQuery(loaded, "JA");
            var cleared := ChangeQuery(searching, "");
            && Render(loaded).body == Cards([George, Janet])
            && Render(searching).body == Cards([Janet])
            && Render(searching).pager == None
            && Render(cleared).body == Cards([George, Janet])
            && Render(cleared).pager == Some(Pager(2, 1))
  {
    var us := [George, Janet];
    FilterEmptyQuery(us);
    SearchJanet();
  }

  /** Only Janet matches "JA". */
  lemma SearchJanet()
    ensures Filter([George, Janet], "JA") == [Janet]
  {
    GeorgeMissesJa();
    JanetMatchesJa();
    FilterSecondOnly(George, Janet, "JA");
  }

  lemma FilterSecondOnly(a: User, b: User, query: string)
    requires !Matches(a, query) && Matches(b, query)
    ensures Filter([a, b], query) == [b]
  {
    assert [a, b][1..] == [b] && [b][1..] == [];
  }

  lemma LowerJa()
    ensures Lower("JA") == "ja"
  {
  }

  lemma GeorgeMissesJa()
    ensures !Matches(George, "JA")
  {
    LowerJa();
    MissesWithoutLetter(George, "JA", 'j');
  }

  lemma JanetMatchesJa()
    ensures Matches(Janet, "JA")
  {
    LowerJa();
    assert Lower("Janet") == "janet";
    MatchesByFirstName(Janet, "JA");
  }

  lemma MatchesByFirstName(u: User, query: string)
    requires OccursAt(Lower(u.firstName), Lower(query), 0)
    ensures Matches(u, query)
  {
  }

  /** Deleting Janet from a page holding George and Janet closes the dialog
      and fetches page 1 again; when that request returns George alone,
      only George is shown. */
  lemma DeleteRefetchesSamePage()
    ensures var loaded := CompleteFetch(Mount().next, Ok(UsersPage([George, Janet], 1)));
            var confirming := DeleteClick(loaded, Janet);
            var deleted := SubmitDelete(confirming, Acked);
            var refreshed := CompleteFetch(deleted.next, Ok(UsersPage([George], 1)));
            && deleted.calls == [DeleteUser(2), GetUsers(1)]
            && !deleted.next.dialogs.deleteOpen
            && Render(deleted.next).body == Spinner
            && Render(refreshed).body == Cards([George])
  {
    FilterEmptyQuery([George, Janet]);
    FilterEmptyQuery([George]);
  }
}
