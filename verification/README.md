# User list page: view-state model

This project models the view-state logic of the user list page of a small
React client for a paginated mock user directory (`src/pages/UsersPage.tsx`).
The page holds one page of users fetched from a remote service, searches
them on the client, shows a spinner, an empty box or a grid of cards, a
pagination control, and two dialogs to edit or delete a user.

The model is purely functional:

- `Options` holds `Option`, which stands for a nullable value such as the selected user.
- `Text` covers ASCII lower-casing and a substring test. They stand in for `toLowerCase` and `includes`.
- `Users` covers the `User` record and the search filter, with its set, order, count, idempotence and narrowing laws.
- `PageState` holds the page's state as one record: the list half (`Listing`) and the dialog half (`DialogState`). It also covers the fetch lifecycle, page changes and query changes.
- `Dialogs` covers the edit/delete dialog handlers. A submit takes the service's outcome as a parameter.
- `View` covers what is rendered for a state.
- `Events` folds user actions and fetch replies into runs. It proves the invariant every reachable state keeps: the search is applied, and an open dialog has a selected user.
- `Scenarios` holds two concrete walks through the page.

Service calls are not executed. The getUsers outcome is a
`Reply<UsersPage>` parameter and the update/delete outcome is an `Ack`
parameter. Each handler returns a `Transition`: the next state plus the
requests it issued (`GetUsers(page)`, `UpdateUser(id, form)`,
`DeleteUser(id)`). React's "state after the handler and its effects have
run" is the unit of a step. `Settled` says the search effect has caught up
(`filtered == Filter(users, query)`).

The model follows the code on these points:

- Cancelling a dialog only clears that dialog's flag; the selected user is kept.
- The two dialogs are independent flags, not one exclusive dialog state.
- Choosing the page that is already current does not refetch, because the `[page]` effect does not fire.
- The pagination control is hidden when nothing is shown as well as when a query is active, and it stays visible while a fetch is in flight.
- There is no stale-response policy: a reply is applied whenever it arrives.
- A successful fetch first shows the new data unfiltered and is searched by the effect afterwards (`PageState.ResolvedPageIsUnfilteredUntilEffect`).

## Model

| member | source | states |
|---|---|---|
| Text.Lower | src/pages/UsersPage.tsx:70-74 | lower-casing keeps the length and lower-cases every character in place |
| Text.Includes | src/pages/UsersPage.tsx:72-74 | `includes` is true exactly when some window of the text equals the needle (the empty needle always occurs) |
| Users.Filter | src/pages/UsersPage.tsx:69-77 | a user is in the search result iff it is a loaded user that matches the query; the result is no longer than the page |
| Users.FilterIsSubsequence | src/pages/UsersPage.tsx:69-77 | the result keeps the loaded users' relative order and adds nothing |
| Users.FilterCount | src/pages/UsersPage.tsx:69-77 | each user occurs in the result as often as in the page if it matches, otherwise never |
| Users.FilterKeepsDistinct | src/pages/UsersPage.tsx:69-77 | searching a page without duplicates yields no duplicates |
| Users.FilterEmptyQuery | src/pages/UsersPage.tsx:70-75 | the empty query keeps every loaded user, in order |
| Users.FilterIgnoresQueryCase | src/pages/UsersPage.tsx:70 | the query's case does not affect the result |
| Users.FilterNarrows | src/pages/UsersPage.tsx:68-78 | with a refined query, searching the previous result equals searching the whole page |
| Users.FilterIdempotent | src/pages/UsersPage.tsx:68-78 | searching a result again with the same query changes nothing |
| Users.TypingNarrows | src/pages/UsersPage.tsx:68-78 | typing one more character keeps a subsequence of the current result |
| Users.FilterUsers | src/pages/UsersPage.tsx:69-77 | the left-to-right filtering loop computes the same result as `Filter` |
| PageState.Init | src/pages/UsersPage.tsx:30-44 | the page starts on page 1 of 1 with nothing loaded, nothing loading, no error, no query, no selection, both dialogs closed, and the search applied |
| PageState.StartFetch | src/pages/UsersPage.tsx:49-53 | starting a fetch asks for the current page, raises `loading` and clears the error; nothing else changes |
| PageState.ResolveFetch | src/pages/UsersPage.tsx:54-61 | a resolved page replaces users, shown users and page count; a rejection sets "Failed to fetch users" and changes nothing else; `loading` drops either way |
| PageState.RunFilterEffect | src/pages/UsersPage.tsx:68-78 | the search effect makes the state settled and changes only the shown users |
| PageState.CompleteFetch | src/pages/UsersPage.tsx:53-62 | after a reply and its effects, success shows the new data searched with the kept query and leaves the error as it was; failure keeps users, shown users and page count; settledness is preserved |
| PageState.FetchUsers | src/pages/UsersPage.tsx:49-62 | one round trip requests the current page; success sets users and total pages to the response and clears the error; failure sets the fixed message and keeps users and total pages; `loading` ends false; page, query and dialogs are unchanged |
| PageState.Mount | src/pages/UsersPage.tsx:64-66 | mounting requests page 1 exactly once and shows the spinner over an empty, settled page |
| PageState.ChangePage | src/pages/UsersPage.tsx:317 | a different page number starts a fetch for that page and keeps the loaded users until it settles; the current number again does nothing |
| PageState.ChangeQuery | src/pages/UsersPage.tsx:145 | a new query recomputes the shown users from the loaded ones and never touches users, page, page count, loading or error |
| PageState.ResolvedPageIsUnfilteredUntilEffect | src/pages/UsersPage.tsx:54-55 | the handler's own setters show the new data unfiltered; the search effect then applies the query |
| PageState.FailedPageChangeKeepsOldUsers | src/pages/UsersPage.tsx:57-58 | a rejected fetch after a page change leaves the new page number over the previous page's users |
| PageState.ChangePageTwiceFetchesOnce | src/pages/UsersPage.tsx:64-66 | choosing the same page twice issues one fetch; the second choice changes nothing |
| PageState.TypingSearchesShownUsers | src/pages/UsersPage.tsx:68-78 | in a settled state, extending the query searches within the users already shown |
| PageState.ClearingQueryShowsPage | src/pages/UsersPage.tsx:70-75 | clearing the query shows the whole loaded page |
| Dialogs.EditClick | src/pages/UsersPage.tsx:80-88 | clicking edit selects the user, copies exactly their first name, last name and email into the form and opens the edit dialog; the list is untouched |
| Dialogs.DeleteClick | src/pages/UsersPage.tsx:90-93 | clicking delete selects the user and opens only the delete dialog; the form is untouched |
| Dialogs.CloseEdit | src/pages/UsersPage.tsx:413 | cancelling edit closes the edit dialog and changes nothing else |
| Dialogs.CloseDelete | src/pages/UsersPage.tsx:443 | cancelling delete closes the delete dialog and changes nothing else |
| Dialogs.EditField | src/pages/UsersPage.tsx:351-396 | typing into one form field sets that field and keeps the other two |
| Dialogs.SubmitEdit | src/pages/UsersPage.tsx:95-105 | with no selection nothing happens; otherwise the form is sent for the selected id; success closes the edit dialog and refetches the same page, failure sets "Failed to update user" and leaves the dialog open |
| Dialogs.SubmitDelete | src/pages/UsersPage.tsx:107-117 | with no selection nothing happens; otherwise the selected id is deleted; success closes the delete dialog and refetches the same page, failure sets "Failed to delete user" and leaves the dialog open |
| Dialogs.EditCancelRestoresFlags | src/pages/UsersPage.tsx:413 | opening and cancelling the edit dialog restores the list and both flags; only the selection and the form remember the click |
| Dialogs.DeleteCancelRestoresFlags | src/pages/UsersPage.tsx:443 | opening and cancelling the delete dialog restores the list, the form and both flags; only the selection remembers the click |
| Dialogs.EditFieldUndo | src/pages/UsersPage.tsx:351-396 | typing a form field back to its previous value restores the whole state |
| Dialogs.SaveUneditedSendsUserFields | src/pages/UsersPage.tsx:82-99 | saving an untouched form sends the user's own name and email for their id |
| Dialogs.DeleteThenRefetch | src/pages/UsersPage.tsx:110-113 | after a successful delete and its refetch, the same page number shows the new data searched with the old query, with no error |
| View.Render | src/pages/UsersPage.tsx:183-312 | the spinner shows iff loading; when not loading and users are shown, the cards are exactly the shown users; the error alert shows iff there is an error and carries its text; the pager shows iff the query is empty and users are shown, loading or not, and carries total pages and current page |
| View.PagerVisibility | src/pages/UsersPage.tsx:312 | in a settled state the pagination control shows iff the query is empty and the page has users |
| View.PagerHiddenWhileSearching | src/pages/UsersPage.tsx:312 | an active query hides the pagination control |
| View.BodyShowsMatches | src/pages/UsersPage.tsx:200-224 | once loaded and settled, the cards are exactly the loaded users that match the query, in loaded order, and the empty box shows iff no loaded user matches |
| View.EmptyStateHint | src/pages/UsersPage.tsx:217-219 | the empty box says "Try adjusting your search query" iff a query is active; with no query and a settled state, the page is empty |
| Events.Step | src/pages/UsersPage.tsx:64-117 | every handler preserves the page invariant and never clears the selection; query changes, fetch replies and closes issue no request |
| Events.Run | src/pages/UsersPage.tsx:64-117 | any sequence of events preserves the invariant and the selection |
| Events.ReachableStatesKeepInv | src/pages/UsersPage.tsx:68-78 | every state reachable from the mounted page is settled and has a selection whenever a dialog is open |
| Events.OpenDialogSubmitSends | src/pages/UsersPage.tsx:95-117 | in a reachable state with a dialog open, submitting always sends the request for the selected user |
| Events.MutationRefetchesOnce | src/pages/UsersPage.tsx:98-113 | a successful edit or delete issues exactly one page fetch, for the open page; a failed one issues none |
| Scenarios.SearchHidesPagination | src/pages/UsersPage.tsx:312 | with George and Janet on page 1 of 2, "JA" shows Janet alone and hides the pager; clearing the query restores both and the pager |
| Scenarios.DeleteRefetchesSamePage | src/pages/UsersPage.tsx:107-117 | deleting Janet requests the delete and page 1, shows the spinner, then shows George alone |

## Left out

- Layout, MUI components, colours, `useMediaQuery` and dark-mode styling (lines 119-450) are presentation. The model's `View` keeps only which body, alert and pager appear.
- The text of the delete confirmation (line 439) and the avatar image are left out; they are presentation.
- The remote `userService` module is not part of this model. Its calls are outcome parameters, and no request payload or response shape beyond `data` and `total_pages` is modelled.
- Asynchronous interleaving is left out, because the code has no policy for it:
  - overlapping fetches from rapid page changes;
  - the un-awaited `fetchUsers()` at lines 100 and 112;
  - the page number captured by a handler's closure.
  A submit is one step from the click to the settled service reply, and the refetch it starts is left in flight. A fetch reply is applied to whatever state it arrives in.
- Text.Lower: lower-cases ASCII letters only, whereas JavaScript's `toLowerCase` follows full Unicode case mapping.
- PageState.ChangePage: accepts any page number. The pagination control itself only offers 1 to the page count, and that bound is not modelled.
- `src/pages/LoginPage.tsx`, `src/components/Navbar.tsx` and `src/App.tsx` are left out. They are thin wrappers over the session, theme and routing contexts, which are not part of this model.
- The session store, theme store and route guard are not part of this model. Their contexts are not among the modelled sources.
