/** The edit and delete dialogs (src/pages/UsersPage.tsx lines 80-117 and
    the dialogs' close and cancel handlers at lines 332, 413, 423, 443). A
    submit is modelled as one step from the click to the settled service
    reply; the refetch it starts is left in flight. */
module Dialogs {
  import opened Options
  import opened Replies
  import opened Users
  import opened PageState

  /** The three fields of the edit form. */
  datatype Field = FirstName | LastName | Email

  function FieldOf(f: EditForm, field: Field): string {
    match field
    case FirstName => f.firstName
    case LastName => f.lastName
    case Email => f.email
  }

  /** `handleEditClick(user)`: remember the user, copy their name and email
      into the form and open the edit dialog. The list and the delete
      dialog's flag are untouched. */
  function EditClick(s: State, u: User): (r: State)
    ensures r.dialogs.selected == Some(u)
    ensures FieldOf(r.dialogs.form, FirstName) == u.firstName
    ensures FieldOf(r.dialogs.form, LastName) == u.lastName
    ensures FieldOf(r.dialogs.form, Email) == u.email
    ensures r.dialogs.editOpen && r.dialogs.deleteOpen == s.dialogs.deleteOpen
    ensures r.list == s.list
  {
    s.(dialogs := s.dialogs.(selected := Some(u), form := EditForm(u.firstName, u.lastName, u.email), editOpen := true))
  }

  /** `handleDeleteClick(user)`: remember the user and open the delete
      dialog only; the form keeps whatever it held. */
  function DeleteClick(s: State, u: User): (r: State)
    ensures r.dialogs.selected == Some(u)
    ensures r.dialogs.deleteOpen && r.dialogs.editOpen == s.dialogs.editOpen
    ensures r.dialogs.form == s.dialogs.form
    ensures r.list == s.list
  {
    s.(dialogs := s.dialogs.(selected := Some(u), deleteOpen := true))
  }

  /** Cancel or close of the edit dialog (lines 332, 413): only the flag
      drops; in particular the selected user is kept. */
  function CloseEdit(s: State): (r: State)
    ensures !r.dialogs.editOpen
    ensures r.dialogs.(editOpen := s.dialogs.editOpen) == s.dialogs
    ensures r.list == s.list
  {
    s.(dialogs := s.dialogs.(editOpen := false))
  }

  /** Cancel or close of the delete dialog (lines 423, 443). */
  function CloseDelete(s: State): (r: State)
    ensures !r.dialogs.deleteOpen
    ensures r.dialogs.(deleteOpen := s.dialogs.deleteOpen) == s.dialogs
    ensures r.list == s.list
  {
    s.(dialogs := s.dialogs.(deleteOpen := false))
  }

  /** Typing into one field of the edit form (lines 352-354, 374-376, 396):
      that field takes the value, the other two keep theirs. */
  function EditField(s: State, field: Field, value: string): (r: State)
    ensures FieldOf(r.dialogs.form, field) == value
    ensures forall g :: g != field ==> FieldOf(r.dialogs.form, g) == FieldOf(s.dialogs.form, g)
    ensures r.dialogs.(form := s.dialogs.form) == s.dialogs
    ensures r.list == s.list
  {
    var f := s.dialogs.form;
    var f' := match field
      case FirstName => f.(firstName := value)
      case LastName => f.(lastName := value)
      case Email => f.(email := value);
    s.(dialogs := s.dialogs.(form := f'))
  }

  /** What a successful mutation leaves behind: the dialog closed by
      `close`, a refetch of the unchanged page in flight, and nothing else
      moved. */
  predicate RefetchStarted(s: State, r: State) {
    && r.list.loading && r.list.error == ""
    && r.list.page == s.list.page && r.list.query == s.list.query
    && r.list.users == s.list.users && r.list.filtered == s.list.filtered
    && r.list.totalPages == s.list.totalPages
    && r.dialogs.selected == s.dialogs.selected && r.dialogs.form == s.dialogs.form
  }

  /** `handleEditSubmit` (lines 95-105). Without a selected user nothing
      happens. Otherwise the form is sent for the selected user's id; on
      success the edit dialog closes and the same page is fetched again,
      on failure the fixed error is shown and the dialog stays open. */
  function SubmitEdit(s: State, ack: Ack): (r: Transition)
    ensures s.dialogs.selected.None? ==> r == Transition(s, [])
    ensures s.dialogs.selected.Some? && ack.Acked? ==>
      && r.calls == [UpdateUser(s.dialogs.selected.value.id, s.dialogs.form), GetUsers(s.list.page)]
      && !r.next.dialogs.editOpen && r.next.dialogs.deleteOpen == s.dialogs.deleteOpen
      && RefetchStarted(s, r.next)
    ensures s.dialogs.selected.Some? && ack.Rejected? ==>
      && r.calls == [UpdateUser(s.dialogs.selected.value.id, s.dialogs.form)]
      && r.next.list.error == UpdateFailed
      && r.next.list.(error := s.list.error) == s.list
      && r.next.dialogs == s.dialogs
  {
    match s.dialogs.selected
    case None => Transition(s, [])
    case Some(u) =>
      var update := UpdateUser(u.id, s.dialogs.form);
      match ack
      case Rejected => Transition(s.(list := s.list.(error := UpdateFailed)), [update])
      case Acked =>
        var refetch := StartFetch(s);
        Transition(refetch.next.(dialogs := refetch.next.dialogs.(editOpen := false)), [update] + refetch.calls)
  }

  /** `handleDelete` (lines 107-117), the delete dialog's confirm button:
      like `SubmitEdit`, with the delete request and its own message. */
  function SubmitDelete(s: State, ack: Ack): (r: Transition)
    ensures s.dialogs.selected.None? ==> r == Transition(s, [])
    ensures s.dialogs.selected.Some? && ack.Acked? ==>
      && r.calls == [DeleteUser(s.dialogs.selected.value.id), GetUsers(s.list.page)]
      && !r.next.dialogs.deleteOpen && r.next.dialogs.editOpen == s.dialogs.editOpen
      && RefetchStarted(s, r.next)
    ensures s.dialogs.selected.Some? && ack.Rejected? ==>
      && r.calls == [DeleteUser(s.dialogs.selected.value.id)]
      && r.next.list.error == DeleteFailed
      && r.next.list.(error := s.list.error) == s.list
      && r.next.dialogs == s.dialogs
  {
    match s.dialogs.selected
    case None => Transition(s, [])
    case Some(u) =>
      var delete := DeleteUser(u.id);
      match ack
      case Rejected => Transition(s.(list := s.list.(error := DeleteFailed)), [delete])
      case Acked =>
        var refetch := StartFetch(s);
        Transition(refetch.next.(dialogs := refetch.next.dialogs.(deleteOpen := false)), [delete] + refetch.calls)
  }

  /** Opening the edit dialog and cancelling it leaves the list, the delete
      flag and the edit flag as they were; only the selection and the form
      remember the click. */
  lemma EditCancelRestoresFlags(s: State, u: User)
    requires !s.dialogs.editOpen
    ensures var r := CloseEdit(EditClick(s, u));
            && r.list == s.list
            && r.dialogs.editOpen == s.dialogs.editOpen
            && r.dialogs.deleteOpen == s.dialogs.deleteOpen
            && r.dialogs.selected == Some(u)
  {
  }

  /** Opening the delete dialog and cancelling it leaves the list, the form
      and both flags as they were; only the selection remembers the click. */
  lemma DeleteCancelRestoresFlags(s: State, u: User)
    requires !s.dialogs.deleteOpen
    ensures var r := CloseDelete(DeleteClick(s, u));
            && r.list == s.list
            && r.dialogs.form == s.dialogs.form
            && r.dialogs.editOpen == s.dialogs.editOpen
            && r.dialogs.deleteOpen == s.dialogs.deleteOpen
            && r.dialogs.selected == Some(u)
  {
  }

  /** Typing a field back to its previous value restores the whole state. */
  lemma EditFieldUndo(s: State, field: Field, value: string)
    ensures EditField(EditField(s, field, value), field, FieldOf(s.dialogs.form, field)) == s
  {
  }

  /** Saving the form unchanged right after opening the dialog sends the
      user's own name and email back. */
  lemma SaveUneditedSendsUserFields(s: State, u: User, ack: Ack)
    ensures SubmitEdit(EditClick(s, u), ack).calls[0] == UpdateUser(u.id, EditForm(u.firstName, u.lastName, u.email))
  {
  }

  /** Once a mutation succeeds and its refetch settles, the page shows the
      service's new data, searched with the unchanged query, for the same
      page number that was open before. */
  lemma DeleteThenRefetch(s: State, ack: Ack, reply: Reply<UsersPage>)
    requires Settled(s) && s.dialogs.selected.Some? && ack.Acked? && reply.Ok?
    ensures var t := SubmitDelete(s, ack);
            var r := CompleteFetch(t.next, reply);
            && t.calls[1] == GetUsers(s.list.page)
            && r.list.page == s.list.page
            && r.list.users == reply.value.data
            && r.list.filtered == Filter(reply.value.data, s.list.query)
            && !r.list.loading && r.list.error == ""
            && !r.dialogs.deleteOpen
  {
  }
}
