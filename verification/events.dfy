/** The page as an event-driven machine: every user action and every
    settled fetch is an event, and a run folds them from the mounted page.
    Fetch replies are applied as they arrive; overlapping requests are not
    told apart. */
module Events {
  import opened Options
  import opened Replies
  import opened Users
  import opened PageState
  import opened Dialogs

  datatype Event =
    | PageChanged(page: int)
    | QueryTyped(query: string)
    | UsersFetched(reply: Reply<UsersPage>)
    | EditClicked(user: User)
    | DeleteClicked(user: User)
    | FormEdited(field: Field, value: string)
    | EditClosed
    | DeleteClosed
    | EditSaved(ack: Ack)
    | DeleteConfirmed(ack: Ack)

  /** What every reachable state satisfies: the search is applied, and an
      open dialog has a user to act on. */
  predicate Inv(s: State) {
    && Settled(s)
    && (s.dialogs.editOpen || s.dialogs.deleteOpen ==> s.dialogs.selected.Some?)
  }

  function Step(s: State, e: Event): (r: Transition)
    ensures Inv(s) ==> Inv(r.next)
    ensures s.dialogs.selected.Some? ==> r.next.dialogs.selected.Some?
    ensures e.QueryTyped? || e.UsersFetched? || e.EditClosed? || e.DeleteClosed? ==> r.calls == []
  {
    match e
    case PageChanged(p) => ChangePage(s, p)
    case QueryTyped(q) => Transition(ChangeQuery(s, q), [])
    case UsersFetched(reply) => Transition(CompleteFetch(s, reply), [])
    case EditClicked(u) => Transition(EditClick(s, u), [])
    case DeleteClicked(u) => Transition(DeleteClick(s, u), [])
    case FormEdited(f, v) => Transition(EditField(s, f, v), [])
    case EditClosed => Transition(CloseEdit(s), [])
    case DeleteClosed => Transition(CloseDelete(s), [])
    case EditSaved(ack) => SubmitEdit(s, ack)
    case DeleteConfirmed(ack) => SubmitDelete(s, ack)
  }

  /** Applies the events in order, collecting the requests issued. */
  function Run(s: State, es: seq<Event>): (r: Transition)
    ensures Inv(s) ==> Inv(r.next)
    ensures s.dialogs.selected.Some? ==> r.next.dialogs.selected.Some?
    decreases |es|
  {
    if es == [] then Transition(s, [])
    else
      var t := Step(s, es[0]);
      var rest := Run(t.next, es[1..]);
      Transition(rest.next, t.calls + rest.calls)
  }

  /** Every state reachable from the mounted page keeps the invariant. */
  lemma ReachableStatesKeepInv(es: seq<Event>)
    ensures Inv(Run(Mount().next, es).next)
  {
  }

  /** In a reachable state with a dialog open, submitting is never the
      silent no-op of lines 96 and 108: it always sends the request for
      the selected user. */
  lemma OpenDialogSubmitSends(s: State, ack: Ack)
    requires Inv(s)
    ensures s.dialogs.editOpen ==>
      SubmitEdit(s, ack).calls[0] == UpdateUser(s.dialogs.selected.value.id, s.dialogs.form)
    ensures s.dialogs.deleteOpen ==>
      SubmitDelete(s, ack).calls[0] == DeleteUser(s.dialogs.selected.value.id)
  {
  }

  /** Number of page fetches among the issued requests. */
  function FetchCount(calls: seq<Call>): nat {
    if calls == [] then 0 else (if calls[0].GetUsers? then 1 else 0) + FetchCount(calls[1..])
  }

  /** A successful edit or delete issues exactly one page fetch, for the
      page that was open; a failed one issues none. */
  lemma MutationRefetchesOnce(s: State, ack: Ack)
    requires s.dialogs.selected.Some?
    ensures FetchCount(SubmitEdit(s, ack).calls) == (if ack.Acked? then 1 else 0)
    ensures FetchCount(SubmitDelete(s, ack).calls) == (if ack.Acked? then 1 else 0)
    ensures ack.Acked? ==> SubmitEdit(s, ack).calls[1] == GetUsers(s.list.page)
    ensures ack.Acked? ==> SubmitDelete(s, ack).calls[1] == GetUsers(s.list.page)
  {
    var e := SubmitEdit(s, ack).calls;
    var d := SubmitDelete(s, ack).calls;
    if ack.Acked? {
      assert e[1..] == [e[1]] && e[1..][1..] == [];
      assert FetchCount(e[1..]) == 1;
      assert d[1..] == [d[1]] && d[1..][1..] == [];
      assert FetchCount(d[1..]) == 1;
    } else {
      assert e[1..] == [] && d[1..] == [];
    }
  }
}
