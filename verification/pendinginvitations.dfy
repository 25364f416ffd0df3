/** The team's pending e-mail invitations: what is rendered while they load,
    fail or are absent, and the confirm-to-delete flow. */
module PendingInvitations {
  import opened Effects
  import ConfirmationDialog

  datatype Invitation = Invitation(id: string, email: string, role: string, expires: string)

  /** What the `useInvitations` hook reports. */
  datatype Load = Load(isLoading: bool, error: Option<string>, invitations: Option<seq<Invitation>>)

  datatype View = Spinner | ErrorView(message: string) | Nothing | Table(rows: seq<Invitation>)

  datatype Screen = Screen(selected: Option<Invitation>, confirmVisible: bool)

  /** The early returns, in source order, then the grid whose rows are the
      invitations as they are. */
  function Render(load: Load): View {
    if load.isLoading then Spinner
    else if load.error.Some? then ErrorView(load.error.value)
    else if load.invitations.None? || |load.invitations.value| == 0 then Nothing
    else Table(load.invitations.value)
  }

  function DeleteRequest(slug: string, invitation: Invitation): Request {
    Request(DELETE, "/api/teams/" + slug + "/invitations", [("id", invitation.id)], NoBody)
  }

  /** `deleteInvitation`: nothing without a selection; otherwise one DELETE,
      and a failure neither invalidates nor navigates. */
  function DeleteInvitation(slug: string, invitation: Option<Invitation>, outcome: Outcome<()>): (trace: seq<Effect>)
    ensures invitation.None? <==> trace == []
    ensures invitation.Some? ==> Requests(trace) == [DeleteRequest(slug, invitation.value)]
    ensures outcome.Err? ==> Quiet(trace)
  {
    if invitation.None? then []
    else
      SendThenReport(DeleteRequest(slug, invitation.value), outcome,
                     [Invalidate(Hook("useInvitations", slug)), ToastSuccess("invitation-deleted")]);
      [Send(DeleteRequest(slug, invitation.value))]
        + Report(outcome, [Invalidate(Hook("useInvitations", slug)), ToastSuccess("invitation-deleted")])
  }

  function Select(s: Screen, invitation: Invitation): Screen {
    s.(selected := Some(invitation), confirmVisible := true)
  }

  function HideConfirm(s: Screen): Screen {
    s.(confirmVisible := false)
  }

  function Dialog(slug: string, a: ConfirmationDialog.Action, s: Screen, outcome: Outcome<()>): (Screen, seq<Effect>) {
    ConfirmationDialog.Run(a, s, (s': Screen) => (s', DeleteInvitation(slug, s'.selected, outcome)), HideConfirm)
  }

  /** Loading wins over an error; nothing is rendered when the invitations are
      absent or empty; otherwise the rows are the invitations unchanged. */
  lemma RenderRules(load: Load)
    ensures load.isLoading ==> Render(load) == Spinner
    ensures !load.isLoading && load.error.Some? ==> Render(load) == ErrorView(load.error.value)
    ensures Render(load).Table? <==>
              !load.isLoading && load.error.None? && load.invitations.Some? && |load.invitations.value| > 0
    ensures Render(load).Table? ==> Render(load).rows == load.invitations.value && |Render(load).rows| > 0
  {
  }

  lemma NullSelectionNoRequest(slug: string, outcome: Outcome<()>)
    ensures DeleteInvitation(slug, None, outcome) == []
  {
  }

  /** A deletion sends one DELETE whose query carries `id` = the invitation's
      id. Failure shows the server message without invalidating; success
      invalidates the invitation list and then shows the success text. */
  lemma DeleteTrace(slug: string, invitation: Invitation, outcome: Outcome<()>)
    ensures var trace := DeleteInvitation(slug, Some(invitation), outcome);
      && Requests(trace) == [Request(DELETE, "/api/teams/" + slug + "/invitations", [("id", invitation.id)], NoBody)]
      && (outcome.Err? ==> Quiet(trace) && trace[|trace| - 1] == ToastError(outcome.message))
      && (outcome.Ok? ==> Before(trace, Invalidate(Hook("useInvitations", slug)), ToastSuccess("invitation-deleted"))
                            && SuccessToasts(trace) == ["invitation-deleted"])
  {
    var success := [Invalidate(Hook("useInvitations", slug)), ToastSuccess("invitation-deleted")];
    SendThenReport(DeleteRequest(slug, invitation), outcome, success);
    if outcome.Ok? {
      var trace := DeleteInvitation(slug, Some(invitation), outcome);
      assert success == [success[0]] + [success[1]];
      SuccessToastsAppend([success[0]], [success[1]]);
      assert IndexOf(trace, success[0]) == 1;
      assert IndexOf(trace[1..][1..], success[1]) == 0;
    }
  }

  /** Confirming deletes the selected invitation and hides the dialog; cancel
      and close only hide it. */
  lemma ConfirmFlow(slug: string, s: Screen, invitation: Invitation, outcome: Outcome<()>, a: ConfirmationDialog.Action)
    ensures a == ConfirmationDialog.ConfirmClicked ==>
              var (s', trace) := Dialog(slug, a, Select(s, invitation), outcome);
              && !s'.confirmVisible
              && Requests(trace) == [DeleteRequest(slug, invitation)]
    ensures a != ConfirmationDialog.ConfirmClicked ==>
              Dialog(slug, a, Select(s, invitation), outcome) == (Select(s, invitation).(confirmVisible := false), [])
  {
    var onConfirm := (s': Screen) => (s', DeleteInvitation(slug, s'.selected, outcome));
    if a == ConfirmationDialog.ConfirmClicked {
      ConfirmationDialog.ConfirmThenCancel(Select(s, invitation), onConfirm, HideConfirm);
      DeleteTrace(slug, invitation, outcome);
    } else {
      ConfirmationDialog.CancelOnly(a, Select(s, invitation), onConfirm, HideConfirm);
    }
  }
}
