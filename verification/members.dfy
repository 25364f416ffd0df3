/** The team member list: what is rendered while the member list loads or
    fails, who may change a member's role or remove a member, and the
    confirm-to-remove flow. */
module Members {
  import opened Effects
  import ConfirmationDialog

  datatype Member = Member(userId: string, name: string, email: string, role: string)

  /** What the `useTeamMembers` hook reports. */
  datatype Load = Load(isLoading: bool, error: Option<string>, members: Option<seq<Member>>)

  /** What the component renders. */
  datatype View = Spinner | ErrorView(message: string) | Nothing | Table(rows: seq<Member>)

  /** Selected member and confirmation dialog. */
  datatype Screen = Screen(selected: Option<Member>, confirmVisible: bool)

  type Access = (string, seq<string>) -> bool

  /** The early returns, in source order, then the grid of members: the grid
      shows exactly when loading is over without error and members exist, and
      then it holds them unchanged. */
  function Render(load: Load): (v: View)
    ensures v.Table? <==> !load.isLoading && load.error.None? && load.members.Some?
    ensures v.Table? ==> v.rows == load.members.value
    ensures v.ErrorView? ==> !load.isLoading && load.error == Some(v.message)
  {
    if load.isLoading then Spinner
    else if load.error.Some? then ErrorView(load.error.value)
    else if load.members.None? then Nothing
    else Table(load.members.value)
  }

  /** `session?.user.id != member.userId`: without a session the id is
      undefined, which differs from every member's id. */
  predicate NotSelf(session: Option<string>, member: Member) {
    session != Some(member.userId)
  }

  /** `canUpdateRole` */
  predicate CanUpdateRole(session: Option<string>, member: Member, canAccess: Access) {
    NotSelf(session, member) && canAccess("team_member", ["update"])
  }

  /** `canRemoveMember` */
  predicate CanRemove(session: Option<string>, member: Member, canAccess: Access) {
    NotSelf(session, member) && canAccess("team_member", ["delete"])
  }

  function RemoveRequest(slug: string, member: Member): Request {
    Request(DELETE, "/api/teams/" + slug + "/members", [("memberId", member.userId)], NoBody)
  }

  /** `removeTeamMember`: nothing without a selection; the screen state is
      left to the dialog. */
  function RemoveTeamMember(slug: string, member: Option<Member>, outcome: Outcome<()>): (trace: seq<Effect>)
    ensures member.None? <==> trace == []
    ensures member.Some? ==> Requests(trace) == [RemoveRequest(slug, member.value)]
    ensures outcome.Err? ==> Quiet(trace)
  {
    if member.None? then []
    else
      SendThenReport(RemoveRequest(slug, member.value), outcome,
                     [Invalidate(Hook("useTeamMembers", slug)), ToastSuccess("member-deleted")]);
      [Send(RemoveRequest(slug, member.value))]
        + Report(outcome, [Invalidate(Hook("useTeamMembers", slug)), ToastSuccess("member-deleted")])
  }

  /** The remove button of a row. */
  function Select(s: Screen, member: Member): Screen {
    s.(selected := Some(member), confirmVisible := true)
  }

  function HideConfirm(s: Screen): Screen {
    s.(confirmVisible := false)
  }

  /** The confirmation dialog wired as the screen wires it. */
  function Dialog(slug: string, a: ConfirmationDialog.Action, s: Screen, outcome: Outcome<()>): (Screen, seq<Effect>) {
    ConfirmationDialog.Run(a, s, (s': Screen) => (s', RemoveTeamMember(slug, s'.selected, outcome)), HideConfirm)
  }

  /** Loading wins over an error, an error over missing members; the grid
      shows exactly when loading is done without error and members exist. */
  lemma RenderPrecedence(load: Load)
    ensures load.isLoading ==> Render(load) == Spinner
    ensures !load.isLoading && load.error.Some? ==> Render(load) == ErrorView(load.error.value)
    ensures Render(load).Table? <==> !load.isLoading && load.error.None? && load.members.Some?
    ensures Render(load).Table? ==> Render(load).rows == load.members.value
  {
  }

  /** Without a selection nothing is sent. */
  lemma NullSelectionNoRequest(slug: string, outcome: Outcome<()>)
    ensures RemoveTeamMember(slug, None, outcome) == []
  {
  }

  /** A removal sends one DELETE to the team's members endpoint whose query
      carries `memberId` = the member's user id. Failure shows the server
      message and does not invalidate; success invalidates the member list
      and then shows the success text. */
  lemma RemoveTrace(slug: string, member: Member, outcome: Outcome<()>)
    ensures var trace := RemoveTeamMember(slug, Some(member), outcome);
      && Requests(trace) == [Request(DELETE, "/api/teams/" + slug + "/members", [("memberId", member.userId)], NoBody)]
      && (outcome.Err? ==> Quiet(trace) && trace[|trace| - 1] == ToastError(outcome.message))
      && (outcome.Ok? ==> Before(trace, Invalidate(Hook("useTeamMembers", slug)), ToastSuccess("member-deleted"))
                            && SuccessToasts(trace) == ["member-deleted"])
  {
    var success := [Invalidate(Hook("useTeamMembers", slug)), ToastSuccess("member-deleted")];
    SendThenReport(RemoveRequest(slug, member), outcome, success);
    if outcome.Ok? {
      var trace := RemoveTeamMember(slug, Some(member), outcome);
      assert success == [success[0]] + [success[1]];
      SuccessToastsAppend([success[0]], [success[1]]);
      assert IndexOf(trace, success[0]) == 1;
      assert IndexOf(trace[1..][1..], success[1]) == 0;
    }
  }

  /** Role editing and removal are offered exactly to members other than the
      signed-in user, and only under the matching permission; in particular no
      one is offered to edit their own role or remove themselves. */
  lemma NoSelfService(session: Option<string>, member: Member, canAccess: Access)
    ensures CanUpdateRole(session, member, canAccess) <==>
              session != Some(member.userId) && canAccess("team_member", ["update"])
    ensures CanRemove(session, member, canAccess) <==>
              session != Some(member.userId) && canAccess("team_member", ["delete"])
    ensures session == Some(member.userId) ==>
              !CanUpdateRole(session, member, canAccess) && !CanRemove(session, member, canAccess)
  {
  }

  /** Confirming removes the selected member and hides the dialog; cancel
      and close only hide it. */
  lemma ConfirmFlow(slug: string, s: Screen, member: Member, outcome: Outcome<()>, a: ConfirmationDialog.Action)
    ensures a == ConfirmationDialog.ConfirmClicked ==>
              var (s', trace) := Dialog(slug, a, Select(s, member), outcome);
              && !s'.confirmVisible && s'.selected == Some(member)
              && Requests(trace) == [RemoveRequest(slug, member)]
    ensures a != ConfirmationDialog.ConfirmClicked ==>
              Dialog(slug, a, Select(s, member), outcome) == (Select(s, member).(confirmVisible := false), [])
  {
    var onConfirm := (s': Screen) => (s', RemoveTeamMember(slug, s'.selected, outcome));
    if a == ConfirmationDialog.ConfirmClicked {
      ConfirmationDialog.ConfirmThenCancel(Select(s, member), onConfirm, HideConfirm);
      RemoveTrace(slug, member, outcome);
    } else {
      ConfirmationDialog.CancelOnly(a, Select(s, member), onConfirm, HideConfirm);
    }
  }
}
