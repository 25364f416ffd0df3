/** The team list page: one row per team with a leave button, the
    leave-team confirmation, and the create-team dialog with its one-field
    form. */
module Teams {
  import opened Strings
  import opened Effects
  import opened Forms
  import ConfirmationDialog

  /** A team as the `useTeams` hook returns it. */
  datatype Team = Team(id: string, name: string, slug: string, memberCount: nat, createdAt: string)

  /** A grid row: the team itself drives the name and action cells. */
  datatype Row = Row(id: string, team: Team, members: string, created: string)

  /** The page state: the team picked for leaving, the two dialogs and the
      create form (its single value is the name). */
  datatype Screen = Screen(selected: Option<Team>, askConfirmation: bool, createVisible: bool, form: Form<string>)

  /** The team returned by a successful create. */
  datatype Created = Created(slug: string)

  const Initial: Screen := Screen(None, false, false, Fresh(""))

  /** The effect on the `newTeam` query parameter: a truthy value opens the
      create dialog, anything else leaves it as it is. */
  function OnNewTeam(s: Screen, newTeam: Option<string>): Screen {
    if newTeam.Some? && newTeam.value != "" then s.(createVisible := true) else s
  }

  /** The rows; `formatDate` stands for the date rendering. Absent teams give
      no rows. */
  function Rows(teams: Option<seq<Team>>, formatDate: string -> string): seq<Row> {
    if teams.None? then []
    else
      var ts := teams.value;
      seq(|ts|, i requires 0 <= i < |ts| => Row(ts[i].id, ts[i], NatToString(ts[i].memberCount), formatDate(ts[i].createdAt)))
  }

  function LeaveRequest(team: Team): Request {
    Request(PUT, "/api/teams/" + team.slug + "/members", [], NoBody)
  }

  /** `leaveTeam`: one PUT to the team's members; a failure neither
      invalidates nor navigates. */
  function LeaveTeam(team: Team, outcome: Outcome<()>): (trace: seq<Effect>)
    ensures Requests(trace) == [LeaveRequest(team)]
    ensures outcome.Err? ==> Quiet(trace)
  {
    SendThenReport(LeaveRequest(team), outcome, [ToastSuccess("leave-team-success"), Invalidate(Hook("useTeams", ""))]);
    [Send(LeaveRequest(team))] + Report(outcome, [ToastSuccess("leave-team-success"), Invalidate(Hook("useTeams", ""))])
  }

  /** The leave button of a row. */
  function ClickLeave(s: Screen, team: Team): Screen {
    s.(selected := Some(team), askConfirmation := true)
  }

  function HideConfirm(s: Screen): Screen {
    s.(askConfirmation := false)
  }

  /** The dialog's `onConfirm`: leave only when a team is selected. */
  function ConfirmLeave(s: Screen, outcome: Outcome<()>): (Screen, seq<Effect>) {
    (s, if s.selected.Some? then LeaveTeam(s.selected.value, outcome) else [])
  }

  function LeaveDialog(a: ConfirmationDialog.Action, s: Screen, outcome: Outcome<()>): (Screen, seq<Effect>) {
    ConfirmationDialog.Run(a, s, (s': Screen) => ConfirmLeave(s', outcome), HideConfirm)
  }

  /** The create form's schema: a required name whose JavaScript length is
      at most `maxTeam`. */
  predicate NameValid(name: string, maxTeam: nat) {
    name != "" && JsLength(name) <= maxTeam
  }

  /** The create button's `disabled`. */
  predicate CreateDisabled(f: Form<string>, maxTeam: nat) {
    Disabled(f, NameValid(f.values, maxTeam))
  }

  function CreateRequest(name: string): Request {
    Request(POST, "/api/teams/", [], map["name" := JStr(name)])
  }

  /** Submitting the create form. Formik runs `onSubmit` only for valid
      values; on failure the dialog and the values stay; on success the form
      is reset, the team list invalidated, the dialog hidden, success shown
      and the new team's settings opened. */
  function SubmitCreate(s: Screen, maxTeam: nat, outcome: Outcome<Created>): (r: (Screen, seq<Effect>))
    ensures Requests(r.1) == (if NameValid(s.form.values, maxTeam) then [CreateRequest(s.form.values)] else [])
    ensures r.0 != s ==> NameValid(s.form.values, maxTeam) && outcome.Ok? && !r.0.createVisible && !r.0.form.Dirty()
  {
    if !NameValid(s.form.values, maxTeam) then (s, [])
    else
      var sent := [Send(CreateRequest(s.form.values))];
      SendThenReport(CreateRequest(s.form.values), outcome,
                     if outcome.Ok? then [ResetForm, Invalidate(Hook("useTeams", "")), CloseDialog,
                                          ToastSuccess("team-created"), Push("/teams/" + outcome.data.slug + "/settings")]
                     else []);
      if outcome.Err? then (s, sent + Report(outcome, []))
      else
        (s.(form := Reset(s.form), createVisible := false),
         sent + Report(outcome, [ResetForm, Invalidate(Hook("useTeams", "")), CloseDialog,
                                 ToastSuccess("team-created"), Push("/teams/" + outcome.data.slug + "/settings")]))
  }

  /** A truthy `newTeam` opens the create dialog; an absent or empty one
      changes nothing. */
  lemma NewTeamOpensDialog(s: Screen, newTeam: Option<string>)
    ensures newTeam.Some? && newTeam.value != "" ==> OnNewTeam(s, newTeam).createVisible
    ensures newTeam.None? || newTeam == Some("") ==> OnNewTeam(s, newTeam) == s
  {
  }

  /** One row per team in list order, keyed by the team id, whose member
      column reads back as the member count; absent teams give no rows. */
  lemma RowsMirrorTeams(teams: Option<seq<Team>>, formatDate: string -> string)
    ensures teams.None? ==> Rows(teams, formatDate) == []
    ensures teams.Some? ==>
      var rows := Rows(teams, formatDate);
      && |rows| == |teams.value|
      && forall i :: 0 <= i < |rows| ==>
           && rows[i].id == teams.value[i].id && rows[i].team == teams.value[i]
           && ParseDigits(rows[i].members) == teams.value[i].memberCount
  {
    if teams.Some? {
      forall i | 0 <= i < |teams.value| {
        ParseNatToString(teams.value[i].memberCount);
      }
    }
  }

  /** Leaving sends one PUT to the team's members endpoint. Failure shows the
      server message without invalidating; success shows the success text and
      then invalidates the team list. */
  lemma LeaveTrace(team: Team, outcome: Outcome<()>)
    ensures var trace := LeaveTeam(team, outcome);
      && Requests(trace) == [Request(PUT, "/api/teams/" + team.slug + "/members", [], NoBody)]
      && (outcome.Err? ==> Quiet(trace) && trace[|trace| - 1] == ToastError(outcome.message))
      && (outcome.Ok? ==> Before(trace, ToastSuccess("leave-team-success"), Invalidate(Hook("useTeams", ""))))
  {
    var success := [ToastSuccess("leave-team-success"), Invalidate(Hook("useTeams", ""))];
    SendThenReport(LeaveRequest(team), outcome, success);
    if outcome.Ok? {
      var trace := LeaveTeam(team, outcome);
      IndexOfAt(trace, success[0], 1);
      IndexOfAt(trace, success[1], 2);
    }
  }

  /** Confirming with no team selected sends nothing and only closes the
      dialog; confirming after picking a team leaves exactly that team. */
  lemma ConfirmGuard(s: Screen, team: Team, outcome: Outcome<()>)
    ensures s.selected.None? ==> LeaveDialog(ConfirmationDialog.ConfirmClicked, s, outcome) == (HideConfirm(s), [])
    ensures var (s', trace) := LeaveDialog(ConfirmationDialog.ConfirmClicked, ClickLeave(s, team), outcome);
      !s'.askConfirmation && Requests(trace) == [LeaveRequest(team)]
  {
    var onConfirm := (s': Screen) => ConfirmLeave(s', outcome);
    ConfirmationDialog.ConfirmThenCancel(s, onConfirm, HideConfirm);
    ConfirmationDialog.ConfirmThenCancel(ClickLeave(s, team), onConfirm, HideConfirm);
    LeaveTrace(team, outcome);
  }

  /** The create button is enabled exactly for a changed, non-empty name of at
      most `maxTeam` UTF-16 code units while nothing is being submitted; the
      fresh dialog is disabled. A name within the bound has at most `maxTeam`
      characters, and one made of characters outside the Basic Multilingual
      Plane is held to half as many. */
  lemma CreateGuard(f: Form<string>, maxTeam: nat)
    ensures !CreateDisabled(f, maxTeam) <==>
              f.values != f.initial && f.values != "" && JsLength(f.values) <= maxTeam && !f.submitting
    ensures !CreateDisabled(f, maxTeam) ==> |f.values| <= maxTeam
    ensures ((forall i :: 0 <= i < |f.values| ==> f.values[i] as int > 0xFFFF) && 2 * |f.values| > maxTeam)
              ==> CreateDisabled(f, maxTeam)
    ensures CreateDisabled(Initial.form, maxTeam)
  {
    if forall i :: 0 <= i < |f.values| ==> f.values[i] as int > 0xFFFF {
      AllAstral(f.values);
    }
  }

  /** An invalid name sends nothing. A failed create sends one POST with the
      name, keeps the dialog and the values, and neither navigates nor
      invalidates. A successful one resets the form, invalidates the team
      list, hides the dialog, shows success and then opens the new team's
      settings, in that order. */
  lemma CreateOutcome(s: Screen, maxTeam: nat, outcome: Outcome<Created>)
    ensures !NameValid(s.form.values, maxTeam) ==> SubmitCreate(s, maxTeam, outcome) == (s, [])
    ensures NameValid(s.form.values, maxTeam) ==>
      var (s', trace) := SubmitCreate(s, maxTeam, outcome);
      && Requests(trace) == [Request(POST, "/api/teams/", [], map["name" := JStr(s.form.values)])]
      && (outcome.Err? ==> s' == s && Quiet(trace) && trace[|trace| - 1] == ToastError(outcome.message))
      && (outcome.Ok? ==>
            && !s'.createVisible && s'.form == Fresh(s.form.initial)
            && trace[1..] == [ResetForm, Invalidate(Hook("useTeams", "")), CloseDialog,
                              ToastSuccess("team-created"), Push("/teams/" + outcome.data.slug + "/settings")])
  {
    if NameValid(s.form.values, maxTeam) {
      var success := if outcome.Ok? then [ResetForm, Invalidate(Hook("useTeams", "")), CloseDialog,
                                          ToastSuccess("team-created"), Push("/teams/" + outcome.data.slug + "/settings")]
                     else [];
      SendThenReport(CreateRequest(s.form.values), outcome, success);
    }
  }
}
