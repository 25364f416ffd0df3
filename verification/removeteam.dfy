/** The "remove team" card: the remove button and its confirmation dialog
    exist only for users allowed to delete the team, and confirming deletes
    the team and leaves for the team list. */
module RemoveTeam {
  import opened Effects
  import ConfirmationDialog

  datatype Screen = Screen(loading: bool, askConfirmation: bool)

  /** What the card renders: the description's translation key, the remove
      button (with its disabled flag) and the dialog (with its open flag),
      each only when rendered at all. */
  datatype View = View(description: string, button: Option<bool>, dialog: Option<bool>)

  const Initial: Screen := Screen(false, false)

  function Render(s: Screen, allowDelete: bool): View {
    View(if allowDelete then "remove-team-warning" else "remove-team-restricted",
         if allowDelete then Some(s.loading) else None,
         if allowDelete then Some(s.askConfirmation) else None)
  }

  /** A click on the remove button; a missing or disabled button does nothing. */
  function ClickRemove(s: Screen, allowDelete: bool): Screen {
    if allowDelete && !s.loading then s.(askConfirmation := true) else s
  }

  /** `removeTeam`: one DELETE of the team inside the loading flag, which is
      off at the end; a failure neither invalidates nor navigates. */
  function Remove(slug: string, s: Screen, outcome: Outcome<()>): (r: (Screen, seq<Effect>))
    ensures !r.0.loading && r.0.askConfirmation == s.askConfirmation
    ensures Requests(r.1) == [Request(DELETE, "/api/teams/" + slug, [], NoBody)]
    ensures outcome.Err? ==> Quiet(r.1)
  {
    var trace := [SetLoading(true), Send(Request(DELETE, "/api/teams/" + slug, [], NoBody)), SetLoading(false)]
                    + Report(outcome, [ToastSuccess("team-removed-successfully"), Push("/teams")]);
    assert trace == [trace[0]] + ([trace[1]] + ([trace[2]] + trace[3..]));
    RequestsAppend([trace[0]], [trace[1]] + ([trace[2]] + trace[3..]));
    RequestsAppend([trace[1]], [trace[2]] + trace[3..]);
    RequestsAppend([trace[2]], trace[3..]);
    assert Requests(trace[3..]) == [];
    (s.(loading := false), trace)
  }

  function HideConfirm(s: Screen): Screen {
    s.(askConfirmation := false)
  }

  function Dialog(slug: string, a: ConfirmationDialog.Action, s: Screen, outcome: Outcome<()>): (Screen, seq<Effect>) {
    ConfirmationDialog.Run(a, s, (s': Screen) => Remove(slug, s', outcome), HideConfirm)
  }

  /** The button and the dialog exist exactly when deleting is allowed, the
      description says which case applies, and the button is disabled exactly
      while loading. */
  lemma Gating(s: Screen, allowDelete: bool)
    ensures var v := Render(s, allowDelete);
      && (v.button.Some? <==> allowDelete) && (v.dialog.Some? <==> allowDelete)
      && (v.description == "remove-team-warning" <==> allowDelete)
      && (allowDelete ==> (v.button.value <==> s.loading) && (v.dialog.value <==> s.askConfirmation))
    ensures !allowDelete ==> ClickRemove(s, allowDelete) == s
  {
  }

  /** Removing sends one DELETE of the team, bracketed by the loading flag,
      and always ends not loading. Failure shows the server message and stays
      on the page; success shows the success text and then goes to /teams. */
  lemma RemoveTrace(slug: string, s: Screen, outcome: Outcome<()>)
    ensures var (s', trace) := Remove(slug, s, outcome);
      && !s'.loading && s'.askConfirmation == s.askConfirmation
      && trace[0] == SetLoading(true) && trace[2] == SetLoading(false)
      && Requests(trace) == [Request(DELETE, "/api/teams/" + slug, [], NoBody)]
      && (outcome.Err? ==> Quiet(trace) && trace[|trace| - 1] == ToastError(outcome.message))
      && (outcome.Ok? ==> Before(trace, ToastSuccess("team-removed-successfully"), Push("/teams"))
                            && trace[|trace| - 1] == Push("/teams"))
  {
    var trace := Remove(slug, s, outcome).1;
    var head := [SetLoading(true), Send(Request(DELETE, "/api/teams/" + slug, [], NoBody)), SetLoading(false)];
    var tail := Report(outcome, [ToastSuccess("team-removed-successfully"), Push("/teams")]);
    assert head == [head[0]] + ([head[1]] + [head[2]]);
    RequestsAppend(head, tail);
    RequestsAppend([head[0]], [head[1]] + [head[2]]);
    RequestsAppend([head[1]], [head[2]]);
    if outcome.Err? {
      ReportFailure(outcome, [ToastSuccess("team-removed-successfully"), Push("/teams")]);
    } else {
      assert Requests(tail) == [];
      IndexOfAt(trace, ToastSuccess("team-removed-successfully"), 3);
      IndexOfAt(trace, Push("/teams"), 4);
    }
  }

  /** Confirming runs the removal and closes the dialog; cancel and close only
      close it. */
  lemma ConfirmFlow(slug: string, s: Screen, outcome: Outcome<()>, a: ConfirmationDialog.Action)
    ensures a == ConfirmationDialog.ConfirmClicked ==>
              Dialog(slug, a, s, outcome) == (Screen(false, false), Remove(slug, s, outcome).1)
    ensures a != ConfirmationDialog.ConfirmClicked ==> Dialog(slug, a, s, outcome) == (s.(askConfirmation := false), [])
  {
    var onConfirm := (s': Screen) => Remove(slug, s', outcome);
    if a == ConfirmationDialog.ConfirmClicked {
      ConfirmationDialog.ConfirmThenCancel(s, onConfirm, HideConfirm);
    } else {
      ConfirmationDialog.CancelOnly(a, s, onConfirm, HideConfirm);
    }
  }
}
