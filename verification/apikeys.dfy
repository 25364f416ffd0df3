/** The team's API-key list: one grid row per key, an empty state when there
    are none, and a revoke flow that selects a row, asks for confirmation and
    deletes the key. */
module APIKeys {
  import opened Effects
  import ConfirmationDialog

  /** A key as the list endpoint returns it. */
  datatype ApiKey = ApiKey(id: string, name: string, createdAt: string)

  /** A grid row; it is also what the revoke button selects. */
  datatype Row = Row(id: string, name: string, status: string, created: string)

  /** The screen's local state: the selected row and the two dialogs. */
  datatype Screen = Screen(selected: Option<Row>, confirmVisible: bool, createVisible: bool)

  /** What the screen shows below its header. */
  datatype View = EmptyState | Grid(rows: seq<Row>, confirmVisible: bool)

  const Initial: Screen := Screen(None, false, false)

  /** `data?.data ?? []` */
  function Keys(data: Option<seq<ApiKey>>): seq<ApiKey> {
    if data.Some? then data.value else []
  }

  /** The grid rows; `formatDate` stands for the locale date rendering. */
  function Rows(keys: seq<ApiKey>, t: string -> string, formatDate: string -> string): (rows: seq<Row>)
    ensures |rows| == |keys|
    ensures forall i :: 0 <= i < |rows| ==>
              rows[i].id == keys[i].id && rows[i].name == keys[i].name && rows[i].status == t("active")
  {
    seq(|keys|, i requires 0 <= i < |keys| => Row(keys[i].id, keys[i].name, t("active"), formatDate(keys[i].createdAt)))
  }

  /** The empty state exactly when there are no keys; otherwise one row per
      key and the confirmation dialog as the screen has it. */
  function Render(keys: seq<ApiKey>, s: Screen, t: string -> string, formatDate: string -> string): (v: View)
    ensures v.EmptyState? <==> |keys| == 0
    ensures v.Grid? ==> |v.rows| == |keys| && v.confirmVisible == s.confirmVisible
  {
    if |keys| == 0 then EmptyState else Grid(Rows(keys, t, formatDate), s.confirmVisible)
  }

  function DeletePath(slug: string, id: string): string {
    "/api/teams/" + slug + "/api-keys/" + id
  }

  /** `deleteApiKey`: nothing without a selection; otherwise the DELETE, then
      the selection and the dialog are cleared whatever the outcome, then the
      outcome is reported. */
  function DeleteApiKey(slug: string, s: Screen, key: Option<Row>, outcome: Outcome<()>): (r: (Screen, seq<Effect>))
    ensures key.None? ==> r == (s, [])
    ensures key.Some? ==>
      && Requests(r.1) == [Request(DELETE, DeletePath(slug, key.value.id), [], NoBody)]
      && r.0.selected.None? && !r.0.confirmVisible
      && (outcome.Err? ==> Quiet(r.1))
  {
    if key.None? then (s, [])
    else
      var sent := [Send(Request(DELETE, DeletePath(slug, key.value.id), [], NoBody))];
      SendThenReport(sent[0].request, outcome, [Invalidate(Hook("useAPIKeys", slug)), ToastSuccess("api-key-deleted")]);
      (s.(selected := None, confirmVisible := false),
       sent + Report(outcome, [Invalidate(Hook("useAPIKeys", slug)), ToastSuccess("api-key-deleted")]))
  }

  /** The revoke button of a row. */
  function Revoke(s: Screen, row: Row): Screen {
    s.(selected := Some(row), confirmVisible := true)
  }

  /** The dialog's `onCancel`. */
  function HideConfirm(s: Screen): Screen {
    s.(confirmVisible := false)
  }

  /** The confirmation dialog wired as the screen wires it. */
  function Dialog(slug: string, a: ConfirmationDialog.Action, s: Screen, outcome: Outcome<()>): (Screen, seq<Effect>) {
    ConfirmationDialog.Run(a, s, (s': Screen) => DeleteApiKey(slug, s', s'.selected, outcome), HideConfirm)
  }

  /** Without a selection nothing is sent and nothing changes. */
  lemma NullSelectionNoRequest(slug: string, s: Screen, outcome: Outcome<()>)
    ensures DeleteApiKey(slug, s, None, outcome) == (s, [])
  {
  }

  /** With a selection exactly one DELETE of that key is sent, and the
      selection and the dialog end cleared whatever the outcome. Failure shows
      the server message and does not invalidate; success invalidates the key
      list and then shows the success text. */
  lemma DeleteTrace(slug: string, s: Screen, key: Row, outcome: Outcome<()>)
    ensures var (s', trace) := DeleteApiKey(slug, s, Some(key), outcome);
      && s'.selected.None? && !s'.confirmVisible && s'.createVisible == s.createVisible
      && Requests(trace) == [Request(DELETE, "/api/teams/" + slug + "/api-keys/" + key.id, [], NoBody)]
      && (outcome.Err? ==> Quiet(trace) && trace[|trace| - 1] == ToastError(outcome.message)
                             && SuccessToasts(trace) == [])
      && (outcome.Ok? ==> Before(trace, Invalidate(Hook("useAPIKeys", slug)), ToastSuccess("api-key-deleted"))
                            && SuccessToasts(trace) == ["api-key-deleted"])
  {
    var request := Request(DELETE, DeletePath(slug, key.id), [], NoBody);
    var success := [Invalidate(Hook("useAPIKeys", slug)), ToastSuccess("api-key-deleted")];
    SendThenReport(request, outcome, success);
    var trace := DeleteApiKey(slug, s, Some(key), outcome).1;
    assert trace == [Send(request)] + Report(outcome, success);
    if outcome.Ok? {
      SuccessToastsAppend([success[0]], [success[1]]);
      assert success == [success[0]] + [success[1]];
      IndexOfAt(trace, success[0], 1);
      IndexOfAt(trace, success[1], 2);
    }
  }

  /** Rows mirror the keys one for one, in order, every status reading
      "active"; missing data gives no rows. */
  lemma RowsMirrorKeys(data: Option<seq<ApiKey>>, t: string -> string, formatDate: string -> string)
    ensures var keys := Keys(data); var rows := Rows(keys, t, formatDate);
      && |rows| == |keys|
      && (forall i :: 0 <= i < |rows| ==>
            rows[i].id == keys[i].id && rows[i].name == keys[i].name && rows[i].status == t("active"))
      && (data.None? ==> rows == [])
  {
  }

  /** The empty state shows exactly when there are no keys (including when the
      data is missing), and then neither the grid nor the dialog is rendered. */
  lemma EmptyStateIff(data: Option<seq<ApiKey>>, s: Screen, t: string -> string, formatDate: string -> string)
    ensures Render(Keys(data), s, t, formatDate) == EmptyState <==> |Keys(data)| == 0
    ensures data.None? ==> Render(Keys(data), s, t, formatDate) == EmptyState
    ensures |Keys(data)| > 0 ==> Render(Keys(data), s, t, formatDate).rows == Rows(Keys(data), t, formatDate)
  {
  }

  /** Revoke selects the row and opens the dialog; cancelling only hides the
      dialog, keeps the selection and sends nothing; confirming deletes the
      selected row's key and ends with the dialog hidden and nothing selected. */
  lemma RevokeFlow(slug: string, s: Screen, row: Row, outcome: Outcome<()>, a: ConfirmationDialog.Action)
    ensures Revoke(s, row).selected == Some(row) && Revoke(s, row).confirmVisible
    ensures a != ConfirmationDialog.ConfirmClicked ==>
              Dialog(slug, a, Revoke(s, row), outcome) == (Revoke(s, row).(confirmVisible := false), [])
    ensures a == ConfirmationDialog.ConfirmClicked ==>
              var (s', trace) := Dialog(slug, a, Revoke(s, row), outcome);
              && s'.selected.None? && !s'.confirmVisible
              && Requests(trace) == [Request(DELETE, "/api/teams/" + slug + "/api-keys/" + row.id, [], NoBody)]
  {
    var onConfirm := (s': Screen) => DeleteApiKey(slug, s', s'.selected, outcome);
    if a == ConfirmationDialog.ConfirmClicked {
      ConfirmationDialog.ConfirmThenCancel(Revoke(s, row), onConfirm, HideConfirm);
      DeleteTrace(slug, Revoke(s, row), row, outcome);
    } else {
      ConfirmationDialog.CancelOnly(a, Revoke(s, row), onConfirm, HideConfirm);
    }
  }
}
