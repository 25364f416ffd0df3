/** The change-password form: both fields required within the password
    length policies, sent together, and cleared after a successful change. */
module UpdatePassword {
  import opened Strings
  import opened Effects
  import opened Forms

  datatype Passwords = Passwords(currentPassword: string, newPassword: string)

  /** The two policy numbers the schema reads. */
  datatype Policies = Policies(maxPassword: nat, minPassword: nat)

  const Empty: Passwords := Passwords("", "")

  /** The Yup schema: `currentPassword` required and at most the maximum;
      `newPassword` required and between the minimum and the maximum. Yup
      measures JavaScript lengths. */
  predicate Valid(v: Passwords, p: Policies) {
    && v.currentPassword != "" && JsLength(v.currentPassword) <= p.maxPassword
    && v.newPassword != "" && p.minPassword <= JsLength(v.newPassword) <= p.maxPassword
  }

  predicate SubmitDisabled(f: Form<Passwords>, p: Policies) {
    Disabled(f, Valid(f.values, p))
  }

  function Body(v: Passwords): map<string, Json> {
    map["currentPassword" := JStr(v.currentPassword), "newPassword" := JStr(v.newPassword)]
  }

  /** Submitting: formik calls `onSubmit` only for valid values; failure
      keeps the typed values, success shows success and then clears them. */
  function Submit(f: Form<Passwords>, p: Policies, outcome: Outcome<()>): (r: (Form<Passwords>, seq<Effect>))
    ensures Requests(r.1) == (if Valid(f.values, p) then [Request(PUT, "/api/password", [], Body(f.values))] else [])
    ensures r.0 != f ==> Valid(f.values, p) && outcome.Ok? && r.0.values == f.initial && !r.0.Dirty()
  {
    if !Valid(f.values, p) then (f, [])
    else
      SendThenReport(Request(PUT, "/api/password", [], Body(f.values)), outcome,
                     [ToastSuccess("successfully-updated"), ResetForm]);
      var trace := [Send(Request(PUT, "/api/password", [], Body(f.values)))]
                     + Report(outcome, [ToastSuccess("successfully-updated"), ResetForm]);
      (if outcome.Ok? then Reset(f) else f, trace)
  }

  /** Empty fields never satisfy the schema, so the pristine form and the
      form after a reset cannot be submitted. */
  lemma PristineDisabled(p: Policies)
    ensures !Valid(Empty, p)
    ensures SubmitDisabled(Fresh(Empty), p)
  {
  }

  /** The button is enabled exactly for changed values meeting every length
      rule, counted in UTF-16 code units, while nothing is in flight. An
      enabled form therefore holds a new password of at least
      `minPassword / 2` characters and of at most `maxPassword` characters. */
  lemma SubmitGuard(f: Form<Passwords>, p: Policies)
    ensures !SubmitDisabled(f, p) <==>
      && f.values != f.initial && !f.submitting
      && 0 < JsLength(f.values.currentPassword) <= p.maxPassword
      && 0 < JsLength(f.values.newPassword) && p.minPassword <= JsLength(f.values.newPassword) <= p.maxPassword
    ensures !SubmitDisabled(f, p) ==>
      && |f.values.currentPassword| <= p.maxPassword
      && p.minPassword <= 2 * |f.values.newPassword| && |f.values.newPassword| <= p.maxPassword
  {
  }

  /** A valid submission sends one PUT to /api/password carrying both fields.
      Failure shows the server message and keeps the values; success shows
      success and then resets the form to the empty initial values. */
  lemma SubmitTrace(f: Form<Passwords>, p: Policies, outcome: Outcome<()>)
    requires Valid(f.values, p)
    ensures var (f', trace) := Submit(f, p, outcome);
      && Requests(trace) == [Request(PUT, "/api/password", [], Body(f.values))]
      && Requests(trace)[0].body.Keys == {"currentPassword", "newPassword"}
      && (outcome.Err? ==> f' == f && Quiet(trace) && trace[|trace| - 1] == ToastError(outcome.message))
      && (outcome.Ok? ==> f'.values == f.initial && !f'.Dirty()
                            && trace[1..] == [ToastSuccess("successfully-updated"), ResetForm])
  {
    SendThenReport(Request(PUT, "/api/password", [], Body(f.values)), outcome,
                   [ToastSuccess("successfully-updated"), ResetForm]);
  }

  /** Starting from the empty form, a successful change leaves an empty,
      unsubmittable form again. */
  lemma ChangeClears(values: Passwords, p: Policies)
    requires Valid(values, p)
    ensures var (f', _) := Submit(Edit(Fresh(Empty), values), p, Ok(()));
      f'.values == Empty && SubmitDisabled(f', p)
  {
  }
}
