/** The e-mail form: initialised from the user, editable only when e-mail
    changes are allowed, and sending only the e-mail. */
module UpdateEmail {
  import opened Effects
  import opened Forms

  function InitialValues(userEmail: Option<string>): Option<string> {
    userEmail
  }

  /** `disabled={!allowEmailChange}` on the field. */
  predicate FieldDisabled(allowEmailChange: bool) {
    !allowEmailChange
  }

  /** A keystroke in the field: a disabled field takes no input. */
  function Type(f: Form<Option<string>>, allowEmailChange: bool, text: string): Form<Option<string>> {
    if FieldDisabled(allowEmailChange) then f else Edit(f, Some(text))
  }

  /** `updateAccountSchema`, as its verdict on the form's values. */
  type Schema = Option<string> -> bool

  /** formik's `isValid`: the schema accepts the values. */
  predicate Valid(schema: Schema, values: Option<string>) {
    schema(values)
  }

  predicate SaveDisabled(f: Form<Option<string>>, schema: Schema) {
    Disabled(f, Valid(schema, f.values))
  }

  function Body(email: Option<string>): map<string, Json> {
    if email.Some? then map["email" := JStr(email.value)] else NoBody
  }

  /** Submitting, which formik does only for values the account schema accepts. At most the one
      PUT of the e-mail is sent, and the form never invalidates or navigates. */
  function Submit(f: Form<Option<string>>, schema: Schema, outcome: Outcome<()>): (trace: seq<Effect>)
    ensures Requests(trace) == (if Valid(schema, f.values) then [Request(PUT, "/api/users", [], Body(f.values))] else [])
    ensures Quiet(trace)
  {
    if !Valid(schema, f.values) then []
    else
      SendThenReport(Request(PUT, "/api/users", [], Body(f.values)), outcome, [ToastSuccess("successfully-updated")]);
      [Send(Request(PUT, "/api/users", [], Body(f.values)))] + Report(outcome, [ToastSuccess("successfully-updated")])
  }

  /** The form follows the user's e-mail. */
  lemma FollowsUser(f: Form<Option<string>>, userEmail: Option<string>)
    ensures Reinitialize(f, InitialValues(userEmail)).initial == userEmail
    ensures userEmail != f.initial ==> !Reinitialize(f, userEmail).Dirty()
  {
  }

  /** When e-mail changes are not allowed no typing changes the form, so a
      pristine form stays unsavable; otherwise the typed text becomes the
      value. */
  lemma FieldGate(f: Form<Option<string>>, allowEmailChange: bool, text: string, schema: Schema)
    ensures !allowEmailChange ==> Type(f, allowEmailChange, text) == f
    ensures !allowEmailChange && !f.Dirty() ==> SaveDisabled(Type(f, allowEmailChange, text), schema)
    ensures allowEmailChange ==> Type(f, allowEmailChange, text).values == Some(text)
  {
  }

  lemma SaveGuard(f: Form<Option<string>>, schema: Schema)
    ensures !SaveDisabled(f, schema) <==> f.values != f.initial && Valid(schema, f.values) && !f.submitting
  {
  }

  /** The PUT to /api/users carries the e-mail and nothing else; failure
      shows the server message; success only shows success, with no
      invalidation and no navigation. */
  lemma SubmitTrace(f: Form<Option<string>>, schema: Schema, outcome: Outcome<()>)
    requires Valid(schema, f.values)
    ensures var trace := Submit(f, schema, outcome);
      && Requests(trace) == [Request(PUT, "/api/users", [], Body(f.values))]
      && Requests(trace)[0].body.Keys <= {"email"}
      && (f.values.Some? ==> Requests(trace)[0].body == map["email" := JStr(f.values.value)])
      && Quiet(trace)
      && (outcome.Err? ==> trace[|trace| - 1] == ToastError(outcome.message))
      && (outcome.Ok? ==> trace[1..] == [ToastSuccess("successfully-updated")])
  {
    SendThenReport(Request(PUT, "/api/users", [], Body(f.values)), outcome, [ToastSuccess("successfully-updated")]);
  }

  /** Values the account schema rejects are never sent, and nothing else
      happens. */
  lemma InvalidNotSent(f: Form<Option<string>>, schema: Schema, outcome: Outcome<()>)
    requires !Valid(schema, f.values)
    ensures Submit(f, schema, outcome) == []
  {
  }
}
