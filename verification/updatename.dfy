/** The display-name form: initialised from the user (and again whenever the
    user changes), it sends only the name and, once saved, refreshes the
    session before returning to the account page. */
module UpdateName {
  import opened Effects
  import opened Forms

  /** `{ name: user.name }`; the user record is partial, so the name may be
      undefined. */
  function InitialValues(userName: Option<string>): Option<string> {
    userName
  }

  /** `updateAccountSchema`, as its verdict on the form's values. */
  type Schema = Option<string> -> bool

  /** formik's `isValid`: the schema accepts the values. */
  predicate Valid(schema: Schema, values: Option<string>) {
    schema(values)
  }

  predicate SaveDisabled(f: Form<Option<string>>, schema: Schema) {
    Disabled(f, Valid(schema, f.values))
  }

  /** `JSON.stringify({ name })` drops an undefined name. */
  function Body(name: Option<string>): map<string, Json> {
    if name.Some? then map["name" := JStr(name.value)] else NoBody
  }

  /** Submitting, which formik does only for values the account schema accepts.
      At most the one PUT of the name is sent, and the session is updated
      only after a valid save succeeded. */
  function Submit(f: Form<Option<string>>, schema: Schema, outcome: Outcome<()>): (trace: seq<Effect>)
    ensures Requests(trace) == (if Valid(schema, f.values) then [Request(PUT, "/api/users", [], Body(f.values))] else [])
    ensures (exists i :: 0 <= i < |trace| && trace[i].UpdateSession?) ==> Valid(schema, f.values) && outcome.Ok?
  {
    if !Valid(schema, f.values) then []
    else
      SendThenReport(Request(PUT, "/api/users", [], Body(f.values)), outcome,
                     [UpdateSession(f.values), Replace("/settings/account"), ToastSuccess("successfully-updated")]);
      [Send(Request(PUT, "/api/users", [], Body(f.values)))]
        + Report(outcome, [UpdateSession(f.values), Replace("/settings/account"), ToastSuccess("successfully-updated")])
  }

  /** The form follows the user: a new name resets it to that name, the same
      name keeps what is being typed. */
  lemma FollowsUser(f: Form<Option<string>>, userName: Option<string>, schema: Schema)
    ensures Reinitialize(f, InitialValues(userName)).initial == userName
    ensures userName != f.initial ==>
              Reinitialize(f, userName).values == userName && SaveDisabled(Reinitialize(f, userName), schema)
    ensures userName == f.initial ==> Reinitialize(f, userName) == f
  {
  }

  lemma SaveGuard(f: Form<Option<string>>, schema: Schema)
    ensures !SaveDisabled(f, schema) <==> f.values != f.initial && Valid(schema, f.values) && !f.submitting
  {
  }

  /** The PUT to /api/users carries the name and nothing else. Failure shows
      the server message and neither updates the session nor navigates;
      success updates the session name, then replaces the route with the
      account page, then shows success. */
  lemma SubmitTrace(f: Form<Option<string>>, schema: Schema, outcome: Outcome<()>)
    requires Valid(schema, f.values)
    ensures var trace := Submit(f, schema, outcome);
      && Requests(trace) == [Request(PUT, "/api/users", [], Body(f.values))]
      && Requests(trace)[0].body.Keys <= {"name"}
      && (f.values.Some? ==> Requests(trace)[0].body == map["name" := JStr(f.values.value)])
      && (outcome.Err? ==> Quiet(trace) && trace == [trace[0], ToastError(outcome.message)])
      && (outcome.Ok? ==>
            && Before(trace, UpdateSession(f.values), Replace("/settings/account"))
            && Before(trace, Replace("/settings/account"), ToastSuccess("successfully-updated")))
  {
    var success := [UpdateSession(f.values), Replace("/settings/account"), ToastSuccess("successfully-updated")];
    SendThenReport(Request(PUT, "/api/users", [], Body(f.values)), outcome, success);
    if outcome.Ok? {
      var trace := Submit(f, schema, outcome);
      IndexOfAt(trace, success[0], 1);
      IndexOfAt(trace, success[1], 2);
      IndexOfAt(trace, success[2], 3);
    }
  }

  /** A failed save never touches the session. */
  lemma FailureKeepsSession(f: Form<Option<string>>, schema: Schema, message: string)
    ensures forall i :: 0 <= i < |Submit(f, schema, Err(message))| ==> !Submit(f, schema, Err(message))[i].UpdateSession?
  {
  }

  /** Values the account schema rejects are never sent, and nothing else
      happens. */
  lemma InvalidNotSent(f: Form<Option<string>>, schema: Schema, outcome: Outcome<()>)
    requires !Valid(schema, f.values)
    ensures Submit(f, schema, outcome) == []
  {
  }
}
