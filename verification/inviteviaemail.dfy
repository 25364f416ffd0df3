/** The invite-by-e-mail form: an e-mail address and a role picked from the
    available roles, posted to the team's invitations; success refreshes the
    e-mail invitation list, closes the dialog and clears the form. */
module InviteViaEmail {
  import opened Strings
  import opened Effects
  import opened Forms

  datatype Invite = Invite(email: string, role: string, sentViaEmail: bool)

  /** `availableRoles` is a non-empty list of role ids. */
  type Roles = r: seq<string> | |r| > 0 witness ["member"]

  /** What the Yup schema reads: the role ids, Yup's `.email()` test and the
      e-mail length policy. */
  datatype Schema = Schema(roles: Roles, emailShaped: string -> bool, maxEmail: nat)

  /** The Yup schema: a required, e-mail shaped address within the length
      policy (a JavaScript length), and a required role among the ids. */
  predicate Valid(v: Invite, schema: Schema) {
    && v.email != "" && schema.emailShaped(v.email) && JsLength(v.email) <= schema.maxEmail
    && v.role != "" && v.role in schema.roles
  }

  function InitialValues(roles: Roles): Invite {
    Invite("", roles[0], true)
  }

  /** `!formik.isValid || !formik.dirty` over the schema's verdict on the
      current values: there is no submitting guard. */
  predicate SendDisabled(f: Form<Invite>, schema: Schema) {
    DisabledIgnoringSubmit(f, Valid(f.values, schema))
  }

  function Body(v: Invite): map<string, Json> {
    map["email" := JStr(v.email), "role" := JStr(v.role), "sentViaEmail" := JBool(v.sentViaEmail)]
  }

  function InviteRequest(slug: string, v: Invite): Request {
    Request(POST, "/api/teams/" + slug + "/invitations", [], Body(v))
  }

  const SentList: string := "/invitations?sentViaEmail=true"

  /** The dialog's visibility and the form. */
  datatype Screen = Screen(visible: bool, form: Form<Invite>)

  /** Submitting: formik runs `onSubmit` only when the schema accepts the
      values. The trace holds the one POST of the three fields, then the
      outcome's report; only success hides the dialog and clears the form. */
  function Submit(slug: string, s: Screen, schema: Schema, outcome: Outcome<()>): (r: (Screen, seq<Effect>))
    ensures Requests(r.1) == (if Valid(s.form.values, schema) then [InviteRequest(slug, s.form.values)] else [])
    ensures r.0 != s ==> Valid(s.form.values, schema) && outcome.Ok? && !r.0.visible && !r.0.form.Dirty()
  {
    if !Valid(s.form.values, schema) then (s, [])
    else
      var success := [ToastSuccess("invitation-sent"), Invalidate(Path("/api/teams/" + slug + SentList)),
                      CloseDialog, ResetForm];
      SendThenReport(InviteRequest(slug, s.form.values), outcome, success);
      var trace := [Send(InviteRequest(slug, s.form.values))] + Report(outcome, success);
      (if outcome.Ok? then Screen(false, Reset(s.form)) else s, trace)
  }

  /** The schema rejects a missing address, an address that is not e-mail
      shaped or longer than the policy, and a role outside the available
      ids; it accepts everything else. */
  lemma Rejections(v: Invite, schema: Schema)
    ensures v.email == "" ==> !Valid(v, schema)
    ensures !schema.emailShaped(v.email) ==> !Valid(v, schema)
    ensures |v.email| > schema.maxEmail ==> !Valid(v, schema)
    ensures v.role !in schema.roles ==> !Valid(v, schema)
  {
  }

  /** The form starts with no address, the first role and `sentViaEmail`
      set; it is not valid yet, and the pristine form cannot be sent. */
  lemma InitialForm(schema: Schema)
    ensures var v := InitialValues(schema.roles);
      v.email == "" && v.role == schema.roles[0] && v.sentViaEmail && !Valid(v, schema)
    ensures SendDisabled(Fresh(InitialValues(schema.roles)), schema)
  {
  }

  /** Send is enabled exactly for changed values the schema accepts, even
      while a send is in flight; an invite with no address or with a role
      outside the available ids is never enabled. */
  lemma SendGuard(f: Form<Invite>, schema: Schema)
    ensures !SendDisabled(f, schema) <==> f.values != f.initial && Valid(f.values, schema)
    ensures !SendDisabled(f, schema) ==> !SendDisabled(f.(submitting := true), schema)
    ensures f.values.email == "" || f.values.role !in schema.roles ==> SendDisabled(f, schema)
  {
  }

  /** An invite the schema rejects is never posted and changes nothing. */
  lemma InvalidNotSent(slug: string, s: Screen, schema: Schema, outcome: Outcome<()>)
    requires !Valid(s.form.values, schema)
    ensures var (s', trace) := Submit(slug, s, schema, outcome);
      s' == s && trace == []
  {
  }

  /** A valid send posts the three fields to the team's invitations. Failure
      shows the server message and keeps the dialog and the values; success
      shows success, invalidates the e-mail invitation list, hides the dialog
      and then resets the form, in that order. */
  lemma SubmitTrace(slug: string, s: Screen, schema: Schema, outcome: Outcome<()>)
    requires Valid(s.form.values, schema)
    ensures var (s', trace) := Submit(slug, s, schema, outcome);
      && Requests(trace) == [Request(POST, "/api/teams/" + slug + "/invitations", [], Body(s.form.values))]
      && (outcome.Err? ==> s' == s && Quiet(trace) && trace[|trace| - 1] == ToastError(outcome.message))
      && (outcome.Ok? ==>
            && !s'.visible && s'.form.values == s.form.initial
            && trace[1..] == [ToastSuccess("invitation-sent"),
                              Invalidate(Path("/api/teams/" + slug + "/invitations?sentViaEmail=true")),
                              CloseDialog, ResetForm])
  {
    SendThenReport(InviteRequest(slug, s.form.values), outcome,
                   [ToastSuccess("invitation-sent"),
                    Invalidate(Path("/api/teams/" + slug + SentList)),
                    CloseDialog, ResetForm]);
  }
}
