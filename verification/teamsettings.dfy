/** The team settings form: name, slug and domain, validated by the team
    schema, saved to the team's current address, after which the page moves
    to the (possibly new) slug. */
module TeamSettings {
  import opened Effects
  import opened Forms

  /** The stored team, as far as the form reads it. */
  datatype Team = Team(name: string, slug: string, domain: Option<string>)

  datatype TeamValues = TeamValues(name: string, slug: string, domain: string)

  /** What `updateTeamSchema.parse` does with the values: accept them, or
      throw with per-field messages. */
  datatype Parse = Parsed | Failed(fieldErrors: map<string, seq<string>>)

  type Schema = TeamValues -> Parse

  type Access = (string, seq<string>) -> bool

  /** `{ name, slug, domain: team.domain || '' }` */
  function InitialValues(team: Team): TeamValues {
    TeamValues(team.name, team.slug, if team.domain.Some? then team.domain.value else "")
  }

  /** The `validate` callback: the schema's field errors, or none. */
  function Errors(schema: Schema, values: TeamValues): map<string, seq<string>> {
    var p := schema(values);
    if p.Parsed? then map[] else p.fieldErrors
  }

  /** formik's `isValid`: no field carries an error. */
  predicate Valid(schema: Schema, values: TeamValues) {
    |Errors(schema, values)| == 0
  }

  predicate SaveDisabled(schema: Schema, f: Form<TeamValues>) {
    Disabled(f, Valid(schema, f.values))
  }

  /** The save button: absent without `team`/`update` access, otherwise
      present with its `disabled` flag. */
  function SaveButton(canAccess: Access, schema: Schema, f: Form<TeamValues>): Option<bool> {
    if canAccess("team", ["update"]) then Some(SaveDisabled(schema, f)) else None
  }

  function Body(v: TeamValues): map<string, Json> {
    map["name" := JStr(v.name), "slug" := JStr(v.slug), "domain" := JStr(v.domain)]
  }

  /** Submitting: formik calls `onSubmit` only with no errors; the PUT goes
      to the team's current slug; the outcome carries the updated team's
      slug. */
  function Submit(schema: Schema, team: Team, f: Form<TeamValues>, outcome: Outcome<string>): (trace: seq<Effect>)
    ensures Requests(trace) ==
              (if Valid(schema, f.values) then [Request(PUT, "/api/teams/" + team.slug, [], Body(f.values))] else [])
    ensures outcome.Err? ==> Quiet(trace)
  {
    if !Valid(schema, f.values) then []
    else
      SendThenReport(Request(PUT, "/api/teams/" + team.slug, [], Body(f.values)), outcome,
                     if outcome.Ok? then [ToastSuccess("successfully-updated"), Invalidate(Hook("useTeams", "")),
                                          Push("/teams/" + outcome.data + "/settings")] else []);
      [Send(Request(PUT, "/api/teams/" + team.slug, [], Body(f.values)))]
        + Report(outcome, if outcome.Ok? then [ToastSuccess("successfully-updated"), Invalidate(Hook("useTeams", "")),
                                               Push("/teams/" + outcome.data + "/settings")] else [])
  }

  /** The initial values copy the team, a missing domain becoming the empty
      string; the fresh form cannot be saved. */
  lemma InitialFromTeam(team: Team, schema: Schema)
    ensures var v := InitialValues(team);
      && v.name == team.name && v.slug == team.slug
      && (team.domain.None? ==> v.domain == "")
      && (team.domain.Some? ==> v.domain == team.domain.value)
    ensures SaveDisabled(schema, Fresh(InitialValues(team)))
  {
  }

  /** Parsing success means no errors; a failure means exactly the schema's
      field errors, so the form is invalid exactly when some field has one. */
  lemma ErrorsAreFieldErrors(schema: Schema, values: TeamValues)
    ensures schema(values).Parsed? ==> Errors(schema, values) == map[] && Valid(schema, values)
    ensures schema(values).Failed? ==> Errors(schema, values) == schema(values).fieldErrors
    ensures !Valid(schema, values) <==> schema(values).Failed? && |schema(values).fieldErrors| > 0
  {
  }

  /** Saving is possible exactly for changed, valid values while nothing is in
      flight, and only for users who see the button: without update access
      there is no enabled save control, whatever the form holds. */
  lemma SaveGuard(schema: Schema, f: Form<TeamValues>, canAccess: Access)
    ensures !SaveDisabled(schema, f) <==> f.values != f.initial && Valid(schema, f.values) && !f.submitting
    ensures SaveButton(canAccess, schema, f) == Some(false) <==>
              canAccess("team", ["update"]) && f.values != f.initial && Valid(schema, f.values) && !f.submitting
    ensures !canAccess("team", ["update"]) ==> SaveButton(canAccess, schema, f).None?
  {
  }

  /** The PUT targets the slug the team has now, even when the slug field was
      edited. Failure shows the server message and neither invalidates nor
      navigates; success shows success, invalidates the team list and then
      goes to the settings of the slug the server returned. */
  lemma SubmitTrace(schema: Schema, team: Team, f: Form<TeamValues>, outcome: Outcome<string>)
    requires Valid(schema, f.values)
    ensures var trace := Submit(schema, team, f, outcome);
      && Requests(trace) == [Request(PUT, "/api/teams/" + team.slug, [], Body(f.values))]
      && Requests(trace)[0].body["slug"] == JStr(f.values.slug)
      && (outcome.Err? ==> Quiet(trace) && trace[|trace| - 1] == ToastError(outcome.message))
      && (outcome.Ok? ==>
            && trace[1..] == [ToastSuccess("successfully-updated"), Invalidate(Hook("useTeams", "")),
                              Push("/teams/" + outcome.data + "/settings")]
            && Before(trace, Invalidate(Hook("useTeams", "")), Push("/teams/" + outcome.data + "/settings")))
  {
    var success := if outcome.Ok? then [ToastSuccess("successfully-updated"), Invalidate(Hook("useTeams", "")),
                                        Push("/teams/" + outcome.data + "/settings")] else [];
    var request := Request(PUT, "/api/teams/" + team.slug, [], Body(f.values));
    SendThenReport(request, outcome, success);
    if outcome.Ok? {
      var trace := Submit(schema, team, f, outcome);
      IndexOfAt(trace, success[1], 2);
      IndexOfAt(trace, success[2], 3);
    }
  }

  /** The `team` prop changing. The prop comes from the page's `useTeam()`
      hook, so it changes when the route slug changes or that hook
      revalidates; `mutateTeams()` after a save refreshes only the team list.
      Under `enableReinitialize` the form takes the new team's values and is
      pristine again, unless those values equal the current initial ones, in
      which case nothing changes. */
  function OnTeamChange(f: Form<TeamValues>, team: Team): (g: Form<TeamValues>)
    ensures InitialValues(team) != f.initial ==> g == Fresh(InitialValues(team))
    ensures InitialValues(team) == f.initial ==> g == f
  {
    Reinitialize(f, InitialValues(team))
  }

  /** Premise: `useTeam` delivers the saved team as the new `team` prop
      (after a slug change or a revalidation of that hook; a save that keeps
      the slug need not cause one). Then the form shows exactly the values
      that were saved and cannot be saved again until it is edited. */
  lemma SavedTeamSettles(schema: Schema, f: Form<TeamValues>, saved: Team)
    requires f.values != f.initial
    requires InitialValues(saved) == f.values
    ensures var g := OnTeamChange(f, saved);
      g.values == f.values && !g.Dirty() && SaveDisabled(schema, g)
  {
  }

  /** Invalid values are never sent. */
  lemma InvalidNotSent(schema: Schema, team: Team, f: Form<TeamValues>, outcome: Outcome<string>)
    requires schema(f.values).Failed? && |schema(f.values).fieldErrors| > 0
    ensures Submit(schema, team, f, outcome) == []
  {
  }
}
