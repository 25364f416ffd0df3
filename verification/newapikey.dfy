/** The "new API key" dialog: a create form while no key is held, the key's
    display once one was created, and a toggle that closes or opens the dialog
    and always forgets the key. */
module NewAPIKey {
  import opened Effects
  import opened Forms

  /** The dialog's visibility (owned by the parent list) and the key it holds
      (`''` for none). */
  datatype Dialog = Dialog(visible: bool, apiKey: string)

  datatype View = CreateForm | DisplayKey(apiKey: string)

  /** The JSON body of the create response: `error` wins whatever the HTTP
      status; otherwise `data.apiKey`. */
  datatype Reply = ErrorBody(message: string) | DataBody(apiKey: string)

  function Shows(d: Dialog): View {
    if d.apiKey == "" then CreateForm else DisplayKey(d.apiKey)
  }

  /** `toggleVisible` */
  function ToggleVisible(d: Dialog): Dialog {
    Dialog(!d.visible, "")
  }

  /** `onNewAPIKey`: keep the key and invalidate the team's key list. */
  function OnNewAPIKey(slug: string, d: Dialog, apiKey: string): (Dialog, seq<Effect>) {
    (d.(apiKey := apiKey), [Invalidate(Path("/api/teams/" + slug + "/api-keys"))])
  }

  /** `createApiKeySchema`, as its verdict on a key name. */
  type Schema = string -> bool

  /** formik's `isValid`: the `validate` callback found no field errors. */
  predicate Valid(schema: Schema, name: string) {
    schema(name)
  }

  /** `!formik.dirty || !formik.isValid`; the single value is the key name. */
  predicate CreateDisabled(schema: Schema, f: Form<string>) {
    DisabledIgnoringSubmit(f, Valid(schema, f.values))
  }

  function CreateRequest(slug: string, name: string): Request {
    Request(POST, "/api/teams/" + slug + "/api-keys", [], map["name" := JStr(name)])
  }

  /** The create form's `onSubmit`, which formik runs only for a name the key
      schema accepts: one POST of the name; the dialog stays as it is, and
      the key it holds changes only to a non-empty key the server returned. */
  function Create(slug: string, schema: Schema, d: Dialog, name: string, reply: Reply): (r: (Dialog, seq<Effect>))
    ensures Requests(r.1) == (if Valid(schema, name) then [CreateRequest(slug, name)] else [])
    ensures |Requests(r.1)| == 1 <==> Valid(schema, name)
    ensures r.0.visible == d.visible
    ensures r.0 != d ==> Valid(schema, name) && reply.DataBody? && r.0.apiKey == reply.apiKey != ""
  {
    if !Valid(schema, name) then (d, [])
    else
      var sent := [Send(CreateRequest(slug, name))];
      if reply.ErrorBody? then (d, sent + [ToastError(reply.message)])
      else if reply.apiKey != "" then
        var (d', effects) := OnNewAPIKey(slug, d, reply.apiKey);
        (d', sent + effects + [ToastSuccess("api-key-created")])
      else (d, sent)
  }

  /** The form shows exactly while no key is held; otherwise the held key is
      displayed. */
  lemma ShowsIff(d: Dialog)
    ensures Shows(d) == CreateForm <==> d.apiKey == ""
    ensures d.apiKey != "" ==> Shows(d) == DisplayKey(d.apiKey)
  {
  }

  /** Toggling flips visibility and always forgets the key, so the next
      opening shows the create form; toggling twice restores visibility. */
  lemma ToggleForgets(d: Dialog)
    ensures ToggleVisible(d).visible == !d.visible && Shows(ToggleVisible(d)) == CreateForm
    ensures ToggleVisible(ToggleVisible(d)) == Dialog(d.visible, "")
  {
  }

  /** An error body shows its message, keeps the form and stores nothing. A
      non-empty key is stored (switching to the display view), the key list
      invalidated, and then success shown. An empty key does neither. */
  lemma CreateOutcome(slug: string, schema: Schema, d: Dialog, name: string, reply: Reply)
    requires Valid(schema, name)
    ensures var (d', trace) := Create(slug, schema, d, name, reply);
      && Requests(trace) == [CreateRequest(slug, name)]
      && d'.visible == d.visible
      && (reply.ErrorBody? ==> d' == d && Quiet(trace) && trace[|trace| - 1] == ToastError(reply.message))
      && (reply.DataBody? && reply.apiKey != "" ==>
            && Shows(d') == DisplayKey(reply.apiKey)
            && trace[1..] == [Invalidate(Path("/api/teams/" + slug + "/api-keys")), ToastSuccess("api-key-created")])
      && (reply.DataBody? && reply.apiKey == "" ==> d' == d && trace == [Send(CreateRequest(slug, name))])
  {
    var sent := [Send(CreateRequest(slug, name))];
    var trace := Create(slug, schema, d, name, reply).1;
    RequestsAppend(sent, trace[1..]);
    assert trace == sent + trace[1..];
    if reply.ErrorBody? {
      assert trace[1..] == [ToastError(reply.message)];
    }
  }

  /** Creation needs a changed name the schema accepts and has no in-flight
      guard; the fresh form cannot create. */
  lemma CreateGuard(schema: Schema, f: Form<string>)
    ensures !CreateDisabled(schema, f) <==> f.values != f.initial && Valid(schema, f.values)
    ensures CreateDisabled(schema, Fresh(""))
  {
  }

  /** A name the key schema rejects is never posted, and the dialog is left
      as it was. */
  lemma InvalidNotSent(slug: string, schema: Schema, d: Dialog, name: string, reply: Reply)
    requires !Valid(schema, name)
    ensures Create(slug, schema, d, name, reply) == (d, [])
  {
  }
}
