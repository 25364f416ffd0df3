/** The `/api/users` route: GET returns the session user's public fields,
    PUT validates a partial account update and, when it changes the email,
    runs three checks in order before writing. Every error thrown on the way
    becomes a JSON error response. */
module UsersApi {
  import opened Effects

  /** What the handler was thrown: `ApiError` carries both fields; any other
      error may lack either. */
  datatype Thrown = Thrown(status: Option<int>, message: Option<string>)

  /** A validated update body: the fields `updateAccountSchema` lets through. */
  datatype AccountUpdate = AccountUpdate(name: Option<string>, email: Option<string>, image: Option<string>)

  datatype Validated = Valid(data: AccountUpdate) | Invalid(error: Thrown)

  /** A stored user row: the four public fields and the columns that must
      stay on the server (password hash, verification and lock state and the
      like), keyed by column name. */
  datatype DbUser = DbUser(id: string, name: string, email: string, image: Option<string>,
                           serverOnly: map<string, string>)

  /** `ClientUserData`: exactly the fields GET sends back. */
  datatype ClientUser = ClientUser(id: string, name: string, email: string, image: Option<string>)

  /** The response body shapes the handler produces. */
  datatype Body =
    | ErrorMessage(message: string)    // { error: { message } }
    | ErrorString(error: string)       // { error: '...' }
    | UserData(user: ClientUser)       // { data: { id, name, email, image } }
    | NoContent

  datatype Response = Response(status: int, allow: Option<string>, body: Body)

  /** The `updateUser` call: the session's user id (undefined without a
      session) and the validated data. */
  datatype Write = Write(id: Option<string>, data: AccountUpdate)

  /** The handler's collaborators, fixed for one request:
      - `session`: the id of the signed-in user, if any;
      - `confirmEmail`: the `env.confirmEmail` value, which may be unset;
      - `emailAllowed`: the allowed-domain check;
      - `ownerOf`: the id of the user already holding an email, if any;
      - `userBySession`: the row `getUserBySession` loads;
      - `validate`: `validateWithSchema(updateAccountSchema, body)`;
      - `updateFails`: what `updateUser` throws for a write, if anything. */
  datatype Server = Server(
    session: Option<string>,
    confirmEmail: Option<bool>,
    emailAllowed: string -> bool,
    ownerOf: string -> Option<string>,
    userBySession: string -> DbUser,
    validate: map<string, Json> -> Validated,
    updateFails: Write -> Option<Thrown>)

  const DefaultMessage: string := "Something went wrong"

  /** The catch block: a falsy status becomes 500, a falsy message the default text. */
  function ErrorResponse(e: Thrown): (r: Response)
    ensures r.status != 0 && r.allow.None? && r.body.ErrorMessage? && r.body.message != ""
    ensures e.status.Some? && e.status.value != 0 ==> r.status == e.status.value
    ensures e.message.Some? && e.message.value != "" ==> r.body.message == e.message.value
  {
    var status := if e.status.Some? && e.status.value != 0 then e.status.value else 500;
    var message := if e.message.Some? && e.message.value != "" then e.message.value else DefaultMessage;
    Response(status, None, ErrorMessage(message))
  }

  function ApiError(status: int, message: string): Thrown {
    Thrown(Some(status), Some(message))
  }

  /** `handleGET`: 401 exactly without a session; otherwise 200 with the
      session user's public fields. */
  function HandleGet(server: Server): (r: Response)
    ensures r.status == 401 <==> server.session.None?
    ensures server.session.Some? ==>
      var u := server.userBySession(server.session.value);
      r.status == 200 && r.body == UserData(ClientUser(u.id, u.name, u.email, u.image))
  {
    if server.session.None? then Response(401, None, ErrorString("Unauthorized"))
    else
      var u := server.userBySession(server.session.value);
      Response(200, None, UserData(ClientUser(u.id, u.name, u.email, u.image)))
  }

  /** The three email checks of `handlePUT`, in source order; the first that
      fails is thrown. */
  function EmailCheck(server: Server, email: string): (r: Option<Thrown>)
    ensures r.None? <==>
      && server.confirmEmail == Some(false) && server.emailAllowed(email)
      && (server.ownerOf(email).None? || server.ownerOf(email) == server.session)
    ensures r.Some? ==> r.value.status == Some(400) && r.value.message.Some? && r.value.message.value != ""
  {
    if server.confirmEmail != Some(false) then Some(ApiError(400, "Email change is not allowed."))
    else if !server.emailAllowed(email) then Some(ApiError(400, "Please use your work email."))
    else
      var owner := server.ownerOf(email);
      if owner.Some? && Some(owner.value) != server.session then Some(ApiError(400, "Email already in use."))
      else None
  }

  /** `handlePUT`: either an error thrown, or success; `writes` are the
      `updateUser` calls made. */
  function HandlePut(server: Server, body: map<string, Json>): (r: (Option<Thrown>, seq<Write>))
    ensures |r.1| <= 1
    ensures r.0.None? ==> |r.1| == 1
    ensures |r.1| == 1 ==> server.validate(body).Valid? && r.1[0] == Write(server.session, server.validate(body).data)
  {
    var v := server.validate(body);
    if v.Invalid? then (Some(v.error), [])
    else
      var data := v.data;
      var check := if data.email.Some? then EmailCheck(server, data.email.value) else None;
      if check.Some? then (check, [])
      else
        var w := Write(server.session, data);
        (server.updateFails(w), [w])
  }

  /** `handler`: dispatch on the method (undefined prints as "undefined"), and
      map whatever was thrown to an error response. */
  function Handler(server: Server, verb: Option<string>, body: map<string, Json>): (r: (Response, seq<Write>))
    ensures |r.1| <= 1
    ensures r.1 != [] ==> verb == Some("PUT")
    ensures r.0.body.NoContent? ==> verb == Some("PUT") && |r.1| == 1 && server.updateFails(r.1[0]).None?
  {
    if verb == Some("GET") then (HandleGet(server), [])
    else if verb == Some("PUT") then
      var (thrown, writes) := HandlePut(server, body);
      if thrown.Some? then (ErrorResponse(thrown.value), writes) else (Response(204, None, NoContent), writes)
    else
      var shown := if verb.Some? then verb.value else "undefined";
      (Response(405, Some("PUT"), ErrorMessage("Method " + shown + " Not Allowed")), [])
  }

  /** Only GET and PUT are served: anything else is 405 with `Allow: PUT`
      and a message naming the method, and writes nothing. Only a PUT writes,
      and it writes at most once. */
  lemma Dispatch(server: Server, verb: Option<string>, body: map<string, Json>)
    ensures var (r, writes) := Handler(server, verb, body);
      && |writes| <= 1
      && (verb != Some("PUT") ==> writes == [])
      && (r.allow.Some? <==> verb != Some("GET") && verb != Some("PUT"))
      && (verb.Some? && verb.value != "GET" && verb.value != "PUT" ==>
            r == Response(405, Some("PUT"), ErrorMessage("Method " + verb.value + " Not Allowed")))
    ensures verb.None? ==>
      Handler(server, verb, body).0 == Response(405, Some("PUT"), ErrorMessage("Method undefined Not Allowed"))
  {
    assert "Method " + "undefined" + " Not Allowed" == "Method undefined Not Allowed";
  }

  /** The catch block never answers with status 0 or an empty message, and
      passes a truthy status and message through unchanged. */
  lemma ErrorMapping(e: Thrown)
    ensures var r := ErrorResponse(e);
      && r.status != 0 && r.body.ErrorMessage? && r.body.message != "" && r.allow.None?
      && (e.status.Some? && e.status.value != 0 ==> r.status == e.status.value)
      && (e.status.None? || e.status == Some(0) ==> r.status == 500)
      && (e.message.Some? && e.message.value != "" ==> r.body.message == e.message.value)
      && (e.message.None? || e.message == Some("") ==> r.body.message == "Something went wrong")
  {
  }

  /** GET answers 401 with the bare string error exactly when there is no
      session, and otherwise 200 with the session user's id, name, email and
      image. */
  lemma GetUser(server: Server)
    ensures var (r, writes) := Handler(server, Some("GET"), NoBody);
      && writes == []
      && (server.session.None? <==> r.status == 401)
      && (server.session.None? ==> r.body == ErrorString("Unauthorized"))
      && (server.session.Some? ==>
            var u := server.userBySession(server.session.value);
            && r.status == 200 && r.body.UserData?
            && r.body.user.id == u.id && r.body.user.name == u.name
            && r.body.user.email == u.email && r.body.user.image == u.image)
  {
  }

  /** GET leaks none of the server-only columns: two servers whose session
      user differs only in those columns give the same response. */
  lemma GetHidesServerColumns(server: Server, hidden: map<string, string>)
    requires server.session.Some?
    ensures var id := server.session.value;
      var u := server.userBySession(id);
      var other := server.(userBySession := (x: string) => if x == id then u.(serverOnly := hidden) else server.userBySession(x));
      Handler(other, Some("GET"), NoBody) == Handler(server, Some("GET"), NoBody)
  {
  }

  /** An email change is written only if email change is enabled (confirmEmail
      exactly false), the domain is allowed, and the address is free or already
      the session user's; and then the write is the validated data for the
      session user. */
  lemma EmailWriteRequiresChecks(server: Server, body: map<string, Json>)
    ensures var (r, writes) := Handler(server, Some("PUT"), body);
      |writes| == 1 ==>
        && server.validate(body).Valid?
        && writes[0] == Write(server.session, server.validate(body).data)
        && (server.validate(body).data.email.Some? ==>
              var email := server.validate(body).data.email.value;
              && server.confirmEmail == Some(false)
              && server.emailAllowed(email)
              && (server.ownerOf(email).None? || server.ownerOf(email) == server.session))
  {
  }

  /** The email checks run in order and the first failure wins: each message
      is given exactly when its check fails and every earlier one passed, with
      status 400 and no write. */
  lemma EmailCascade(server: Server, body: map<string, Json>)
    requires server.validate(body).Valid? && server.validate(body).data.email.Some?
    ensures var email := server.validate(body).data.email.value;
      var (r, writes) := Handler(server, Some("PUT"), body);
      var owner := server.ownerOf(email);
      && (server.confirmEmail != Some(false) ==>
            r == Response(400, None, ErrorMessage("Email change is not allowed.")) && writes == [])
      && (server.confirmEmail == Some(false) && !server.emailAllowed(email) ==>
            r == Response(400, None, ErrorMessage("Please use your work email.")) && writes == [])
      && (server.confirmEmail == Some(false) && server.emailAllowed(email)
            && owner.Some? && owner != server.session ==>
            r == Response(400, None, ErrorMessage("Email already in use.")) && writes == [])
      && (server.confirmEmail == Some(false) && server.emailAllowed(email)
            && (owner.None? || owner == server.session) ==>
            |writes| == 1)
  {
  }

  /** Without a session an address that anyone holds counts as taken: the
      missing id never equals an owner's id. */
  lemma NoSessionEmailTaken(server: Server, body: map<string, Json>)
    requires server.session.None?
    requires server.validate(body).Valid? && server.validate(body).data.email.Some?
    requires server.confirmEmail == Some(false)
    requires server.emailAllowed(server.validate(body).data.email.value)
    requires server.ownerOf(server.validate(body).data.email.value).Some?
    ensures Handler(server, Some("PUT"), body).0.body == ErrorMessage("Email already in use.")
  {
  }

  /** A body without `email` skips every email check: it is written whatever
      the email settings, and the answer is 204 with no body unless the write
      itself throws. */
  lemma NoEmailSkipsChecks(server: Server, body: map<string, Json>)
    requires server.validate(body).Valid? && server.validate(body).data.email.None?
    ensures var (r, writes) := Handler(server, Some("PUT"), body);
      && writes == [Write(server.session, server.validate(body).data)]
      && (server.updateFails(writes[0]).None? <==> r == Response(204, None, NoContent))
  {
  }

  /** An invalid body is answered from the validation error and never written. */
  lemma InvalidBodyNotWritten(server: Server, body: map<string, Json>)
    requires server.validate(body).Invalid?
    ensures Handler(server, Some("PUT"), body) == (ErrorResponse(server.validate(body).error), [])
  {
  }

  /** A PUT succeeds (204 with no body) exactly when the body is valid, every
      email check that applies passes, and the write does not throw. */
  lemma PutSucceedsIff(server: Server, body: map<string, Json>)
    ensures var (r, writes) := Handler(server, Some("PUT"), body);
      r == Response(204, None, NoContent) <==>
        && server.validate(body).Valid?
        && (server.validate(body).data.email.Some? ==>
              EmailCheck(server, server.validate(body).data.email.value).None?)
        && server.updateFails(Write(server.session, server.validate(body).data)).None?
  {
  }
}
