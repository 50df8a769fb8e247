/** Username availability (GET /api/check-username-unique): the query
    parameter must pass the username rule of 4 to 20 characters, and any
    user holding the username -- verified or not -- makes it unavailable.
    The route only reads. */
module UsernameCheck {
  import opened Common
  import opened Models
  import opened Schemas
  import SignUp

  const NullMessage := "Expected string, received null"

  /** `{ username: searchParams.get("username") }`: the parameter's value,
      or null when the query has none. */
  function QueryParam(username: Option<string>): map<string, Json>
  {
    map["username" := if username.Some? then JString(username.value) else JNull]
  }

  /** The reply. On a schema failure the messages zod reports for the
      username are the reply's `message` list, carried here in `errors`. */
  function CheckUsername(users: seq<User>, username: Option<string>): (r: Response)
    ensures r.status in {200, 400}
    ensures r.success <==> r.status == 200
  {
    var parsed := UsernameField(QueryParam(username));
    if parsed.Invalid? then Response(400, false, NoMessage, parsed.messages)
    else if FindByUsername(users, parsed.data).Some? then Response(400, false, UsernameExists, [])
    else Response(200, true, UsernameUnique, [])
  }

  /** 200 exactly when the parameter is present, 4 to 20 characters long,
      and no user at all -- verified or not -- holds it once trimmed. */
  lemma AvailableIff200(users: seq<User>, username: Option<string>)
    ensures CheckUsername(users, username).status == 200 <==>
            && username.Some? && 4 <= |username.value| <= 20
            && forall i :: 0 <= i < |users| ==> users[i].username != Trim(username.value)
    ensures CheckUsername(users, username).success <==> CheckUsername(users, username).status == 200
    ensures CheckUsername(users, username).status in {200, 400}
  {
  }

  /** The rejections of the username rule, each with its own message. */
  lemma RuleRejections(users: seq<User>, username: Option<string>)
    ensures username.None? ==> CheckUsername(users, username) == Response(400, false, NoMessage, [NullMessage])
    ensures username.Some? && |username.value| < 4 ==>
            CheckUsername(users, username) == Response(400, false, NoMessage, [UsernameShortMessage])
    ensures username.Some? && |username.value| > 20 ==>
            CheckUsername(users, username) == Response(400, false, NoMessage, [UsernameLongMessage])
  {
    if username.None? {
      assert StringField(QueryParam(username), "username", None) == Invalid(["Expected string, received " + TypeName(JNull)]);
      assert "Expected string, received " + TypeName(JNull) == NullMessage;
    }
  }

  /** A held username is refused whoever holds it. */
  lemma HolderBlocks(users: seq<User>, username: string, i: nat)
    requires 4 <= |username| <= 20
    requires i < |users| && users[i].username == Trim(username)
    ensures CheckUsername(users, Some(username)) == Response(400, false, UsernameExists, [])
  {
  }

  /** A name reported available is not held by a verified user, so sign-up
      with it passes the username check; with a fresh email and a valid
      record it inserts exactly the new user. */
  lemma AvailableNameRegisters(users: seq<User>, username: string, input: SignUpInput, env: SignUp.Env,
                               emailPattern: string -> bool)
    requires CheckUsername(users, Some(username)).status == 200
    requires input.username == username && input.password != []
    requires forall i :: 0 <= i < |users| ==> users[i].id != env.newId
    requires SignUp.EmailHolder(users, input.email).None?
    requires Trim(username) != [] && input.email != [] && emailPattern(input.email)
    ensures SignUp.VerifiedHolder(users, username).None?
    ensures SignUp.RegisterOutcome(users, input, env, emailPattern).users == users + [SignUp.NewRecord(input, env)]
  {
    AvailableIff200(users, Some(username));
    FreeNameHasNoVerifiedHolder(users, username);
    SignUp.NewEmailInsertsOne(users, input, env, emailPattern);
  }

  /** A username nobody holds has no verified holder either. */
  lemma FreeNameHasNoVerifiedHolder(users: seq<User>, username: string)
    requires forall i :: 0 <= i < |users| ==> users[i].username != Trim(username)
    ensures SignUp.VerifiedHolder(users, username).None?
  {
  }
}
