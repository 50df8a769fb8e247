/** The zod request schemas of src/schemas. `safeParse` of an object schema
    checks every declared key in declaration order and collects the message
    of every issue; keys the schema does not declare are dropped from the
    parsed data. A missing key gives zod's "Required", a value of another
    JSON type gives "Expected string, received <type>", and a `message`
    option replaces zod's text for the checks it is attached to. */
module Schemas {
  import opened Common
  import opened Models

  /** The outcome of `safeParse`: the parsed data, or the issue messages. */
  datatype Parsed<T> = Valid(data: T) | Invalid(messages: seq<string>)

  function Issues<T>(p: Parsed<T>): seq<string>
  {
    if p.Invalid? then p.messages else []
  }

  function ExpectedObject(j: Json): string
  {
    "Expected object, received " + TypeName(j)
  }

  const RequiredIssue := "Required"

  predicate HasString(fields: map<string, Json>, key: string)
  {
    key in fields && fields[key].JString?
  }

  /** An optional string key is either absent or a string (null fails). */
  predicate OptionalStringOk(fields: map<string, Json>, key: string)
  {
    key !in fields || fields[key].JString?
  }

  function OptionalValue(fields: map<string, Json>, key: string): Option<string>
    requires OptionalStringOk(fields, key)
  {
    if key in fields then Some(fields[key].s) else None
  }

  /** `zod.string()`, with `custom` the schema's own message if it has one. */
  function StringField(fields: map<string, Json>, key: string, custom: Option<string>): (r: Parsed<string>)
    ensures r.Valid? <==> HasString(fields, key)
    ensures r.Valid? ==> r.data == fields[key].s
    ensures r.Invalid? ==> |r.messages| == 1
    ensures r.Invalid? && custom.None? && key !in fields ==> r.messages == [RequiredIssue]
    ensures r.Invalid? && custom.Some? ==> r.messages == [custom.value]
  {
    if HasString(fields, key) then Valid(fields[key].s)
    else if custom.Some? then Invalid([custom.value])
    else if key !in fields then Invalid([RequiredIssue])
    else Invalid(["Expected string, received " + TypeName(fields[key])])
  }

  /** `zod.string().optional()`. */
  function OptionalStringField(fields: map<string, Json>, key: string): (r: Parsed<Option<string>>)
    ensures r.Valid? <==> OptionalStringOk(fields, key)
    ensures r.Valid? ==> r.data == OptionalValue(fields, key)
    ensures r.Invalid? ==> |r.messages| == 1
  {
    if OptionalStringOk(fields, key) then Valid(OptionalValue(fields, key))
    else Invalid(["Expected string, received " + TypeName(fields[key])])
  }

  /** `.min(min, { message: minMessage }).max(max, { message: maxMessage })`
      on a string that passed its type check: both checks run and each
      failing one adds its message. */
  function LengthBounds(p: Parsed<string>, min: nat, minMessage: string, max: nat, maxMessage: string): (r: Parsed<string>)
    ensures r.Valid? <==> p.Valid? && min <= |p.data| <= max
    ensures r.Valid? ==> r.data == p.data
    ensures p.Invalid? ==> r == p
    ensures p.Valid? && |p.data| < min ==> r.Invalid? && minMessage in r.messages
    ensures p.Valid? && |p.data| > max ==> r.Invalid? && maxMessage in r.messages
    ensures r.Invalid? && (p.Valid? || p.messages != []) ==> r.messages != []
    ensures p.Valid? && r.Invalid? ==> forall m :: m in r.messages ==> m == minMessage || m == maxMessage
  {
    if p.Invalid? then p
    else
      var issues := (if |p.data| < min then [minMessage] else []) + (if |p.data| > max then [maxMessage] else []);
      if issues == [] then p else Invalid(issues)
  }

  /** `.min(min, { message })` with no upper bound. */
  function MinLength(p: Parsed<string>, min: nat, message: string): (r: Parsed<string>)
    ensures r.Valid? <==> p.Valid? && min <= |p.data|
    ensures r.Valid? ==> r.data == p.data
    ensures p.Invalid? ==> r == p
    ensures p.Valid? && r.Invalid? ==> r.messages == [message]
  {
    if p.Valid? && |p.data| < min then Invalid([message]) else p
  }

  /** `.email({ message })`; zod's own address pattern is the predicate isEmail. */
  function EmailCheck(p: Parsed<string>, isEmail: string -> bool, message: string): (r: Parsed<string>)
    ensures r.Valid? <==> p.Valid? && isEmail(p.data)
    ensures r.Valid? ==> r.data == p.data
    ensures p.Invalid? ==> r == p
    ensures p.Valid? && r.Invalid? ==> r.messages == [message]
  {
    if p.Valid? && !isEmail(p.data) then Invalid([message]) else p
  }

  // ---------------------------------------------------------------------
  // feedbackSchema.ts

  datatype FeedbackInput = FeedbackInput(postId: string, content: string, ipAddress: string, userToken: Option<string>)

  /** `feedbackSchema`: postId, content and ipAddress are required strings of
      any length (the empty string included); userToken is optional. */
  function ParseFeedback(body: Json): (r: Parsed<FeedbackInput>)
    ensures r.Valid? <==> body.JObject? && HasString(body.fields, "postId") && HasString(body.fields, "content")
                          && HasString(body.fields, "ipAddress") && OptionalStringOk(body.fields, "userToken")
    ensures r.Valid? ==> r.data == FeedbackInput(body.fields["postId"].s, body.fields["content"].s,
                                                 body.fields["ipAddress"].s, OptionalValue(body.fields, "userToken"))
    ensures r.Invalid? ==> r.messages != []
  {
    match body
    case JObject(m) =>
      var postId := StringField(m, "postId", None);
      var content := StringField(m, "content", None);
      var ip := StringField(m, "ipAddress", None);
      var token := OptionalStringField(m, "userToken");
      if postId.Valid? && content.Valid? && ip.Valid? && token.Valid?
      then Valid(FeedbackInput(postId.data, content.data, ip.data, token.data))
      else Invalid(Issues(postId) + Issues(content) + Issues(ip) + Issues(token))
    case _ => Invalid([ExpectedObject(body)])
  }

  /** An update carries no postId: the schema does not declare one. */
  datatype UpdateFeedbackInput = UpdateFeedbackInput(content: string, ipAddress: string, userToken: Option<string>)

  /** `updateFeedbackSchema`: content and ipAddress required, userToken optional. */
  function ParseUpdateFeedback(body: Json): (r: Parsed<UpdateFeedbackInput>)
    ensures r.Valid? <==> body.JObject? && HasString(body.fields, "content") && HasString(body.fields, "ipAddress")
                          && OptionalStringOk(body.fields, "userToken")
    ensures r.Valid? ==> r.data == UpdateFeedbackInput(body.fields["content"].s, body.fields["ipAddress"].s,
                                                       OptionalValue(body.fields, "userToken"))
    ensures r.Invalid? ==> r.messages != []
  {
    match body
    case JObject(m) =>
      var content := StringField(m, "content", None);
      var ip := StringField(m, "ipAddress", None);
      var token := OptionalStringField(m, "userToken");
      if content.Valid? && ip.Valid? && token.Valid?
      then Valid(UpdateFeedbackInput(content.data, ip.data, token.data))
      else Invalid(Issues(content) + Issues(ip) + Issues(token))
    case _ => Invalid([ExpectedObject(body)])
  }

  datatype DeleteFeedbackInput = DeleteFeedbackInput(ipAddress: string, userToken: Option<string>)

  /** `deleteFeedbackSchema`: only ipAddress is required, userToken optional. */
  function ParseDeleteFeedback(body: Json): (r: Parsed<DeleteFeedbackInput>)
    ensures r.Valid? <==> body.JObject? && HasString(body.fields, "ipAddress") && OptionalStringOk(body.fields, "userToken")
    ensures r.Valid? ==> r.data == DeleteFeedbackInput(body.fields["ipAddress"].s, OptionalValue(body.fields, "userToken"))
    ensures r.Invalid? ==> r.messages != []
  {
    match body
    case JObject(m) =>
      var ip := StringField(m, "ipAddress", None);
      var token := OptionalStringField(m, "userToken");
      if ip.Valid? && token.Valid?
      then Valid(DeleteFeedbackInput(ip.data, token.data))
      else Invalid(Issues(ip) + Issues(token))
    case _ => Invalid([ExpectedObject(body)])
  }

  // ---------------------------------------------------------------------
  // voteSchema.ts

  const IpRequiredMessage := "Ip address is required."
  const VoteMessage := "vote is required, and it should be an upvote / downvote."

  datatype VoteInput = VoteInput(ipAddress: string, userToken: Option<string>, vote: FeedbackVoteType)

  /** `zod.enum(["upvote", "downvote"], { message })`: every issue of the
      field, a missing key included, carries the schema's message. */
  function VoteField(fields: map<string, Json>): (r: Parsed<FeedbackVoteType>)
    ensures r.Valid? <==> HasString(fields, "vote") && ParseFeedbackVoteType(fields["vote"].s).Some?
    ensures r.Valid? ==> FeedbackVoteTypeName(r.data) == fields["vote"].s
    ensures r.Invalid? ==> r.messages == [VoteMessage]
  {
    if HasString(fields, "vote") && ParseFeedbackVoteType(fields["vote"].s).Some?
    then Valid(ParseFeedbackVoteType(fields["vote"].s).value)
    else Invalid([VoteMessage])
  }

  /** `voteSchema`: ipAddress a required string, userToken optional, and
      vote exactly "upvote" or "downvote". */
  function ParseVote(body: Json): (r: Parsed<VoteInput>)
    ensures r.Valid? <==> body.JObject? && HasString(body.fields, "ipAddress") && OptionalStringOk(body.fields, "userToken")
                          && HasString(body.fields, "vote") && (body.fields["vote"].s == "upvote" || body.fields["vote"].s == "downvote")
    ensures r.Valid? ==> r.data.ipAddress == body.fields["ipAddress"].s && r.data.userToken == OptionalValue(body.fields, "userToken")
                         && FeedbackVoteTypeName(r.data.vote) == body.fields["vote"].s
    ensures body.JObject? && !(HasString(body.fields, "vote") && (body.fields["vote"].s == "upvote" || body.fields["vote"].s == "downvote"))
            ==> r.Invalid? && VoteMessage in r.messages
    ensures body.JObject? && !HasString(body.fields, "ipAddress") ==> r.Invalid? && IpRequiredMessage in r.messages
  {
    match body
    case JObject(m) =>
      var ip := StringField(m, "ipAddress", Some(IpRequiredMessage));
      var token := OptionalStringField(m, "userToken");
      var vote := VoteField(m);
      if ip.Valid? && token.Valid? && vote.Valid?
      then Valid(VoteInput(ip.data, token.data, vote.data))
      else Invalid(Issues(ip) + Issues(token) + Issues(vote))
    case _ => Invalid([ExpectedObject(body)])
  }

  // ---------------------------------------------------------------------
  // signUpSchema.ts and signInSchema.ts

  const UsernameShortMessage := "Username must be atleast 4 characters."
  const UsernameLongMessage := "Username should be under 20 characters."
  const InvalidEmailMessage := "Invalid email address."
  const PasswordShortMessage := "Password must be atleast 6 characters."
  const PasswordLongMessage := "Password should be under 20 characters."

  /** The username rule shared by signUpSchema and usernameSchema. */
  function UsernameField(fields: map<string, Json>): (r: Parsed<string>)
    ensures r.Valid? <==> HasString(fields, "username") && 4 <= |fields["username"].s| <= 20
    ensures r.Valid? ==> r.data == fields["username"].s
    ensures r.Invalid? ==> r.messages != []
    ensures HasString(fields, "username") && |fields["username"].s| < 4 ==> r == Invalid([UsernameShortMessage])
    ensures HasString(fields, "username") && |fields["username"].s| > 20 ==> r == Invalid([UsernameLongMessage])
  {
    LengthBounds(StringField(fields, "username", None), 4, UsernameShortMessage, 20, UsernameLongMessage)
  }

  function PasswordField(fields: map<string, Json>): (r: Parsed<string>)
    ensures r.Valid? <==> HasString(fields, "password") && 6 <= |fields["password"].s| <= 20
    ensures r.Valid? ==> r.data == fields["password"].s
    ensures r.Invalid? ==> r.messages != []
    ensures HasString(fields, "password") && |fields["password"].s| < 6 ==> r == Invalid([PasswordShortMessage])
    ensures HasString(fields, "password") && |fields["password"].s| > 20 ==> r == Invalid([PasswordLongMessage])
  {
    LengthBounds(StringField(fields, "password", None), 6, PasswordShortMessage, 20, PasswordLongMessage)
  }

  function EmailField(fields: map<string, Json>, isEmail: string -> bool): (r: Parsed<string>)
    ensures r.Valid? <==> HasString(fields, "email") && isEmail(fields["email"].s)
    ensures r.Valid? ==> r.data == fields["email"].s
    ensures r.Invalid? ==> r.messages != []
    ensures HasString(fields, "email") && !isEmail(fields["email"].s) ==> r == Invalid([InvalidEmailMessage])
  {
    EmailCheck(StringField(fields, "email", None), isEmail, InvalidEmailMessage)
  }

  datatype SignUpInput = SignUpInput(username: string, email: string, password: string)

  /** `signUpSchema`: all three fields required; username of 4 to 20
      characters, a well-formed email, and a password of 6 to 20 characters
      (20 itself passes, whatever "under 20" says). */
  function ParseSignUp(body: Json, isEmail: string -> bool): (r: Parsed<SignUpInput>)
    ensures r.Valid? <==> body.JObject?
                          && HasString(body.fields, "username") && 4 <= |body.fields["username"].s| <= 20
                          && HasString(body.fields, "email") && isEmail(body.fields["email"].s)
                          && HasString(body.fields, "password") && 6 <= |body.fields["password"].s| <= 20
    ensures r.Valid? ==> r.data == SignUpInput(body.fields["username"].s, body.fields["email"].s, body.fields["password"].s)
    ensures r.Invalid? ==> r.messages != []
  {
    match body
    case JObject(m) =>
      var username := UsernameField(m);
      var email := EmailField(m, isEmail);
      var password := PasswordField(m);
      if username.Valid? && email.Valid? && password.Valid?
      then Valid(SignUpInput(username.data, email.data, password.data))
      else Invalid(Issues(username) + Issues(email) + Issues(password))
    case _ => Invalid([ExpectedObject(body)])
  }

  datatype SignInInput = SignInInput(email: string, password: string)

  /** `signInSchema`: a well-formed email and a password of 6 to 20 characters;
      a short password carries the "at least 6" message and a long one the
      "under 20" message. */
  function ParseSignIn(body: Json, isEmail: string -> bool): (r: Parsed<SignInInput>)
    ensures r.Valid? <==> body.JObject?
                          && HasString(body.fields, "email") && isEmail(body.fields["email"].s)
                          && HasString(body.fields, "password") && 6 <= |body.fields["password"].s| <= 20
    ensures r.Valid? ==> r.data == SignInInput(body.fields["email"].s, body.fields["password"].s)
    ensures body.JObject? && HasString(body.fields, "password") && |body.fields["password"].s| < 6
            ==> r.Invalid? && PasswordShortMessage in r.messages
    ensures body.JObject? && HasString(body.fields, "password") && |body.fields["password"].s| > 20
            ==> r.Invalid? && PasswordLongMessage in r.messages
    ensures r.Invalid? ==> r.messages != []
  {
    match body
    case JObject(m) =>
      var email := EmailField(m, isEmail);
      var password := PasswordField(m);
      if email.Valid? && password.Valid?
      then Valid(SignInInput(email.data, password.data))
      else Invalid(Issues(email) + Issues(password))
    case _ => Invalid([ExpectedObject(body)])
  }

  // ---------------------------------------------------------------------
  // verifySchema.ts

  const CodeLengthMessage := "Verification code must be 6 digits."

  /** Only `code` is declared: there is no username in the parsed data. */
  datatype VerifyInput = VerifyInput(code: string)

  /** `verifySchema`: code of exactly 6 characters, of any kind. */
  function ParseVerify(body: Json): (r: Parsed<VerifyInput>)
    ensures r.Valid? <==> body.JObject? && HasString(body.fields, "code") && |body.fields["code"].s| == 6
    ensures r.Valid? ==> r.data == VerifyInput(body.fields["code"].s)
    ensures body.JObject? && HasString(body.fields, "code") && |body.fields["code"].s| != 6
            ==> r == Invalid([CodeLengthMessage])
    ensures r.Invalid? ==> r.messages != []
  {
    match body
    case JObject(m) =>
      var code := LengthBounds(StringField(m, "code", None), 6, CodeLengthMessage, 6, CodeLengthMessage);
      if code.Valid? then Valid(VerifyInput(code.data)) else Invalid(code.messages)
    case _ => Invalid([ExpectedObject(body)])
  }

  /** Every code the server issues passes verifySchema. */
  lemma IssuedCodePasses(n: nat)
    requires 100000 <= n <= 999999
    ensures ParseVerify(JObject(map["code" := JString(DecimalString(n))])) == Valid(VerifyInput(DecimalString(n)))
  {
    SixDigitCode(n);
  }

  // ---------------------------------------------------------------------
  // messageSchema.ts

  const FeedbackShortMessage := "Feedback message must be atleast 10 characters."

  datatype MessageInput = MessageInput(feedback: string)

  /** `messageSchema`: feedback a required string of at least 10 characters,
      with no upper bound. */
  function ParseMessage(body: Json): (r: Parsed<MessageInput>)
    ensures r.Valid? <==> body.JObject? && HasString(body.fields, "feedback") && |body.fields["feedback"].s| >= 10
    ensures r.Valid? ==> r.data == MessageInput(body.fields["feedback"].s)
    ensures body.JObject? && HasString(body.fields, "feedback") && |body.fields["feedback"].s| < 10
            ==> r == Invalid([FeedbackShortMessage])
    ensures r.Invalid? ==> r.messages != []
  {
    match body
    case JObject(m) =>
      var feedback := MinLength(StringField(m, "feedback", None), 10, FeedbackShortMessage);
      if feedback.Valid? then Valid(MessageInput(feedback.data)) else Invalid(feedback.messages)
    case _ => Invalid([ExpectedObject(body)])
  }

  // ---------------------------------------------------------------------
  // postSchema.ts

  datatype PostInput = PostInput(title: string, description: Option<string>)

  /** `postSchema`: title a required string with no length bound (the empty
      string passes), description optional; nothing else is kept. */
  function ParsePost(body: Json): (r: Parsed<PostInput>)
    ensures r.Valid? <==> body.JObject? && HasString(body.fields, "title") && OptionalStringOk(body.fields, "description")
    ensures r.Valid? ==> r.data == PostInput(body.fields["title"].s, OptionalValue(body.fields, "description"))
    ensures r.Invalid? ==> r.messages != []
  {
    match body
    case JObject(m) =>
      var title := StringField(m, "title", None);
      var description := OptionalStringField(m, "description");
      if title.Valid? && description.Valid?
      then Valid(PostInput(title.data, description.data))
      else Invalid(Issues(title) + Issues(description))
    case _ => Invalid([ExpectedObject(body)])
  }
}
