/** Registration (POST /api/signup). A username held by a verified user is
    refused; an email held by a verified user is refused; an email held by
    an unverified user has that record's password, code and expiry
    overwritten; otherwise a new unverified user is inserted. Every write is
    followed by the verification email, whose failure turns the reply into a
    500 without undoing the write. */
module SignUp {
  import opened Common
  import opened Models
  import opened Schemas
  import opened Store
  import VerifyCode


  /** What the handler takes from its environment: the ObjectId a new user
      would get, the clock in milliseconds, the random draw behind the code,
      and the mailer's answer (None for success, or its failure message). */
  datatype Env = Env(newId: string, now: int, draw: nat, mailError: Option<string>)

  datatype Outcome = Outcome(reply: Response, users: seq<User>, mail: Option<Mail>)

  function Reject(status: int, message: Message, errors: seq<string>, users: seq<User>): Outcome
  {
    Outcome(Response(status, false, message, errors), users, None)
  }

  /** `findOne({ username, isVerified: true })`. */
  function VerifiedHolder(users: seq<User>, username: string): (r: Option<nat>)
    ensures r.Some? ==> r.value < |users| && users[r.value].username == Trim(username) && users[r.value].isVerified
    ensures r.None? ==> forall k :: 0 <= k < |users| ==> !(users[k].username == Trim(username) && users[k].isVerified)
  {
    FindUser(users, (u: User) => u.username == Trim(username) && u.isVerified)
  }

  /** `findOne({ email })`. */
  function EmailHolder(users: seq<User>, email: string): (r: Option<nat>)
    ensures r.Some? ==> r.value < |users| && users[r.value].email == email
    ensures r.None? ==> forall k :: 0 <= k < |users| ==> users[k].email != email
  {
    FindUser(users, (u: User) => u.email == email)
  }

  /** The handler as a function of the users before the request. A schema
      failure is answered without a status, that is with 200. */
  function SignUpOutcome(users: seq<User>, body: Option<Json>, env: Env, isEmail: string -> bool,
                         emailPattern: string -> bool): (o: Outcome)
    ensures |o.users| == |users| || |o.users| == |users| + 1
  {
    if body.None? then Reject(500, RegisterFailed, [], users)
    else
      var parsed := ParseSignUp(body.value, isEmail);
      if parsed.Invalid? then Reject(200, SignUpValidationFailed, parsed.messages, users)
      else RegisterOutcome(users, parsed.data, env, emailPattern)
  }

  /** After validation: the conflict checks and the write, with a code
      that expires in an hour, and then the verification email. */
  function RegisterOutcome(users: seq<User>, input: SignUpInput, env: Env, emailPattern: string -> bool): (o: Outcome)
    ensures |o.users| == |users| || |o.users| == |users| + 1
  {
    Mailed(Written(users, input, IssuedCode(env.draw), env.newId, env.now + HourMs, emailPattern), env.mailError)
  }

  /** The two conflict checks in their fixed order, then the write; a
      refused save is the catch block's 500 with nothing written, and a
      write that went through has its email to send. */
  function Written(users: seq<User>, input: SignUpInput, verifyCode: string, newId: string, expiry: int,
                   emailPattern: string -> bool): (o: Outcome)
    ensures |o.users| == |users| || |o.users| == |users| + 1
  {
    if VerifiedHolder(users, input.username).Some? then Reject(400, UsernameTaken, [], users)
    else
      var k := EmailHolder(users, input.email);
      if k.Some? && users[k.value].isVerified then Reject(400, UserExists, [], users)
      else
        var saved := Save(users, k, input, verifyCode, newId, expiry, emailPattern);
        if saved.Err? then Reject(500, RegisterFailed, [], users)
        else Outcome(Response(201, true, UserRegistered, []), saved.value, Some(Mail(input.email, input.username, verifyCode)))
  }

  /** `sendVerificationEmail` after a write: a failure turns the reply into
      a 500 carrying the mailer's message. */
  function Mailed(o: Outcome, mailError: Option<string>): (r: Outcome)
    ensures r.users == o.users && r.mail == o.mail
    ensures o.mail.Some? && mailError.Some? ==> r.reply == Response(500, false, Relayed(mailError.value), [])
    ensures o.mail.None? || mailError.None? ==> r == o
  {
    if o.mail.Some? && mailError.Some? then o.(reply := Response(500, false, Relayed(mailError.value), [])) else o
  }

  /** The write: overwrite the unverified holder of the email, or insert a
      new user with the given id; either way the code expires at `expiry`. */
  function Save(users: seq<User>, k: Option<nat>, input: SignUpInput, verifyCode: string, newId: string, expiry: int,
                emailPattern: string -> bool): (r: Result<seq<User>, string>)
    requires k.Some? ==> k.value < |users|
    ensures r.Ok? && k.Some? ==> |r.value| == |users|
    ensures r.Ok? && k.None? ==> |r.value| == |users| + 1
  {
    if k.Some? then
      Ok(users[k.value := users[k.value].(password := input.password, verifyCode := verifyCode,
                                          verifyCodeExpiry := expiry)])
    else InsertNew(users, input, verifyCode, newId, expiry, emailPattern)
  }

  /** `new UserModel({...}).save()`: mongoose validation or a unique index
      can refuse the new user. */
  function InsertNew(users: seq<User>, input: SignUpInput, verifyCode: string, newId: string, expiry: int,
                     emailPattern: string -> bool): (r: Result<seq<User>, string>)
    ensures r.Ok? ==> |r.value| == |users| + 1
  {
    var made := NewUser(newId, input.username, input.email, input.password, verifyCode, expiry, emailPattern);
    if made.Err? then Err(made.error) else InsertUser(users, made.value)
  }

  /** The handler over the store. */
  method Handle(db: Db, body: Option<Json>, env: Env, isEmail: string -> bool, emailPattern: string -> bool)
    returns (reply: Response, mail: Option<Mail>)
    requires db.Valid()
    requires forall i :: 0 <= i < |db.users| ==> db.users[i].id != env.newId
    modifies db
    ensures db.Valid()
    ensures var o := SignUpOutcome(old(db.users), body, env, isEmail, emailPattern);
            reply == o.reply && db.users == o.users && mail == o.mail
    ensures db.posts == old(db.posts) && db.feedbacks == old(db.feedbacks)
  {
    if body.None? {
      return Response(500, false, RegisterFailed, []), None;
    }
    var parsed := ParseSignUp(body.value, isEmail);
    if parsed.Invalid? {
      return Response(200, false, SignUpValidationFailed, parsed.messages), None;
    }
    reply, mail := Register(db, parsed.data, env, emailPattern);
  }

  /** The conflict checks, the write and the email. */
  method Register(db: Db, input: SignUpInput, env: Env, emailPattern: string -> bool)
    returns (reply: Response, mail: Option<Mail>)
    requires db.Valid()
    requires forall i :: 0 <= i < |db.users| ==> db.users[i].id != env.newId
    modifies db
    ensures db.Valid()
    ensures var o := RegisterOutcome(old(db.users), input, env, emailPattern);
            reply == o.reply && db.users == o.users && mail == o.mail
    ensures db.posts == old(db.posts) && db.feedbacks == old(db.feedbacks)
  {
    mail := None;
    var verifyCode := IssuedCode(env.draw);
    ghost var written := Written(db.users, input, verifyCode, env.newId, env.now + HourMs, emailPattern);
    assert RegisterOutcome(db.users, input, env, emailPattern) == Mailed(written, env.mailError);
    var existingUserByUsername := VerifiedHolder(db.users, input.username);
    if existingUserByUsername.Some? {
      assert written == Reject(400, UsernameTaken, [], db.users);
      return Response(400, false, UsernameTaken, []), None;
    }
    var existingUserByEmail := EmailHolder(db.users, input.email);
    if existingUserByEmail.Some? && db.users[existingUserByEmail.value].isVerified {
      assert written == Reject(400, UserExists, [], db.users);
      return Response(400, false, UserExists, []), None;
    }
    ghost var saving := Save(db.users, existingUserByEmail, input, verifyCode, env.newId, env.now + HourMs, emailPattern);
    assert written ==
           if saving.Err? then Reject(500, RegisterFailed, [], db.users)
           else Outcome(Response(201, true, UserRegistered, []), saving.value, Some(Mail(input.email, input.username, verifyCode)));
    var saved := SaveUser(db, existingUserByEmail, input, verifyCode, env.newId, env.now + HourMs, emailPattern);
    if !saved {
      assert written == Reject(500, RegisterFailed, [], old(db.users));
      return Response(500, false, RegisterFailed, []), None;
    }
    mail := Some(Mail(input.email, input.username, verifyCode));
    assert written.users == db.users && written.mail == mail;
    if env.mailError.Some? {
      reply := Response(500, false, Relayed(env.mailError.value), []);
    } else {
      reply := Response(201, true, UserRegistered, []);
    }
  }

  /** The write: update the unverified holder of the email in place, or
      save a new user; reports whether the write went through. */
  method SaveUser(db: Db, k: Option<nat>, input: SignUpInput, verifyCode: string, newId: string, expiry: int,
                  emailPattern: string -> bool) returns (saved: bool)
    requires db.Valid()
    requires k.Some? ==> k.value < |db.users|
    requires forall i :: 0 <= i < |db.users| ==> db.users[i].id != newId
    modifies db
    ensures db.Valid()
    ensures var r := Save(old(db.users), k, input, verifyCode, newId, expiry, emailPattern);
            saved == r.Ok? && db.users == (if r.Ok? then r.value else old(db.users))
    ensures db.posts == old(db.posts) && db.feedbacks == old(db.feedbacks)
  {
    if k.Some? {
      var user := db.users[k.value].(password := input.password, verifyCode := verifyCode, verifyCodeExpiry := expiry);
      UpdateKeepsUnique(db.users, k.value, user);
      db.users := db.users[k.value := user];
      return true;
    }
    var newUser := NewUser(newId, input.username, input.email, input.password, verifyCode, expiry, emailPattern);
    if newUser.Err? {
      return false;
    }
    var inserted := InsertUser(db.users, newUser.value);
    if inserted.Err? {
      return false;
    }
    db.users := inserted.value;
    saved := true;
  }

  // ---------------------------------------------------------------------
  // Properties of registration

  /** A schema failure is answered with 200 and `success: false`, listing
      zod's messages, and writes nothing. */
  lemma InvalidBodyChangesNothing(users: seq<User>, body: Option<Json>, env: Env, isEmail: string -> bool, emailPattern: string -> bool)
    requires body.Some? && ParseSignUp(body.value, isEmail).Invalid?
    ensures var o := SignUpOutcome(users, body, env, isEmail, emailPattern);
            o.users == users && o.mail.None? && o.reply.status == 200 && !o.reply.success && o.reply.errors != []
  {
  }

  /** A body that passes the schema goes on to the registration logic with
      the parsed fields, whose password is then never empty; the properties
      below are stated about that logic. */
  lemma ValidBodyRegisters(users: seq<User>, body: Option<Json>, env: Env, isEmail: string -> bool, emailPattern: string -> bool)
    requires body.Some? && ParseSignUp(body.value, isEmail).Valid?
    ensures var input := ParseSignUp(body.value, isEmail).data;
            && SignUpOutcome(users, body, env, isEmail, emailPattern) == RegisterOutcome(users, input, env, emailPattern)
            && 6 <= |input.password| <= 20 && 4 <= |input.username| <= 20 && isEmail(input.email)
  {
  }

  /** The username check comes first: a username held by a verified user is
      400 and writes nothing, whoever holds the email. */
  lemma TakenUsernameIs400(users: seq<User>, input: SignUpInput, env: Env, emailPattern: string -> bool)
    requires VerifiedHolder(users, input.username).Some?
    ensures RegisterOutcome(users, input, env, emailPattern) == Reject(400, UsernameTaken, [], users)
  {
  }

  /** An email held by a verified user is 400 and writes nothing. */
  lemma VerifiedEmailIs400(users: seq<User>, input: SignUpInput, env: Env, emailPattern: string -> bool)
    requires VerifiedHolder(users, input.username).None?
    requires EmailHolder(users, input.email).Some? && users[EmailHolder(users, input.email).value].isVerified
    ensures RegisterOutcome(users, input, env, emailPattern) == Reject(400, UserExists, [], users)
  {
  }

  /** 400 exactly when one of the two conflict checks fires. */
  lemma ConflictsIff400(users: seq<User>, input: SignUpInput, env: Env, emailPattern: string -> bool)
    ensures var k := EmailHolder(users, input.email);
            RegisterOutcome(users, input, env, emailPattern).reply.status == 400 <==>
              VerifiedHolder(users, input.username).Some? || (k.Some? && users[k.value].isVerified)
  {
  }

  /** An email held by an unverified user: only that record's password,
      code and expiry change (the code is a new six-digit one, the expiry one
      hour from now), no user is added, and the record keeps its own
      username while the email carries the username of the request. */
  lemma UnverifiedEmailOverwritten(users: seq<User>, input: SignUpInput, env: Env, emailPattern: string -> bool)
    requires VerifiedHolder(users, input.username).None?
    requires EmailHolder(users, input.email).Some? && !users[EmailHolder(users, input.email).value].isVerified
    ensures var k := EmailHolder(users, input.email).value;
            var o := RegisterOutcome(users, input, env, emailPattern);
            && o.mail == Some(Mail(input.email, input.username, IssuedCode(env.draw)))
            && o.users == users[k := users[k].(password := input.password, verifyCode := IssuedCode(env.draw),
                                               verifyCodeExpiry := env.now + HourMs)]
            && o.users[k].username == users[k].username
            && !o.users[k].isVerified
  {
    var k := EmailHolder(users, input.email).value;
    OverwriteWritten(users, input, IssuedCode(env.draw), env.newId, env.now + HourMs, emailPattern);
    MailFailureKeepsWrite(users, input, env, emailPattern);
  }

  /** The write step for an unverified holder of the email: the holder's
      record is overwritten in place and the code is to be mailed. */
  lemma OverwriteWritten(users: seq<User>, input: SignUpInput, verifyCode: string, newId: string, expiry: int,
                         emailPattern: string -> bool)
    requires VerifiedHolder(users, input.username).None?
    requires EmailHolder(users, input.email).Some? && !users[EmailHolder(users, input.email).value].isVerified
    ensures var k := EmailHolder(users, input.email).value;
            Written(users, input, verifyCode, newId, expiry, emailPattern) ==
            Outcome(Response(201, true, UserRegistered, []),
                    users[k := users[k].(password := input.password, verifyCode := verifyCode, verifyCodeExpiry := expiry)],
                    Some(Mail(input.email, input.username, verifyCode)))
  {
  }

  /** The user a fresh registration inserts. */
  function NewRecord(input: SignUpInput, env: Env): User
  {
    User(env.newId, Trim(input.username), input.email, input.password, IssuedCode(env.draw), env.now + HourMs, false, true)
  }

  /** Inserting a new user succeeds exactly when mongoose validation and the
      unique indexes let it through. */
  lemma InsertNewIff(users: seq<User>, input: SignUpInput, verifyCode: string, env: Env, emailPattern: string -> bool)
    requires forall i :: 0 <= i < |users| ==> users[i].id != env.newId && users[i].email != input.email
    requires input.password != [] && verifyCode != []
    ensures InsertNew(users, input, verifyCode, env.newId, env.now + HourMs, emailPattern).Ok? <==>
            && Trim(input.username) != [] && emailPattern(input.email) && input.email != []
            && forall i :: 0 <= i < |users| ==> users[i].username != Trim(input.username)
  {
  }

  /** What a successful insert appends. */
  lemma InsertNewAppends(users: seq<User>, input: SignUpInput, verifyCode: string, env: Env, emailPattern: string -> bool)
    requires InsertNew(users, input, verifyCode, env.newId, env.now + HourMs, emailPattern).Ok?
    ensures InsertNew(users, input, verifyCode, env.newId, env.now + HourMs, emailPattern).value ==
            users + [User(env.newId, Trim(input.username), input.email, input.password, verifyCode, env.now + HourMs, false, true)]
  {
  }

  /** With neither conflict and no holder of the email, exactly one user is
      appended -- the trimmed username, the email, the password, the new code
      and an expiry one hour from now, unverified and accepting messages --
      exactly when the trimmed username is not blank, the email matches the
      model's pattern and no (unverified) user already has that username;
      otherwise the save fails with 500 and nothing is written or mailed. */
  lemma NewEmailInsertsOne(users: seq<User>, input: SignUpInput, env: Env, emailPattern: string -> bool)
    requires input.password != []
    requires forall i :: 0 <= i < |users| ==> users[i].id != env.newId
    requires VerifiedHolder(users, input.username).None? && EmailHolder(users, input.email).None?
    ensures var o := RegisterOutcome(users, input, env, emailPattern);
            var insertable := && Trim(input.username) != [] && input.email != [] && emailPattern(input.email)
                              && forall i :: 0 <= i < |users| ==> users[i].username != Trim(input.username);
            && (insertable ==> o.users == users + [NewRecord(input, env)]
                               && o.mail == Some(Mail(input.email, input.username, IssuedCode(env.draw))))
            && (!insertable ==> o == Reject(500, RegisterFailed, [], users))
  {
    var code := IssuedCode(env.draw);
    var saved := InsertNew(users, input, code, env.newId, env.now + HourMs, emailPattern);
    InsertWritten(users, input, code, env.newId, env.now + HourMs, emailPattern);
    MailFailureKeepsWrite(users, input, env, emailPattern);
    InsertNewIff(users, input, code, env, emailPattern);
    if saved.Ok? {
      InsertNewAppends(users, input, code, env, emailPattern);
    }
  }

  /** The write step when nobody holds the email: an insert, whose refusal
      is the 500 with nothing written. */
  lemma InsertWritten(users: seq<User>, input: SignUpInput, verifyCode: string, newId: string, expiry: int,
                      emailPattern: string -> bool)
    requires VerifiedHolder(users, input.username).None? && EmailHolder(users, input.email).None?
    ensures var saved := InsertNew(users, input, verifyCode, newId, expiry, emailPattern);
            Written(users, input, verifyCode, newId, expiry, emailPattern) ==
            if saved.Err? then Reject(500, RegisterFailed, [], users)
            else Outcome(Response(201, true, UserRegistered, []), saved.value, Some(Mail(input.email, input.username, verifyCode)))
  {
  }

  /** A failed email does not undo the write: the users collection and the
      email are those of the write alone, a clean send keeps the write's
      reply, and a failed one turns its 201 into a 500 with the mailer's
      message. */
  lemma MailFailureKeepsWrite(users: seq<User>, input: SignUpInput, env: Env, emailPattern: string -> bool)
    ensures var w := Written(users, input, IssuedCode(env.draw), env.newId, env.now + HourMs, emailPattern);
            var o := RegisterOutcome(users, input, env, emailPattern);
            && o.users == w.users && o.mail == w.mail
            && (env.mailError.None? ==> o == w)
            && (env.mailError.Some? && w.reply.status == 201 ==> o.reply == Response(500, false, Relayed(env.mailError.value), []))
  {
    var w := Written(users, input, IssuedCode(env.draw), env.newId, env.now + HourMs, emailPattern);
    assert RegisterOutcome(users, input, env, emailPattern) == Mailed(w, env.mailError);
    assert w.reply.status == 201 ==> w.mail.Some?;
  }

  /** Registration and verification fit together: after a fresh
      registration, presenting the mailed code for the same username before
      the expiry verifies the new account. */
  lemma {:induction false} RegisteredUserCanVerify(users: seq<User>, input: SignUpInput, env: Env, emailPattern: string -> bool,
                                                   later: int, draw': nat)
    requires input.password != []
    requires forall i :: 0 <= i < |users| ==> users[i].id != env.newId
    requires EmailHolder(users, input.email).None?
    requires RegisterOutcome(users, input, env, emailPattern).reply.status == 201
    requires later < env.now + HourMs
    ensures var o := RegisterOutcome(users, input, env, emailPattern);
            o.mail.Some? &&
            VerifyCode.VerifyOutcome(o.users, Some(VerifyCode.CodeBody(o.mail.value.code)), input.username, later, draw').reply.status == 200
  {
    var o := RegisterOutcome(users, input, env, emailPattern);
    assert VerifiedHolder(users, input.username).None?;
    NewEmailInsertsOne(users, input, env, emailPattern);
    var u := NewRecord(input, env);
    assert o.users == users + [u];
    var p := (v: User) => v.username == Trim(input.username);
    assert FindUser(users, p).None?;
    FindUserAppended(users, u, p);
    assert FindByUsername(o.users, input.username) == Some(|users|);
    VerifyCode.PresentedCodeReachesDecision(o.users, input.username, u.verifyCode, later, draw');
  }
}
